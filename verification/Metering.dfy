/**
 metering.py: counts and rates in, one accrual row out. Money is whole paise; ages are days.
 */
module Metering {
  import opened Options
  import opened Calendar

  const LIVE_AGE := 1.0
  const HOLD := 7.0

  // What a count can stand on; the last two are only found in old rows.
  datatype Rung = Onu | Nothing | Radius | Declared

  // What a row stores: a rung, or a rung's last good count held over.
  datatype ConnSource = Read(rung: Rung) | Held

  datatype Change = Change(was: Rung, now: Rung)

  datatype Flags = Flags(backfilled: bool, held: Option<Rung>, changed: Option<Change>, downgraded: Option<Change>)

  const NO_FLAGS := Flags(false, None, None, None)

  datatype Side = Conn | Floor

  datatype Row = Row(paise: int, conns: int, source: ConnSource, devices: int, side: Side, rate: int, floor: int, flags: Flags)

  datatype Source = Source(present: bool, count: int, age: Option<real>)

  function Max(a: int, b: int): int {
    if a >= b then a else b
  }

  /** What a whole month at these counts and rates comes to. */
  function Monthly(conns: int, devices: int, rate: int, floor: int): (m: int)
    ensures m >= 0
  {
    Max(ConnSide(conns, rate), FloorSide(devices, floor))
  }

  function ConnSide(conns: int, rate: int): (m: int)
    ensures m >= 0
  {
    Max(0, conns) * Max(0, rate)
  }

  function FloorSide(devices: int, floor: int): (m: int)
    ensures m >= 0
  {
    Max(0, devices) * Max(0, floor)
  }

  /** `daily_paise`: a month's charge over its days, halves up. */
  function DailyPaise(conns: int, devices: int, rate: int, floor: int, days: int): (int, Side)
    requires days > 0
  {
    ((Monthly(conns, devices, rate, floor) * 2 + days) / (days * 2),
     if ConnSide(conns, rate) >= FloorSide(devices, floor) then Conn else Floor)
  }

  /** The day's charge is the nearest whole paise to its share of the month, and half way goes up. */
  lemma DailyIsNearest(conns: int, devices: int, rate: int, floor: int, days: int)
    requires days > 0
    ensures
      var p, m := DailyPaise(conns, devices, rate, floor, days).0, Monthly(conns, devices, rate, floor);
      p >= 0 && -days < 2 * days * p - 2 * m <= days
  {
    var m := Monthly(conns, devices, rate, floor);
    Halves(m, days);
  }

  lemma Halves(m: int, days: int)
    requires m >= 0 && days > 0
    ensures
      var p := (m * 2 + days) / (days * 2);
      p >= 0 && -days < 2 * days * p - 2 * m <= days
  {
    var a, b := m * 2 + days, days * 2;
    var p := a / b;
    assert a == b * p + a % b;
    assert 0 <= a % b < b;
    assert b * p == 2 * days * p;
    if p < 0 { NegativeProduct(b, p); }
  }

  lemma NegativeProduct(b: int, p: int)
    requires b > 0 && p < 0
    ensures b * p <= -b
  {}

  function Order(r: Rung): int {
    match r
    case Onu => 0
    case Nothing => 1
    case _ => 2
  }

  datatype Resolved = Resolved(count: int, source: ConnSource, flags: Flags, effective: Rung)

  /** The roster answers: it exists, and was last walked no longer ago than a count is held. */
  predicate Answers(onu: Option<Source>) {
    onu.Some? && onu.value.present && onu.value.age.Some? && onu.value.age.value <= HOLD
  }

  function ResolveCount(onu: Option<Source>, prior: Option<Rung>): Resolved {
    var answers := Answers(onu);
    var stale := answers && onu.value.age.value > LIVE_AGE;
    var effective := if answers then Onu else Nothing;
    var change := if prior.Some? && prior.value != effective then Some(Change(prior.value, effective)) else None;
    Resolved(
      if answers then Max(0, onu.value.count) else 0,
      if stale then Held else Read(effective),
      Flags(false, if stale then Some(Onu) else None, change,
            if change.Some? && Order(effective) > Order(prior.value) then change else None),
      effective)
  }

  /** The rung behind a stored row. */
  function EffectiveSource(source: ConnSource, flags: Flags): Rung {
    match source
    case Held => if flags.held.Some? then flags.held.value else Nothing
    case Read(r) => r
  }

  /**
   A held count still stands on its rung; the roster is believed exactly when it answers; and
   a downgrade is flagged exactly when a roster that answered before no longer does.
   */
  lemma ResolveMeans(onu: Option<Source>, prior: Option<Rung>)
    ensures
      var r := ResolveCount(onu, prior);
      && EffectiveSource(r.source, r.flags) == r.effective
      && (r.effective == Onu <==> Answers(onu))
      && (r.effective != Onu ==> r.count == 0 && r.effective == Nothing)
      && !r.flags.backfilled
      && (r.flags.downgraded.Some? <==> prior == Some(Onu) && !Answers(onu))
      && (r.flags.changed.Some? <==> prior.Some? && prior.value != r.effective)
      && (r.flags.changed.Some? ==> r.flags.changed == Some(Change(prior.value, r.effective)))
      && (r.flags.downgraded.Some? ==> r.flags.downgraded == r.flags.changed)
  {}

  function AccrueDay(day: nat, conns: int, source: ConnSource, flags: Flags, devices: int, rate: int, floor: int): Row
    requires day >= 1
  {
    var (paise, side) := DailyPaise(conns, devices, rate, floor, DaysIn(MonthOf(day)));
    Row(paise, Max(0, conns), source, Max(0, devices), side, rate, floor, flags)
  }

  function CarryForward(prior: Row, day: nat): Row
    requires day >= 1
  {
    var row := AccrueDay(day, prior.conns, prior.source, NO_FLAGS.(backfilled := true), prior.devices, prior.rate, prior.floor);
    if prior.source.Held? && prior.flags.held.Some? then row.(flags := row.flags.(held := prior.flags.held)) else row
  }

  /** The row charges what its own counts and rates come to for a day of its month. */
  predicate Priced(row: Row, day: nat)
    requires day >= 1
  {
    && row.conns >= 0 && row.devices >= 0
    && (row.paise, row.side) == DailyPaise(row.conns, row.devices, row.rate, row.floor, DaysIn(MonthOf(day)))
  }

  /** A row as stored is charged as its own counts say: clamping them changes no money. */
  lemma AccruedPriced(day: nat, conns: int, source: ConnSource, flags: Flags, devices: int, rate: int, floor: int)
    requires day >= 1
    ensures Priced(AccrueDay(day, conns, source, flags, devices, rate, floor), day)
  {}

  /**
   A day filled in later continues the row before: same counts, same rates, same rung; only
   the number of days in its own month is new.
   */
  lemma CarryKeeps(prior: Row, was: nat, day: nat)
    requires was >= 1 && day >= 1 && Priced(prior, was)
    ensures
      var row := CarryForward(prior, day);
      && row.conns == prior.conns && row.devices == prior.devices && row.rate == prior.rate && row.floor == prior.floor
      && row.side == prior.side && row.source == prior.source
      && row.flags == Flags(true, if prior.source.Held? then prior.flags.held else None, None, None)
      && EffectiveSource(row.source, row.flags) == EffectiveSource(prior.source, prior.flags)
      && row.flags.backfilled && Priced(row, day)
      && (DaysIn(MonthOf(day)) == DaysIn(MonthOf(was)) ==> row.paise == prior.paise)
  {}
}
