/**
 `accrue_org` of billing.py: the daily catch-up of one organisation's ledger. Days are day
 numbers; the store keeps one row a day and ignores an insert on a day it has.
 */
module Ledger {
  import opened Options
  import opened Calendar
  import opened Metering
  import Sets

  const BACKFILL_MAX := 31

  type Rows = map<nat, Row>

  /** What a sweep reads of the organisation and of the clock. */
  datatype Reading = Reading(today: nat, anchor: Option<nat>, skipped: bool, onu: Source, devices: int, rate: int, floor: int)

  predicate ValidReading(r: Reading) {
    r.today > BACKFILL_MAX && (r.anchor.Some? ==> r.anchor.value >= 1)
  }

  ghost predicate Days(rows: Rows) {
    forall d :: d in rows ==> d >= 1
  }

  /** The latest day with a row. */
  ghost predicate IsLast(rows: Rows, last: Option<nat>) {
    match last
    case None => forall d :: d !in rows
    case Some(l) => l in rows && forall d :: d in rows ==> d <= l
  }

  function Min(a: int, b: int): int {
    if a <= b then a else b
  }

  /** The first day of the catch-up window, clamp by clamp as the sweep applies them. */
  function StartDay(last: Option<nat>, r: Reading): int {
    var next := if last.Some? then Min(r.today, last.value + 1) else r.today;
    var bounded := if next < r.today - BACKFILL_MAX then r.today - BACKFILL_MAX else next;
    if r.anchor.Some? && bounded < r.anchor.value then Min(r.anchor.value, r.today) else bounded
  }

  /** The latest of the day after the last row, 31 days back, and the anchor; today at the latest. */
  lemma StartIsLatest(last: Option<nat>, r: Reading)
    ensures
      var after := if last.Some? then last.value + 1 else r.today;
      var anchor := if r.anchor.Some? then r.anchor.value else after;
      StartDay(last, r) == Min(r.today, Max(after, Max(r.today - BACKFILL_MAX, anchor)))
  {}

  function PriorRung(rows: Rows, last: Option<nat>): Option<Rung> {
    if last.Some? && last.value in rows then
      var rung := EffectiveSource(rows[last.value].source, rows[last.value].flags);
      if rung == Nothing then None else Some(rung)
    else None
  }

  /** Today's row, measured now, with the rung of the row before to compare with. */
  function TodaysRow(rung: Option<Rung>, r: Reading): Row
    requires ValidReading(r)
  {
    var got := ResolveCount(Some(r.onu), rung);
    AccrueDay(r.today, got.count, got.source, got.flags, r.devices, r.rate, r.floor)
  }

  /** A day the sweep may fill in: inside the window, before today, with a row to carry. */
  predicate Fills(last: Option<nat>, r: Reading, d: nat) {
    last.Some? && StartDay(last, r) <= d < r.today
  }

  /** `after` is the ledger one sweep leaves. */
  ghost predicate Accrued(rows: Rows, last: Option<nat>, r: Reading, after: Rows) {
    && (forall d :: d in after <==> d in rows || Fills(last, r, d) || d == r.today)
    && (forall d :: d in rows ==> d in after && after[d] == rows[d])
    && (forall d :: Fills(last, r, d) && d !in rows ==> last.value in rows && d >= 1 && d in after && after[d] == CarryForward(rows[last.value], d))
    && (r.today !in rows ==> ValidReading(r) && r.today in after && after[r.today] == TodaysRow(PriorRung(rows, last), r))
  }

  lemma StartBounds(last: Option<nat>, r: Reading)
    requires ValidReading(r)
    ensures 1 <= StartDay(last, r) <= r.today
  {}

  /** `after` is `rows` with the prior row carried into every day from `start` to before `day` that had none. */
  ghost predicate Filled(rows: Rows, after: Rows, prior: Option<Row>, start: int, day: int)
    requires start >= 1
  {
    && (forall d :: d in after <==> d in rows || (prior.Some? && start <= d < day))
    && (forall d :: d in rows ==> d in after && after[d] == rows[d])
    && (forall d :: prior.Some? && start <= d < day && d !in rows ==> d in after && after[d] == CarryForward(prior.value, d))
  }

  /** The days written, in order. */
  ghost predicate Lists(written: seq<nat>, rows: Rows, after: Rows) {
    && (forall d :: d in written <==> d in after && d !in rows)
    && (forall i, k :: 0 <= i < k < |written| ==> written[i] < written[k])
  }

  class Store {
    var rows: Rows

    constructor ()
      ensures rows == map[]
    {
      rows := map[];
    }

    /** Insert or ignore on the day. */
    method InsertAccrual(day: nat, row: Row) returns (fresh_: bool)
      modifies this
      ensures fresh_ <==> day !in old(rows)
      ensures rows == if day in old(rows) then old(rows) else old(rows)[day := row]
    {
      fresh_ := day !in rows;
      if fresh_ {
        rows := rows[day := row];
      }
    }

    method LastAccrualDay() returns (last: Option<nat>)
      ensures IsLast(rows, last)
    {
      last := None;
      var left := rows.Keys;
      ghost var done: set<nat> := {};
      while left != {}
        invariant Sets.Split(rows.Keys, done, left)
        invariant last.None? ==> done == {}
        invariant last.Some? ==> last.value in done && forall d :: d in done ==> d <= last.value
        decreases left
      {
        var d := Sets.Any(left);
        Sets.VisitOne(rows.Keys, done, left, d);
        left := left - {d};
        done := done + {d};
        if last.None? || d > last.value {
          last := Some(d);
        }
      }
    }

    /** The catch-up loop: every day of the window before today, if there is a row to carry. */
    method FillGap(prior: Option<Row>, start: int, today: nat) returns (written: seq<nat>)
      requires 1 <= start <= today
      modifies this
      ensures Filled(old(rows), rows, prior, start, today) && Lists(written, old(rows), rows)
      ensures forall i :: 0 <= i < |written| ==> written[i] < today
    {
      hide CarryForward;
      ghost var rows0 := rows;
      written := [];
      var day := start;
      while day < today
        invariant start <= day <= today
        invariant Filled(rows0, rows, prior, start, day) && Lists(written, rows0, rows)
        invariant forall i :: 0 <= i < |written| ==> written[i] < day
      {
        if prior.Some? {
          var fresh_ := InsertAccrual(day, CarryForward(prior.value, day));
          if fresh_ {
            written := written + [day];
          }
        }
        day := day + 1;
      }
    }

    /** `accrue_org`, for an organisation that is not exempt or switched off. */
    method AccrueOrg(r: Reading) returns (written: seq<nat>, ghost last: Option<nat>)
      requires ValidReading(r) && Days(rows)
      modifies this
      ensures IsLast(old(rows), last) && Accrued(old(rows), last, r, rows) && Days(rows)
      ensures Lists(written, old(rows), rows)
    {
      hide CarryForward, TodaysRow, StartDay, EffectiveSource;
      var lastDay := LastAccrualDay();
      last := lastDay;
      ghost var rows0 := rows;
      var prior := if lastDay.Some? then Some(rows[lastDay.value]) else None;
      var rung := PriorRung(rows, lastDay);
      var start := StartDay(lastDay, r);
      StartBounds(lastDay, r);
      written := FillGap(prior, start, r.today);
      if r.today !in rows {
        var fresh_ := InsertAccrual(r.today, TodaysRow(rung, r));
        if fresh_ {
          written := written + [r.today];
        }
      }
    }

    /** `sweep`, for this organisation: nothing accrues while it is exempt or switched off. */
    method Sweep(r: Reading) returns (written: seq<nat>)
      requires ValidReading(r) && Days(rows)
      modifies this
      ensures Days(rows) && Swept(old(rows), r, rows)
      ensures Lists(written, old(rows), rows)
    {
      if r.skipped {
        return [];
      }
      ghost var last;
      written, last := AccrueOrg(r);
    }
  }

  ghost predicate Swept(rows: Rows, r: Reading, after: Rows) {
    if r.skipped then after == rows else exists last :: IsLast(rows, last) && Accrued(rows, last, r, after)
  }

  // ------------------------------------------------------------- every run

  /** `sts` is a run of sweeps: each ledger is what a sweep leaves of the one before. */
  ghost predicate Runs(sts: seq<Rows>, readings: seq<Reading>) {
    |sts| == |readings| + 1
    && (forall i :: 0 <= i < |readings| ==> ValidReading(readings[i]) && Swept(sts[i], readings[i], sts[i+1]))
  }

  lemma SweptKeeps(rows: Rows, r: Reading, after: Rows)
    requires Swept(rows, r, after)
    ensures forall d :: d in rows ==> d in after && after[d] == rows[d]
  {
    hide CarryForward, TodaysRow, StartDay, IsLast;
  }

  /** A row once written is never rewritten or removed, whatever the sweeps after it read. */
  lemma {:induction false} NeverRewritten(sts: seq<Rows>, readings: seq<Reading>, i: nat, k: nat, d: nat)
    requires Runs(sts, readings) && i <= k < |sts| && d in sts[i]
    ensures d in sts[k] && sts[k][d] == sts[i][d]
    decreases k - i
  {
    hide Swept, ValidReading;
    if i < k {
      NeverRewritten(sts, readings, i, k - 1, d);
      SweptKeeps(sts[k-1], readings[k-1], sts[k]);
    }
  }

  lemma LastUnique(rows: Rows, a: Option<nat>, b: Option<nat>)
    requires IsLast(rows, a) && IsLast(rows, b)
    ensures a == b
  {}

  /** A second sweep on a day writes nothing, whatever it reads. */
  lemma RepeatWritesNothing(rows: Rows, r: Reading, mid: Rows, again: Reading, after: Rows)
    requires ValidReading(r) && ValidReading(again) && Swept(rows, r, mid) && Swept(mid, again, after)
    requires !r.skipped && again.today == r.today
    ensures after == mid
  {
    hide CarryForward, TodaysRow;
    if !again.skipped {
      var last :| IsLast(mid, last) && Accrued(mid, last, again, after);
      assert r.today in mid;
      assert forall d :: !Fills(last, again, d);
      assert forall d :: d in after <==> d in mid;
      assert after == mid;
    }
  }

  /**
   A sweep after a gap writes exactly the days from the latest of the day after the last
   row, 31 days back and the anchor, up to and with today; before today they carry the
   last row's counts, rates and rung.
   */
  lemma GapFilled(rows: Rows, r: Reading, after: Rows, last: nat, d: nat)
    requires ValidReading(r) && !r.skipped && Swept(rows, r, after) && IsLast(rows, Some(last)) && last < r.today
    ensures
      var from := Max(last + 1, Max(r.today - BACKFILL_MAX, if r.anchor.Some? then r.anchor.value else 0));
      d in after && d !in rows <==> Min(from, r.today) <= d <= r.today
    ensures d in after && d !in rows && d < r.today ==> d >= 1 && after[d] == CarryForward(rows[last], d)
  {
    hide CarryForward, TodaysRow;
    var l :| IsLast(rows, l) && Accrued(rows, l, r, after);
    LastUnique(rows, l, Some(last));
    StartIsLatest(Some(last), r);
  }

  /** A day filled in after a gap goes on with the last row's counts, rates and source, marked, at its own month's price. */
  lemma GapCarries(rows: Rows, r: Reading, after: Rows, last: nat, d: nat)
    requires ValidReading(r) && !r.skipped && Swept(rows, r, after) && IsLast(rows, Some(last)) && last < r.today
    requires AllPriced(rows) && d in after && d !in rows && d < r.today
    ensures
      var row, was := after[d], rows[last];
      && d >= 1 && DayOf(row, DaysIn(MonthOf(d)))
      && row.conns == was.conns && row.devices == was.devices && row.rate == was.rate && row.floor == was.floor
      && row.source == was.source && row.flags == Flags(true, if was.source.Held? then was.flags.held else None, None, None)
  {
    hide Swept, CarryForward, DaysIn, MonthOf;
    GapFilled(rows, r, after, last, d);
    CarryKeeps(rows[last], last, d);
    DailyIsNearest(rows[last].conns, rows[last].devices, rows[last].rate, rows[last].floor, DaysIn(MonthOf(d)));
  }

  /** With no row to carry, only today is written. */
  lemma FirstSweep(rows: Rows, r: Reading, after: Rows, d: nat)
    requires ValidReading(r) && !r.skipped && Swept(rows, r, after) && IsLast(rows, None)
    ensures d in after <==> d == r.today
  {
    hide CarryForward, TodaysRow;
    var l :| IsLast(rows, l) && Accrued(rows, l, r, after);
    LastUnique(rows, l, None);
  }

  /** The rung the last row stands on, held over or read. */
  predicate StoodOn(rows: Rows, last: Option<nat>, rung: Rung) {
    last.Some? && last.value in rows && EffectiveSource(rows[last.value].source, rows[last.value].flags) == rung
  }

  /** The roster was walked no longer ago than a week. */
  predicate WalkedWithin(s: Source, days: real) {
    s.present && s.age.Some? && s.age.value <= days
  }

  function Positive(n: int): int {
    if n > 0 then n else 0
  }

  /**
   What is billed today is what the reading says: the roster's count if it was walked within a
   week, held over if not within a day, and nobody otherwise; the devices and both rates as
   read; and the nearest paise to a day's share of the dearer of the two sides. A change of
   rung is flagged, and as a downgrade exactly when the last row stood on the roster and
   today's cannot, however many days were filled in between.
   */
  lemma TodayMeasured(rows: Rows, last: Option<nat>, r: Reading, after: Rows)
    requires ValidReading(r) && !r.skipped && Swept(rows, r, after) && IsLast(rows, last) && r.today !in rows
    ensures
      && IsLast(after, Some(if last.Some? then Max(last.value, r.today) else r.today)) && r.today in after
      && Measured(after[r.today], r)
      && var row, rung := after[r.today], if WalkedWithin(r.onu, 7.0) then Onu else Nothing;
         && (row.flags.downgraded.Some? <==> StoodOn(rows, last, Onu) && rung == Nothing)
         && (row.flags.changed.Some? <==> exists was :: was != Nothing && was != rung && StoodOn(rows, last, was))
         && (row.flags.changed.Some? ==> StoodOn(rows, last, row.flags.changed.value.was) && row.flags.changed.value.now == rung)
         && (row.flags.downgraded.Some? ==> row.flags.downgraded == row.flags.changed)
  {
    hide CarryForward, ResolveCount, DailyPaise, DaysIn, MonthOf, StartDay, Measured, EffectiveSource;
    var l :| IsLast(rows, l) && Accrued(rows, l, r, after);
    LastUnique(rows, l, last);
    var rung := PriorRung(rows, last);
    ResolveMeans(Some(r.onu), rung);
    TodayIs(rung, r);
    if rung.Some? { assert StoodOn(rows, last, rung.value); }
    forall was | was != Nothing && StoodOn(rows, last, was) ensures rung == Some(was) {}
  }

  /** The row charges the nearest paise to a day's share of the dearer side, and says which side that is. */
  predicate DayOf(row: Row, days: int) {
    var conns, devices := row.conns * Positive(row.rate), row.devices * Positive(row.floor);
    && row.side == (if conns >= devices then Conn else Floor)
    && -days < 2 * days * row.paise - 2 * (if conns >= devices then conns else devices) <= days
  }

  /** The row says what was read today, and what it is charged for. */
  ghost predicate Measured(row: Row, r: Reading)
    requires ValidReading(r)
  {
    var believed := WalkedWithin(r.onu, 7.0);
    && row.conns == (if believed then Positive(r.onu.count) else 0)
    && row.devices == Positive(r.devices) && row.rate == r.rate && row.floor == r.floor
    && DayOf(row, DaysIn(MonthOf(r.today)))
    && row.source == (if !believed then Read(Nothing) else if WalkedWithin(r.onu, 1.0) then Read(Onu) else Held)
    && row.flags.held == (if row.source.Held? then Some(Onu) else None)
    && !row.flags.backfilled
  }

  lemma TodayIs(rung: Option<Rung>, r: Reading)
    requires ValidReading(r)
    ensures Measured(TodaysRow(rung, r), r) && TodaysRow(rung, r).flags == ResolveCount(Some(r.onu), rung).flags
    ensures WalkedWithin(r.onu, 7.0) <==> Answers(Some(r.onu))
  {
    hide DaysIn, MonthOf;
    var got, days := ResolveCount(Some(r.onu), rung), DaysIn(MonthOf(r.today));
    DailyIsNearest(got.count, r.devices, r.rate, r.floor, days);
  }

  // --------------------------------------------------------------- the money

  ghost predicate AllPriced(rows: Rows) {
    forall d :: d in rows ==> d >= 1 && Priced(rows[d], d)
  }

  lemma SweptPriced(rows: Rows, r: Reading, after: Rows)
    requires ValidReading(r) && AllPriced(rows) && Swept(rows, r, after)
    ensures AllPriced(after)
  {
    if !r.skipped {
      hide StartDay, Priced, CarryForward, TodaysRow, EffectiveSource;
      var last :| IsLast(rows, last) && Accrued(rows, last, r, after);
      forall d | d in after ensures d >= 1 && Priced(after[d], d) {
        if d in rows {
        } else if Fills(last, r, d) {
          CarryKeeps(rows[last.value], last.value, d);
        } else {
          TodayPriced(PriorRung(rows, last), r);
        }
      }
    }
  }

  lemma TodayPriced(rung: Option<Rung>, r: Reading)
    requires ValidReading(r)
    ensures Priced(TodaysRow(rung, r), r.today)
  {
    hide Priced, AccrueDay;
    var got := ResolveCount(Some(r.onu), rung);
    AccruedPriced(r.today, got.count, got.source, got.flags, r.devices, r.rate, r.floor);
  }

  lemma {:induction false} RunPriced(sts: seq<Rows>, readings: seq<Reading>, k: nat)
    requires Runs(sts, readings) && k < |sts| && sts[0] == map[]
    ensures AllPriced(sts[k])
  {
    hide Swept, ValidReading;
    if k > 0 {
      RunPriced(sts, readings, k - 1);
      SweptPriced(sts[k-1], readings[k-1], sts[k]);
    }
  }

  /** The charge of the first `n` days from `first`, as the rows have it. */
  function Charged(rows: Rows, first: nat, n: nat): int {
    if n == 0 then 0
    else Charged(rows, first, n - 1) + (if first + n - 1 in rows then rows[first + n - 1].paise else 0)
  }

  /** The monthly amounts those rows are a day's share of, added up. */
  function Owed(rows: Rows, first: nat, n: nat): int {
    if n == 0 then 0
    else
      Owed(rows, first, n - 1)
      + (if first + n - 1 in rows then
           var x := rows[first + n - 1];
           Monthly(x.conns, x.devices, x.rate, x.floor)
         else 0)
  }

  lemma {:induction false} ChargedClose(rows: Rows, first: nat, n: nat, days: int)
    requires AllPriced(rows) && first >= 1 && days > 0
    requires forall d :: first <= d < first + n ==> DaysIn(MonthOf(d)) == days
    ensures -days * n <= 2 * days * Charged(rows, first, n) - 2 * Owed(rows, first, n) <= days * n
  {
    hide DaysIn, DateOf;
    if n > 0 {
      ChargedClose(rows, first, n - 1, days);
      var d := first + n - 1;
      assert DaysIn(MonthOf(d)) == days;
      if d in rows {
        var x := rows[d];
        assert Priced(x, d);
        DailyIsNearest(x.conns, x.devices, x.rate, x.floor, days);
        OneDay(days, Charged(rows, first, n - 1), x.paise);
      }
      assert days * n == days * (n - 1) + days;
    }
  }

  lemma OneDay(days: int, sum: int, p: int)
    ensures 2 * days * (sum + p) == 2 * days * sum + 2 * days * p
  {}

  /**
   A month's total is within half a paise a day of the exact sum of each day's share of its
   monthly charge: over the whole month, at most half as many paise as it has days.
   */
  lemma {:induction false} MonthTotalClose(sts: seq<Rows>, readings: seq<Reading>, k: nat, first: nat)
    requires Runs(sts, readings) && k < |sts| && sts[0] == map[]
    requires first >= 1 && DateOf(first).day == 1
    ensures
      var days := DaysIn(MonthOf(first));
      && -days * days <= 2 * days * Charged(sts[k], first, days) - 2 * Owed(sts[k], first, days) <= days * days
      && forall d: nat :: d >= 1 ==> (MonthOf(d) == MonthOf(first) <==> first <= d < first + days)
  {
    hide Runs, AllPriced, DateOf, Charged, Owed, DaysIn;
    RunPriced(sts, readings, k);
    var days := DaysIn(MonthOf(first));
    forall d: nat | d >= 1 ensures MonthOf(d) == MonthOf(first) <==> first <= d < first + days { MonthIsRange(first, d); }
    ChargedClose(sts[k], first, days, days);
  }
}
