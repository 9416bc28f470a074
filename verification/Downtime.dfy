/**
 `day_availability` and `weekly_outage_stats` of analytics.py: outages folded into UTC days
 and ISO weeks. Times are whole seconds since the epoch.
 */
module Downtime {
  import opened Options
  import FeedMap
  import MapSums

  const DAY := 86400
  const WEEK := 604800
  // Monday 1970-01-05.
  const MONDAY := 345600
  const LONG_OUTAGE := 1800

  datatype Outage = Outage(device: int, started: int, resolved: Option<int>, acknowledged: bool, down: bool)

  datatype Window = Window(start: int, end: int)

  function Max(a: int, b: int): int {
    if a >= b then a else b
  }

  function Min(a: int, b: int): int {
    if a <= b then a else b
  }

  function EndOf(o: Outage, w: Window): int {
    if o.resolved.Some? then o.resolved.value else w.end
  }

  /** The part of an outage inside the window. */
  function From(o: Outage, w: Window): int {
    Max(o.started, w.start)
  }

  function Until(o: Outage, w: Window): int {
    Min(EndOf(o, w), w.end)
  }

  function Clamped(o: Outage, w: Window): nat {
    if Until(o, w) > From(o, w) then Until(o, w) - From(o, w) else 0
  }

  /** How much of `[s, e)` lies in `[lo, hi)`. */
  function Overlap(s: int, e: int, lo: int, hi: int): nat {
    if Min(e, hi) > Max(s, lo) then Min(e, hi) - Max(s, lo) else 0
  }

  // ----------------------------------------------------------------- buckets

  // A day from midnight, or a week from Monday midnight.
  datatype Grain = Daily | Weekly
  {
    function Size(): int {
      if Daily? then DAY else WEEK
    }

    /** The start of the bucket that holds `x`. */
    function Of(x: int): (b: int)
      ensures b <= x < b + Size() && Starts(b)
    {
      if Daily? then x / DAY * DAY else (x - MONDAY) / WEEK * WEEK + MONDAY
    }

    predicate Starts(b: int) {
      if Daily? then b % DAY == 0 else (b - MONDAY) % WEEK == 0
    }
  }

  lemma NextBucket(g: Grain, b: int)
    requires g.Starts(b)
    ensures g.Starts(b + g.Size())
    ensures forall x :: g.Starts(x) && b <= x < b + g.Size() ==> x == b
  {}

  lemma EarlierBucket(g: Grain, x: int, b: int)
    requires g.Starts(x) && g.Starts(b) && x < b
    ensures x + g.Size() <= b
  {}

  // -------------------------------------------------------- the overlap loop

  type Rows<R> = map<int, R>

  function RowAt<R>(rows: Rows<R>, x: int, none: R): R {
    if x in rows then rows[x] else none
  }

  // A kind of row: the empty one, what a stretch of downtime does to one, and its seconds.
  datatype Kind<!R> = Kind(none: R, add: (R, nat) -> R, seconds: R -> int)

  ghost predicate Adds<R(!new)>(k: Kind<R>) {
    k.seconds(k.none) == 0 && forall r, n :: k.seconds(k.add(r, n)) == k.seconds(r) + n
  }

  predicate Touches(g: Grain, s: int, e: int, x: int, upTo: int) {
    g.Starts(x) && x < upTo && Overlap(s, e, x, x + g.Size()) > 0
  }

  /** `b` is `a` with the stretch `[s, e)` taken in, in the buckets before `upTo`. */
  ghost predicate Spread<R>(g: Grain, k: Kind<R>, a: Rows<R>, b: Rows<R>, s: int, e: int, upTo: int) {
    && (forall x :: RowAt(b, x, k.none)
                    == (if Touches(g, s, e, x, upTo) then k.add(RowAt(a, x, k.none), Overlap(s, e, x, x + g.Size())) else RowAt(a, x, k.none)))
    && (forall x :: x in b <==> x in a || Touches(g, s, e, x, upTo))
  }

  lemma SpreadOne<R>(g: Grain, k: Kind<R>, a: Rows<R>, b: Rows<R>, s: int, e: int, d: int)
    requires g.Starts(d) && Spread(g, k, a, b, s, e, d)
    ensures
      var n := Overlap(s, e, d, d + g.Size());
      Spread(g, k, a, if n > 0 then b[d := k.add(RowAt(b, d, k.none), n)] else b, s, e, d + g.Size())
  {
    hide Overlap, Grain.Size, Grain.Starts, Touches, RowAt;
    var n := Overlap(s, e, d, d + g.Size());
    TouchesNext(g, s, e, d);
    RowPut(k, b, d, k.add(RowAt(b, d, k.none), n));
  }

  lemma TouchesNext(g: Grain, s: int, e: int, d: int)
    requires g.Starts(d)
    ensures forall x :: Touches(g, s, e, x, d + g.Size()) <==> Touches(g, s, e, x, d) || (x == d && Overlap(s, e, d, d + g.Size()) > 0)
    ensures !Touches(g, s, e, d, d)
  {
    hide Overlap;
    NextBucket(g, d);
    forall x ensures Touches(g, s, e, x, d + g.Size()) <==> Touches(g, s, e, x, d) || (x == d && Overlap(s, e, d, d + g.Size()) > 0) {
      assert g.Starts(x) && d <= x < d + g.Size() ==> x == d;
    }
  }

  lemma RowPut<R>(k: Kind<R>, rows: Rows<R>, d: int, r: R)
    ensures forall x :: RowAt(rows[d := r], x, k.none) == (if x == d then r else RowAt(rows, x, k.none))
  {
    forall x ensures RowAt(rows[d := r], x, k.none) == (if x == d then r else RowAt(rows, x, k.none)) {
      assert x in rows[d := r] <==> x == d || x in rows;
    }
  }

  lemma SpreadNone<R>(g: Grain, k: Kind<R>, a: Rows<R>, s: int, e: int)
    ensures Spread(g, k, a, a, s, e, g.Of(s))
  {
    forall x ensures !Touches(g, s, e, x, g.Of(s)) {
      if g.Starts(x) && x < g.Of(s) { EarlierBucket(g, x, g.Of(s)); }
    }
  }

  method SpreadStep<R(!new)>(g: Grain, k: Kind<R>, ghost rows0: Rows<R>, rows1: Rows<R>, s: int, e: int, d: int)
    returns (rows: Rows<R>)
    requires Adds(k) && g.Starts(d) && Spread(g, k, rows0, rows1, s, e, d)
    ensures Spread(g, k, rows0, rows, s, e, d + g.Size())
    ensures MapSums.Total(rows, k.seconds) == MapSums.Total(rows1, k.seconds) + Overlap(s, e, d, d + g.Size())
  {
    hide Spread, Grain.Starts, Grain.Size, MapSums.Total, RowAt;
    rows := rows1;
    var lo, hi := Max(s, d), Min(e, d + g.Size());
    SpreadOne(g, k, rows0, rows, s, e, d);
    if hi > lo {
      MapSums.TotalPut(rows, k.seconds, d, k.add(RowAt(rows, d, k.none), hi - lo));
      RowSeconds(k, rows, d);
      rows := rows[d := k.add(RowAt(rows, d, k.none), hi - lo)];
    }
  }

  /** Both overlap loops: one stretch of downtime, added to every bucket it reaches. */
  method SpreadOver<R(!new)>(g: Grain, k: Kind<R>, rows0: Rows<R>, s: int, e: int) returns (rows: Rows<R>)
    requires s < e && Adds(k)
    ensures Spread(g, k, rows0, rows, s, e, e)
    ensures MapSums.Total(rows, k.seconds) == MapSums.Total(rows0, k.seconds) + (e - s)
  {
    rows := rows0;
    var d := g.Of(s);
    SpreadNone(g, k, rows0, s, e);
    while d < e
      invariant g.Starts(d)
      invariant Spread(g, k, rows0, rows, s, e, d)
      invariant MapSums.Total(rows, k.seconds) == MapSums.Total(rows0, k.seconds) + Min(Max(d, s), e) - s
      decreases e - d
    {
      hide Spread, Grain.Starts, MapSums.Total, Adds;
      NextBucket(g, d);
      rows := SpreadStep(g, k, rows0, rows, s, e, d);
      d := d + g.Size();
    }
    SpreadRest(g, k, rows0, rows, s, e, d);
  }

  lemma RowSeconds<R(!new)>(k: Kind<R>, rows: Rows<R>, d: int)
    requires Adds(k)
    ensures k.seconds(RowAt(rows, d, k.none)) == (if d in rows then k.seconds(rows[d]) else 0)
  {}

  /** Buckets from the end on take nothing in. */
  lemma SpreadRest<R>(g: Grain, k: Kind<R>, a: Rows<R>, b: Rows<R>, s: int, e: int, d: int)
    requires Spread(g, k, a, b, s, e, d) && e <= d
    ensures Spread(g, k, a, b, s, e, e)
  {
    hide Grain.Starts, Grain.Size;
    forall x ensures Touches(g, s, e, x, d) <==> Touches(g, s, e, x, e) {}
  }

  // ---------------------------------------------------- one device, by day

  datatype DayRow = DayRow(down: nat, outages: nat)

  datatype DayReport = DayReport(day: int, down: nat, outages: nat)

  datatype Span = Span(started: int, resolved: Option<int>, down: bool, duration: int)

  function DayKind(): Kind<DayRow> {
    Kind(DayRow(0, 0), (r: DayRow, n: nat) => DayRow(r.down + n, r.outages + 1), (r: DayRow) => r.down)
  }

  predicate Counts(o: Outage, device: int) {
    o.device == device && o.down
  }

  /** How much of one bucket an outage covers, inside the window. */
  function Covers(g: Grain, o: Outage, w: Window, x: int): nat {
    Overlap(From(o, w), Until(o, w), x, x + g.Size())
  }

  /** The seconds of a day the device was down, and by how many outages. */
  function DaySeconds(outages: seq<Outage>, device: int, w: Window, d: int): nat {
    if outages == [] then 0
    else
      var o := outages[|outages|-1];
      DaySeconds(outages[..|outages|-1], device, w, d) + (if Counts(o, device) then Covers(Daily, o, w, d) else 0)
  }

  function DayOutages(outages: seq<Outage>, device: int, w: Window, d: int): nat {
    if outages == [] then 0
    else
      var o := outages[|outages|-1];
      DayOutages(outages[..|outages|-1], device, w, d) + (if Counts(o, device) && Covers(Daily, o, w, d) > 0 then 1 else 0)
  }

  /** All the device's downtime inside the window. */
  function DownTotal(outages: seq<Outage>, device: int, w: Window): nat {
    if outages == [] then 0
    else
      var o := outages[|outages|-1];
      DownTotal(outages[..|outages|-1], device, w) + (if Counts(o, device) then Clamped(o, w) else 0)
  }

  function SpansOf(outages: seq<Outage>, device: int, w: Window): seq<Span> {
    if outages == [] then []
    else
      var o := outages[|outages|-1];
      SpansOf(outages[..|outages|-1], device, w)
      + (if o.device == device && Clamped(o, w) > 0 then [Span(o.started, o.resolved, o.down, EndOf(o, w) - o.started)] else [])
  }

  /** The dictionary of days says what the outages so far amount to, day by day and in all. */
  ghost predicate DaysTell(outages: seq<Outage>, device: int, w: Window, days: Rows<DayRow>) {
    && (forall d :: d in days ==> (Daily.Starts(d) && days[d].outages > 0))
    && (forall d :: Daily.Starts(d) ==> RowAt(days, d, DayRow(0, 0)) == DayRow(DaySeconds(outages, device, w, d), DayOutages(outages, device, w, d)))
    && MapSums.Total(days, DayKind().seconds) == DownTotal(outages, device, w)
  }

  lemma DaysSkip(outages: seq<Outage>, o: Outage, device: int, w: Window, days: Rows<DayRow>)
    requires DaysTell(outages, device, w, days) && (!Counts(o, device) || Clamped(o, w) == 0)
    ensures DaysTell(outages + [o], device, w, days)
  {
    var all := outages + [o];
    assert all[..|outages|] == outages;
    forall d ensures Counts(o, device) ==> Covers(Daily, o, w, d) == 0 {}
  }

  lemma {:induction false} DaysTake(outages: seq<Outage>, o: Outage, device: int, w: Window, days: Rows<DayRow>, after: Rows<DayRow>)
    requires DaysTell(outages, device, w, days) && Counts(o, device) && Clamped(o, w) > 0
    requires Spread(Daily, DayKind(), days, after, From(o, w), Until(o, w), Until(o, w))
    requires MapSums.Total(after, DayKind().seconds) == MapSums.Total(days, DayKind().seconds) + (Until(o, w) - From(o, w))
    ensures DaysTell(outages + [o], device, w, after)
  {
    hide MapSums.Total;
    var all := outages + [o];
    assert all[..|outages|] == outages;
    var s, e := From(o, w), Until(o, w);
    forall d ensures Touches(Daily, s, e, d, e) <==> Daily.Starts(d) && Covers(Daily, o, w, d) > 0 {}
    forall d | Daily.Starts(d)
      ensures RowAt(after, d, DayRow(0, 0)) == DayRow(DaySeconds(all, device, w, d), DayOutages(all, device, w, d))
    {
      assert RowAt(days, d, DayRow(0, 0)) == DayRow(DaySeconds(outages, device, w, d), DayOutages(outages, device, w, d));
    }
    forall d | d in after ensures Daily.Starts(d) && after[d].outages > 0 {
      assert RowAt(after, d, DayKind().none) == after[d];
    }
  }

  lemma DayAdds()
    ensures Adds(DayKind())
  {}

  method FoldDays(outages: seq<Outage>, device: int, w: Window) returns (days: Rows<DayRow>, spans: seq<Span>)
    ensures DaysTell(outages, device, w, days) && spans == SpansOf(outages, device, w)
  {
    days, spans := map[], [];
    DayAdds();
    assert DaysTell([], device, w, days);
    hide DaysTell, Adds, Spread, MapSums.Total, DayKind;
    for i := 0 to |outages|
      invariant DaysTell(outages[..i], device, w, days) && spans == SpansOf(outages[..i], device, w)
    {
      var o := outages[i];
      assert outages[..i+1] == outages[..i] + [o] && outages[..i+1][..i] == outages[..i];
      var s, e := From(o, w), Until(o, w);
      if o.device != device || e <= s {
        DaysSkip(outages[..i], o, device, w, days);
        continue;
      }
      spans := spans + [Span(o.started, o.resolved, o.down, EndOf(o, w) - o.started)];
      if !o.down {
        DaysSkip(outages[..i], o, device, w, days);
        continue;
      }
      var after := SpreadOver(Daily, DayKind(), days, s, e);
      DaysTake(outages[..i], o, device, w, days, after);
      days := after;
    }
    assert outages[..|outages|] == outages;
  }

  function SumDays(rows: seq<DayReport>): nat {
    if rows == [] then 0 else SumDays(rows[..|rows|-1]) + rows[|rows|-1].down
  }

  /**
   The report: a row for exactly the days the device was down in, in order, true to the second,
   and all of its downtime inside the window between them.
   */
  ghost predicate DaysReported(outages: seq<Outage>, device: int, w: Window, rows: seq<DayReport>) {
    && (forall i, k :: 0 <= i < k < |rows| ==> rows[i].day < rows[k].day)
    && (forall i :: 0 <= i < |rows| ==>
          && Daily.Starts(rows[i].day)
          && rows[i].down == DaySeconds(outages, device, w, rows[i].day)
          && rows[i].outages == DayOutages(outages, device, w, rows[i].day) > 0)
    && (forall d :: Daily.Starts(d) && DaySeconds(outages, device, w, d) > 0 ==> exists i :: 0 <= i < |rows| && rows[i].day == d)
    && SumDays(rows) == DownTotal(outages, device, w)
  }

  method DayAvailability(outages: seq<Outage>, device: int, w: Window) returns (rows: seq<DayReport>, spans: seq<Span>)
    ensures DaysReported(outages, device, w, rows) && spans == SpansOf(outages, device, w)
  {
    hide DaysTell, DaysReported, MapSums.Total, MapSums.ListTotal;
    var days;
    days, spans := FoldDays(outages, device, w);
    var order := FeedMap.SortSet(days.Keys);
    rows := [];
    for i := 0 to |order|
      invariant |rows| == i && forall k :: 0 <= k < i ==> order[k] in days && rows[k] == DayReport(order[k], days[order[k]].down, days[order[k]].outages)
    {
      assert order[i] in order;
      rows := rows + [DayReport(order[i], days[order[i]].down, days[order[i]].outages)];
    }
    DaysListed(outages, device, w, days, order, rows);
  }

  lemma DaysListed(outages: seq<Outage>, device: int, w: Window, days: Rows<DayRow>, order: seq<int>, rows: seq<DayReport>)
    requires DaysTell(outages, device, w, days)
    requires FeedMap.Strict(order) && |order| == |days| && forall d :: d in order <==> d in days
    requires |rows| == |order| && forall k :: 0 <= k < |order| ==> order[k] in days && rows[k] == DayReport(order[k], days[order[k]].down, days[order[k]].outages)
    ensures DaysReported(outages, device, w, rows)
  {
    hide DaySeconds, DayOutages, MapSums.Total;
    forall k | 0 <= k < |rows| ensures rows[k].down == DaySeconds(outages, device, w, rows[k].day)
                                       && rows[k].outages == DayOutages(outages, device, w, rows[k].day) > 0
    {
      assert RowAt(days, order[k], DayRow(0, 0)) == days[order[k]];
    }
    forall d | Daily.Starts(d) && DaySeconds(outages, device, w, d) > 0 ensures exists i :: 0 <= i < |rows| && rows[i].day == d {
      assert RowAt(days, d, DayRow(0, 0)).down > 0;
      assert d in order;
      var i :| 0 <= i < |order| && order[i] == d;
      assert rows[i].day == d;
    }
    MapSums.ListIsTotal(days, order, DayKind().seconds);
    SumListed(days, order, rows);
  }

  lemma {:induction false} SumListed(days: Rows<DayRow>, order: seq<int>, rows: seq<DayReport>)
    requires (forall i :: 0 <= i < |order| ==> order[i] in days) && |rows| == |order|
    requires forall k :: 0 <= k < |order| ==> order[k] in days && rows[k].down == days[order[k]].down
    ensures SumDays(rows) == MapSums.ListTotal(days, order, DayKind().seconds)
  {
    if order != [] {
      var n := |order| - 1;
      SumListed(days, order[..n], rows[..n]);
    }
  }
}
