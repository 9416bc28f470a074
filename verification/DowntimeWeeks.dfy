/**
 `weekly_outage_stats` of analytics.py, and what it and the day strip have in common: the
 same seconds of downtime, counted once each.
 */
module DowntimeWeeks {
  import opened Options
  import opened Downtime
  import FeedMap
  import MapSums

  datatype WeekRow = WeekRow(outages: nat, resolved: nat, longOutages: nat, short: nat, long: nat)

  const EMPTY := WeekRow(0, 0, 0, 0, 0)

  /** The band is that of the whole outage, however little of it is in the window. */
  predicate IsLong(o: Outage, w: Window) {
    EndOf(o, w) - o.started >= LONG_OUTAGE
  }

  function Banded(r: WeekRow, long: bool, n: nat): WeekRow {
    WeekRow(r.outages, r.resolved, r.longOutages, if long then r.short else r.short + n, if long then r.long + n else r.long)
  }

  function Seconds(r: WeekRow): int {
    r.short + r.long
  }

  function Measure(): WeekRow -> int {
    (r: WeekRow) => r.short + r.long
  }

  function ShortKind(): Kind<WeekRow> {
    Kind(EMPTY, (r: WeekRow, n: nat) => WeekRow(r.outages, r.resolved, r.longOutages, r.short + n, r.long), Measure())
  }

  function LongKind(): Kind<WeekRow> {
    Kind(EMPTY, (r: WeekRow, n: nat) => WeekRow(r.outages, r.resolved, r.longOutages, r.short, r.long + n), Measure())
  }

  function BandKind(long: bool): Kind<WeekRow> {
    if long then LongKind() else ShortKind()
  }

  predicate OpensIn(o: Outage, w: Window, wk: int) {
    o.down && w.start <= o.started <= w.end && Weekly.Of(o.started) == wk
  }

  /** A week's row with one outage that opened in it. */
  function WithOpened(r: WeekRow, o: Outage, w: Window): WeekRow {
    r.(outages := r.outages + 1, longOutages := r.longOutages + (if IsLong(o, w) then 1 else 0),
       resolved := r.resolved + (if o.resolved.Some? then 1 else 0))
  }

  // What is counted of the outages that opened in a week.
  datatype Which = All | Resolved | Long

  predicate Picks(which: Which, o: Outage, w: Window) {
    match which
    case All => true
    case Resolved => o.resolved.Some?
    case Long => IsLong(o, w)
  }

  function Opened(outages: seq<Outage>, w: Window, wk: int, which: Which): nat {
    if outages == [] then 0
    else
      var o := outages[|outages|-1];
      Opened(outages[..|outages|-1], w, wk, which) + (if OpensIn(o, w, wk) && Picks(which, o, w) then 1 else 0)
  }

  /** The downtime of one band in a week. */
  function WeekSeconds(outages: seq<Outage>, w: Window, wk: int, long: bool): nat {
    if outages == [] then 0
    else
      var o := outages[|outages|-1];
      WeekSeconds(outages[..|outages|-1], w, wk, long) + (if o.down && IsLong(o, w) == long then Covers(Weekly, o, w, wk) else 0)
  }

  /** All downtime inside the window. */
  function AllDown(outages: seq<Outage>, w: Window): nat {
    if outages == [] then 0
    else AllDown(outages[..|outages|-1], w) + (if outages[|outages|-1].down then Clamped(outages[|outages|-1], w) else 0)
  }

  /** What a week's row should say. */
  function Said(outages: seq<Outage>, w: Window, wk: int): WeekRow {
    WeekRow(Opened(outages, w, wk, All), Opened(outages, w, wk, Resolved), Opened(outages, w, wk, Long),
            WeekSeconds(outages, w, wk, false), WeekSeconds(outages, w, wk, true))
  }

  ghost predicate WeeksTell(outages: seq<Outage>, w: Window, weeks: Rows<WeekRow>) {
    && (forall x :: x in weeks ==> Weekly.Starts(x) && (weeks[x].outages > 0 || Seconds(weeks[x]) > 0))
    && (forall x :: Weekly.Starts(x) ==> RowAt(weeks, x, EMPTY) == Said(outages, w, x))
    && MapSums.Total(weeks, Measure()) == AllDown(outages, w)
  }

  /** One more outage, taken into what a week should say. */
  function SaidMore(r: WeekRow, o: Outage, w: Window, wk: int): WeekRow {
    var counted := if OpensIn(o, w, wk) then WithOpened(r, o, w) else r;
    if o.down then Banded(counted, IsLong(o, w), Covers(Weekly, o, w, wk)) else counted
  }

  lemma SaidSnoc(outages: seq<Outage>, o: Outage, w: Window, wk: int)
    ensures Said(outages + [o], w, wk) == SaidMore(Said(outages, w, wk), o, w, wk)
  {
    assert (outages + [o])[..|outages|] == outages;
  }

  lemma {:induction false} AllDownSnoc(outages: seq<Outage>, o: Outage, w: Window)
    ensures AllDown(outages + [o], w) == AllDown(outages, w) + (if o.down then Clamped(o, w) else 0)
  {
    assert (outages + [o])[..|outages|] == outages;
  }

  /** `after` is `before` with the opening counted, and no downtime yet. */
  ghost predicate OpenedIn(o: Outage, w: Window, before: Rows<WeekRow>, after: Rows<WeekRow>) {
    && (forall x :: RowAt(after, x, EMPTY) == (if OpensIn(o, w, x) then WithOpened(RowAt(before, x, EMPTY), o, w) else RowAt(before, x, EMPTY)))
    && (forall x :: x in after <==> x in before || OpensIn(o, w, x))
    && MapSums.Total(after, Measure()) == MapSums.Total(before, Measure())
  }

  method Open(weeks0: Rows<WeekRow>, o: Outage, w: Window) returns (weeks: Rows<WeekRow>)
    requires o.down
    ensures OpenedIn(o, w, weeks0, weeks)
  {
    hide MapSums.Total, IsLong, Grain.Of;
    weeks := weeks0;
    if w.start <= o.started <= w.end {
      var wk := Weekly.Of(o.started);
      var row := WithOpened(RowAt(weeks, wk, EMPTY), o, w);
      MapSums.TotalPut(weeks, Measure(), wk, row);
      weeks := weeks[wk := row];
    }
  }

  lemma ShortAdds()
    ensures Adds(ShortKind())
  {}

  lemma LongAdds()
    ensures Adds(LongKind())
  {}

  lemma BandAdds(long: bool)
    ensures Adds(BandKind(long)) && BandKind(long).seconds == Measure()
  {
    hide Adds;
    ShortAdds();
    LongAdds();
  }

  lemma NotDown(outages: seq<Outage>, o: Outage, w: Window, weeks: Rows<WeekRow>)
    requires WeeksTell(outages, w, weeks) && !o.down
    ensures WeeksTell(outages + [o], w, weeks)
  {
    hide Said, MapSums.Total, AllDown;
    AllDownSnoc(outages, o, w);
    forall x ensures Said(outages + [o], w, x) == Said(outages, w, x) { SaidSnoc(outages, o, w, x); }
  }

  /** Whatever the two steps leave of each week is what it should say. */
  lemma {:induction false} TellMore(outages: seq<Outage>, o: Outage, w: Window, weeks: Rows<WeekRow>, after: Rows<WeekRow>)
    requires WeeksTell(outages, w, weeks) && o.down
    requires forall x :: Weekly.Starts(x) ==> RowAt(after, x, EMPTY) == SaidMore(RowAt(weeks, x, EMPTY), o, w, x)
    requires forall x :: x in after ==> x in weeks || (Weekly.Starts(x) && (OpensIn(o, w, x) || Covers(Weekly, o, w, x) > 0))
    requires MapSums.Total(after, Measure()) == MapSums.Total(weeks, Measure()) + Clamped(o, w)
    ensures WeeksTell(outages + [o], w, after)
  {
    hide Said, MapSums.Total, AllDown, OpensIn, Covers, Grain.Starts, Clamped, IsLong;
    AllDownSnoc(outages, o, w);
    forall x | Weekly.Starts(x) ensures RowAt(after, x, EMPTY) == Said(outages + [o], w, x) {
      assert RowAt(weeks, x, EMPTY) == Said(outages, w, x);
      SaidSnoc(outages, o, w, x);
    }
    forall x | x in after ensures Weekly.Starts(x) && (after[x].outages > 0 || Seconds(after[x]) > 0) {
      assert x in weeks ==> Weekly.Starts(x) && (weeks[x].outages > 0 || Seconds(weeks[x]) > 0);
      assert RowAt(after, x, EMPTY) == after[x];
      assert x in weeks ==> RowAt(weeks, x, EMPTY) == weeks[x];
    }
  }

  lemma OpensStarts(o: Outage, w: Window, x: int)
    ensures OpensIn(o, w, x) ==> Weekly.Starts(x)
  {}

  lemma OpenedOnly(outages: seq<Outage>, o: Outage, w: Window, weeks: Rows<WeekRow>, after: Rows<WeekRow>)
    requires WeeksTell(outages, w, weeks) && o.down && OpenedIn(o, w, weeks, after) && Until(o, w) <= From(o, w)
    ensures WeeksTell(outages + [o], w, after)
  {
    hide Said, MapSums.Total, WeeksTell, OpensIn, Grain.Starts, IsLong;
    forall x ensures Covers(Weekly, o, w, x) == 0 {}
    forall x ensures OpensIn(o, w, x) ==> Weekly.Starts(x) { OpensStarts(o, w, x); }
    TellMore(outages, o, w, weeks, after);
  }

  lemma {:induction false} OpenedAndSpread(outages: seq<Outage>, o: Outage, w: Window, weeks: Rows<WeekRow>, mid: Rows<WeekRow>, after: Rows<WeekRow>)
    requires WeeksTell(outages, w, weeks) && o.down && OpenedIn(o, w, weeks, mid) && From(o, w) < Until(o, w)
    requires Spread(Weekly, BandKind(IsLong(o, w)), mid, after, From(o, w), Until(o, w), Until(o, w))
    requires MapSums.Total(after, Measure()) == MapSums.Total(mid, Measure()) + (Until(o, w) - From(o, w))
    ensures WeeksTell(outages + [o], w, after)
  {
    hide Said, MapSums.Total, WeeksTell, OpensIn, Grain.Starts, IsLong, RowAt, Overlap, From, Until;
    var s, e := From(o, w), Until(o, w);
    forall x ensures Touches(Weekly, s, e, x, e) <==> Weekly.Starts(x) && Covers(Weekly, o, w, x) > 0 { TouchesCovers(o, w, x); }
    forall x ensures OpensIn(o, w, x) ==> Weekly.Starts(x) { OpensStarts(o, w, x); }
    forall x | Weekly.Starts(x) ensures RowAt(after, x, EMPTY) == SaidMore(RowAt(weeks, x, EMPTY), o, w, x) {}
    TellMore(outages, o, w, weeks, after);
  }

  lemma TouchesCovers(o: Outage, w: Window, x: int)
    ensures Touches(Weekly, From(o, w), Until(o, w), x, Until(o, w)) <==> Weekly.Starts(x) && Covers(Weekly, o, w, x) > 0
  {}

  /** One outage of the loop. */
  method TakeOutage(ghost outages: seq<Outage>, o: Outage, w: Window, weeks0: Rows<WeekRow>) returns (weeks: Rows<WeekRow>)
    requires WeeksTell(outages, w, weeks0)
    ensures WeeksTell(outages + [o], w, weeks)
  {
    hide *;
    if !o.down {
      NotDown(outages, o, w, weeks0);
      return weeks0;
    }
    var opened_ := Open(weeks0, o, w);
    var s, e := From(o, w), Until(o, w);
    if e <= s {
      OpenedOnly(outages, o, w, weeks0, opened_);
      return opened_;
    }
    BandAdds(IsLong(o, w));
    weeks := SpreadOver(Weekly, BandKind(IsLong(o, w)), opened_, s, e);
    OpenedAndSpread(outages, o, w, weeks0, opened_, weeks);
  }

  datatype WeekReport = WeekReport(week: int, row: WeekRow)

  function SumWeeks(rows: seq<WeekReport>): int {
    if rows == [] then 0 else SumWeeks(rows[..|rows|-1]) + rows[|rows|-1].row.short + rows[|rows|-1].row.long
  }

  /**
   The report: every week an outage opened in or ran through, in order, true to the second,
   and all downtime inside the window between them.
   */
  ghost predicate WeeksReported(outages: seq<Outage>, w: Window, rows: seq<WeekReport>) {
    && (forall i, k :: 0 <= i < k < |rows| ==> rows[i].week < rows[k].week)
    && (forall i :: 0 <= i < |rows| ==> Weekly.Starts(rows[i].week) && rows[i].row == Said(outages, w, rows[i].week) != EMPTY)
    && (forall x :: Weekly.Starts(x) && Said(outages, w, x) != EMPTY ==> exists i :: 0 <= i < |rows| && rows[i].week == x)
    && SumWeeks(rows) == AllDown(outages, w)
  }

  method WeeklyOutageStats(outages: seq<Outage>, w: Window) returns (rows: seq<WeekReport>)
    ensures WeeksReported(outages, w, rows)
  {
    var weeks: Rows<WeekRow> := map[];
    assert WeeksTell([], w, weeks);
    hide *;
    for i := 0 to |outages|
      invariant WeeksTell(outages[..i], w, weeks)
    {
      assert outages[..i+1] == outages[..i] + [outages[i]];
      weeks := TakeOutage(outages[..i], outages[i], w, weeks);
    }
    assert outages[..|outages|] == outages;
    var order := FeedMap.SortSet(weeks.Keys);
    rows := [];
    for i := 0 to |order|
      invariant |rows| == i && forall k :: 0 <= k < i ==> order[k] in weeks && rows[k] == WeekReport(order[k], weeks[order[k]])
    {
      assert order[i] in order;
      rows := rows + [WeekReport(order[i], weeks[order[i]])];
    }
    WeeksListed(outages, w, weeks, order, rows);
  }

  lemma WeeksListed(outages: seq<Outage>, w: Window, weeks: Rows<WeekRow>, order: seq<int>, rows: seq<WeekReport>)
    requires WeeksTell(outages, w, weeks)
    requires FeedMap.Strict(order) && |order| == |weeks| && forall d :: d in order <==> d in weeks
    requires |rows| == |order| && forall k :: 0 <= k < |order| ==> order[k] in weeks && rows[k] == WeekReport(order[k], weeks[order[k]])
    ensures WeeksReported(outages, w, rows)
  {
    hide Said, MapSums.Total, Grain.Starts;
    forall k | 0 <= k < |rows| ensures Weekly.Starts(rows[k].week) && rows[k].row == Said(outages, w, rows[k].week) != EMPTY {
      assert RowAt(weeks, order[k], EMPTY) == weeks[order[k]];
    }
    forall x | Weekly.Starts(x) && Said(outages, w, x) != EMPTY ensures exists i :: 0 <= i < |rows| && rows[i].week == x {
      assert RowAt(weeks, x, EMPTY) != EMPTY;
      assert x in order;
      var i :| 0 <= i < |order| && order[i] == x;
      assert rows[i].week == x;
    }
    MapSums.ListIsTotal(weeks, order, Measure());
    SumListed(weeks, order, rows);
  }

  lemma {:induction false} SumListed(weeks: Rows<WeekRow>, order: seq<int>, rows: seq<WeekReport>)
    requires (forall i :: 0 <= i < |order| ==> order[i] in weeks) && |rows| == |order|
    requires forall k :: 0 <= k < |order| ==> order[k] in weeks && rows[k].row == weeks[order[k]]
    ensures SumWeeks(rows) == MapSums.ListTotal(weeks, order, Measure())
  {
    if order != [] {
      var n := |order| - 1;
      SumListed(weeks, order[..n], rows[..n]);
    }
  }

  // ------------------------------------------------------------ conservation

  function DownOver(outages: seq<Outage>, devices: seq<int>, w: Window): nat {
    if devices == [] then 0
    else DownOver(outages, devices[..|devices|-1], w) + DownTotal(outages, devices[|devices|-1], w)
  }

  lemma {:induction false} DownOverSnoc(outages: seq<Outage>, o: Outage, devices: seq<int>, w: Window)
    requires forall i, k :: 0 <= i < k < |devices| ==> devices[i] != devices[k]
    ensures DownOver(outages + [o], devices, w)
            == DownOver(outages, devices, w) + (if o.down && o.device in devices then Clamped(o, w) else 0)
  {
    assert (outages + [o])[..|outages|] == outages;
    if devices != [] {
      var n := |devices| - 1;
      DownOverSnoc(outages, o, devices[..n], w);
      assert devices == devices[..n] + [devices[n]];
      assert DownTotal(outages + [o], devices[n], w)
             == DownTotal(outages, devices[n], w) + (if Counts(o, devices[n]) then Clamped(o, w) else 0);
    }
  }

  lemma {:induction false} DownOverNone(devices: seq<int>, w: Window)
    ensures DownOver([], devices, w) == 0
  {
    if devices != [] { DownOverNone(devices[..|devices|-1], w); }
  }

  lemma {:induction false} DownOverAll(outages: seq<Outage>, devices: seq<int>, w: Window)
    requires forall i, k :: 0 <= i < k < |devices| ==> devices[i] != devices[k]
    requires forall i :: 0 <= i < |outages| && outages[i].down ==> outages[i].device in devices
    ensures DownOver(outages, devices, w) == AllDown(outages, w)
  {
    if outages == [] {
      DownOverNone(devices, w);
    } else {
      var n := |outages| - 1;
      DownOverAll(outages[..n], devices, w);
      DownOverSnoc(outages[..n], outages[n], devices, w);
      assert outages == outages[..n] + [outages[n]];
    }
  }

  /** The downtime that the strips of several devices show between them. */
  function SumStrips(strips: seq<seq<DayReport>>): nat {
    if strips == [] then 0 else SumStrips(strips[..|strips|-1]) + SumDays(strips[|strips|-1])
  }

  lemma {:induction false} StripsTotal(outages: seq<Outage>, devices: seq<int>, w: Window, strips: seq<seq<DayReport>>)
    requires |strips| == |devices| && forall i :: 0 <= i < |devices| ==> DaysReported(outages, devices[i], w, strips[i])
    ensures SumStrips(strips) == DownOver(outages, devices, w)
  {
    if devices != [] {
      var n := |devices| - 1;
      StripsTotal(outages, devices[..n], w, strips[..n]);
      assert DaysReported(outages, devices[n], w, strips[n]);
    }
  }

  /**
   Downtime is conserved: the seconds on the day strips of all devices with outages are the
   seconds of the weekly report, and both are all the downtime there is in the window.
   */
  lemma {:induction false} DaysAndWeeksAgree(outages: seq<Outage>, devices: seq<int>, w: Window, strips: seq<seq<DayReport>>, weeks: seq<WeekReport>)
    requires forall i, k :: 0 <= i < k < |devices| ==> devices[i] != devices[k]
    requires forall i :: 0 <= i < |outages| && outages[i].down ==> outages[i].device in devices
    requires |strips| == |devices| && forall i :: 0 <= i < |devices| ==> DaysReported(outages, devices[i], w, strips[i])
    requires WeeksReported(outages, w, weeks)
    ensures SumStrips(strips) == SumWeeks(weeks) == AllDown(outages, w)
  {
    hide AllDown, DaysReported;
    DownOverAll(outages, devices, w);
    StripsTotal(outages, devices, w, strips);
  }
}
