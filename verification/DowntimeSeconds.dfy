/**
 What the day strip and the weekly report say, told second by second and outage by outage:
 every second of every outage is counted once, where it falls.
 */
module DowntimeSeconds {
  import opened Options
  import opened Downtime
  import opened DowntimeWeeks

  /** The outage is running at second `x` of the window. */
  predicate At(o: Outage, w: Window, x: int) {
    o.started <= x && w.start <= x < w.end && (o.resolved.Some? ==> x < o.resolved.value)
  }

  // Whose seconds are counted: a device's, or those of all long or all other outages.
  datatype Share = OfDevice(device: int) | OfBand(long: bool)

  predicate Takes(share: Share, o: Outage, w: Window) {
    o.down
    && match share
       case OfDevice(device) => o.device == device
       case OfBand(long) => long == (Length(o, w) >= 30 * 60)
  }

  /** How long the outage lasted, up to the end of the window if it is not over. */
  function Length(o: Outage, w: Window): int {
    (if o.resolved.Some? then o.resolved.value else w.end) - o.started
  }

  /** How many of the outages taken are running at second `x`. */
  function Running(outages: seq<Outage>, share: Share, w: Window, x: int): nat {
    if outages == [] then 0
    else
      var o := outages[|outages|-1];
      Running(outages[..|outages|-1], share, w, x) + (if Takes(share, o, w) && At(o, w, x) then 1 else 0)
  }

  /** The same, second by second from `lo` to `hi`. */
  function RunningOver(outages: seq<Outage>, share: Share, w: Window, lo: int, hi: int): nat
    decreases hi - lo
  {
    if hi <= lo then 0 else RunningOver(outages, share, w, lo, hi - 1) + Running(outages, share, w, hi - 1)
  }

  /** Counting by outages and counting by seconds come to the same. */
  lemma {:induction false} OneMoreOver(outages: seq<Outage>, share: Share, w: Window, lo: int, hi: int)
    requires outages != []
    ensures
      var init, o := outages[..|outages|-1], outages[|outages|-1];
      RunningOver(outages, share, w, lo, hi)
      == RunningOver(init, share, w, lo, hi) + (if Takes(share, o, w) then Overlap(From(o, w), Until(o, w), lo, hi) else 0)
    decreases hi - lo
  {
    if hi > lo { OneMoreOver(outages, share, w, lo, hi - 1); }
  }

  lemma {:induction false} NoneOver(share: Share, w: Window, lo: int, hi: int)
    ensures RunningOver([], share, w, lo, hi) == 0
    decreases hi - lo
  {
    if hi > lo { NoneOver(share, w, lo, hi - 1); }
  }

  /** The seconds of a day are those the device's outages were running in, each counted for each outage. */
  lemma {:induction false} DaySecondsAre(outages: seq<Outage>, device: int, w: Window, d: int)
    ensures DaySeconds(outages, device, w, d) == RunningOver(outages, OfDevice(device), w, d, d + 24 * 60 * 60)
  {
    if outages == [] {
      NoneOver(OfDevice(device), w, d, d + DAY);
    } else {
      DaySecondsAre(outages[..|outages|-1], device, w, d);
      OneMoreOver(outages, OfDevice(device), w, d, d + DAY);
    }
  }

  /** And so are the seconds of a week, the long outages' and the others' each on their own. */
  lemma {:induction false} WeekSecondsAre(outages: seq<Outage>, w: Window, wk: int, long: bool)
    ensures WeekSeconds(outages, w, wk, long) == RunningOver(outages, OfBand(long), w, wk, wk + 7 * 24 * 60 * 60)
  {
    if outages == [] {
      NoneOver(OfBand(long), w, wk, wk + WEEK);
    } else {
      WeekSecondsAre(outages[..|outages|-1], w, wk, long);
      OneMoreOver(outages, OfBand(long), w, wk, wk + WEEK);
    }
  }

  // ------------------------------------------------------------ the other counts

  /** The device was down in the day for the outage. */
  ghost predicate DownIn(o: Outage, device: int, w: Window, d: int) {
    o.device == device && o.down && exists x :: d <= x < d + 24 * 60 * 60 && At(o, w, x)
  }

  lemma CoversIs(o: Outage, device: int, w: Window, d: int)
    ensures Counts(o, device) && Covers(Daily, o, w, d) > 0 <==> DownIn(o, device, w, d)
  {
    if Covers(Daily, o, w, d) > 0 { assert At(o, w, Max(From(o, w), d)); }
  }

  /** A day's outages are those the device was down for in it. */
  lemma {:induction false} DayOutagesAre(outages: seq<Outage>, device: int, w: Window, d: int)
    ensures DayOutages(outages, device, w, d) == |set i: nat | i < |outages| && DownIn(outages[i], device, w, d)|
  {
    hide DownIn;
    if outages != [] {
      var n := |outages| - 1;
      var whole := set i: nat | i < |outages| && DownIn(outages[i], device, w, d);
      var part := set i: nat | i < n && DownIn(outages[..n][i], device, w, d);
      DayOutagesAre(outages[..n], device, w, d);
      CoversIs(outages[n], device, w, d);
      forall i: nat ensures i in whole <==> i in part || (i == n && DownIn(outages[n], device, w, d)) {
        assert i < n ==> outages[..n][i] == outages[i];
      }
      assert whole == part + if DownIn(outages[n], device, w, d) then {n} else {};
    }
  }

  /** The week is that of the moment the outage opened, and the moment is in the window; or it is one of those. */
  predicate OpenedIn(which: Which, o: Outage, w: Window, wk: int) {
    && o.down && w.start <= o.started <= w.end && wk <= o.started < wk + 7 * 24 * 60 * 60
    && match which
       case All => true
       case Resolved => o.resolved.Some?
       case Long => Length(o, w) >= 30 * 60
  }

  /** What a week's row counts are the outages that opened in it, those resolved, and those that were long. */
  lemma {:induction false} OpenedAre(outages: seq<Outage>, w: Window, wk: int, which: Which)
    requires Weekly.Starts(wk)
    ensures Opened(outages, w, wk, which) == |set i: nat | i < |outages| && OpenedIn(which, outages[i], w, wk)|
  {
    if outages != [] {
      var n := |outages| - 1;
      var whole := set i: nat | i < |outages| && OpenedIn(which, outages[i], w, wk);
      var part := set i: nat | i < n && OpenedIn(which, outages[..n][i], w, wk);
      OpenedAre(outages[..n], w, wk, which);
      OpensIs(outages[n], w, wk, which);
      hide OpenedIn, OpensIn, Picks, Grain.Starts;
      forall i: nat ensures i in whole <==> i in part || (i == n && OpenedIn(which, outages[n], w, wk)) {
        assert i < n ==> outages[..n][i] == outages[i];
      }
      assert whole == part + if OpenedIn(which, outages[n], w, wk) then {n} else {};
    }
  }

  lemma OpensIs(o: Outage, w: Window, wk: int, which: Which)
    requires Weekly.Starts(wk)
    ensures OpensIn(o, w, wk) && Picks(which, o, w) <==> OpenedIn(which, o, w, wk)
  {
    if wk <= o.started < wk + WEEK { NextBucket(Weekly, wk); }
  }

  /** Weeks begin on a Monday at midnight: day 719163 of the calendar is the first of the epoch. */
  lemma WeeksBeginOnMonday(b: int)
    ensures Weekly.Starts(b) <==> b % (24 * 60 * 60) == 0 && (b / (24 * 60 * 60) + 719163) % 7 == 1
    ensures Daily.Starts(b) <==> b % (24 * 60 * 60) == 0
  {
    var day := 24 * 60 * 60;
    assert b == b / day * day + b % day;
    assert (b - MONDAY) == (b / day - 4) * day + b % day;
    if (b - MONDAY) % WEEK == 0 {
      var k := (b - MONDAY) / WEEK;
      assert b == (7 * k + 4) * day;
    }
    if b % day == 0 && (b / day + 719163) % 7 == 1 {
      var k := (b / day - 4) / 7;
      assert b / day - 4 == 7 * k;
      assert b - MONDAY == k * WEEK;
    }
  }

  /** The spans list each of the device's outages that lies in the window for a while, down or not, with its whole length. */
  lemma {:induction false} SpansAre(outages: seq<Outage>, device: int, w: Window) returns (at: seq<nat>)
    ensures |at| == |SpansOf(outages, device, w)| && (forall i, k :: 0 <= i < k < |at| ==> at[i] < at[k])
    ensures forall i :: 0 <= i < |at| ==>
              at[i] < |outages| && var o := outages[at[i]];
              SpansOf(outages, device, w)[i] == Span(o.started, o.resolved, o.down, Length(o, w))
    ensures forall k: nat :: k in at <==> k < |outages| && InWindow(outages[k], device, w)
  {
    at := [];
    if outages != [] {
      var n := |outages| - 1;
      var init := SpansAre(outages[..n], device, w);
      SpansLast(outages, device, w);
      hide InWindow, Length, SpansOf;
      at := if InWindow(outages[n], device, w) then init + [n] else init;
      forall k: nat ensures k in at <==> k < |outages| && InWindow(outages[k], device, w) {
        assert k in at <==> k in init || (k == n && InWindow(outages[n], device, w));
        assert k < n ==> outages[..n][k] == outages[k];
      }
      forall i | 0 <= i < |init| ensures init[i] < n && outages[..n][init[i]] == outages[init[i]] { assert init[i] in init; }
    }
  }

  lemma {:induction false} SpansLast(outages: seq<Outage>, device: int, w: Window)
    requires outages != []
    ensures
      var n := |outages| - 1;
      var o := outages[n];
      SpansOf(outages, device, w)
      == SpansOf(outages[..n], device, w)
         + (if InWindow(o, device, w) then [Span(o.started, o.resolved, o.down, Length(o, w))] else [])
  {
    ClampedIs(outages[|outages|-1], device, w);
    hide InWindow, Length;
  }

  ghost predicate InWindow(o: Outage, device: int, w: Window) {
    o.device == device && exists x :: At(o, w, x)
  }

  lemma ClampedIs(o: Outage, device: int, w: Window)
    ensures o.device == device && Clamped(o, w) > 0 <==> InWindow(o, device, w)
    ensures Length(o, w) == EndOf(o, w) - o.started
  {
    if Clamped(o, w) > 0 { assert At(o, w, From(o, w)); }
  }

  // ------------------------------------------------------- a day is a day long

  /** No two of the device's outages run at once. */
  ghost predicate OneAtATime(outages: seq<Outage>, device: int) {
    forall i, k, x :: 0 <= i < k < |outages| && Lasts(outages[i], device, x) ==> !Lasts(outages[k], device, x)
  }

  predicate Lasts(o: Outage, device: int, x: int) {
    o.device == device && o.down && o.started <= x && (o.resolved.Some? ==> x < o.resolved.value)
  }

  lemma {:induction false} RunningIs(outages: seq<Outage>, device: int, w: Window, x: int) returns (i: nat)
    requires Running(outages, OfDevice(device), w, x) > 0
    ensures i < |outages| && Lasts(outages[i], device, x)
  {
    var n := |outages| - 1;
    if Takes(OfDevice(device), outages[n], w) && At(outages[n], w, x) { i := n; }
    else { i := RunningIs(outages[..n], device, w, x); }
  }

  lemma {:induction false} RunningOnce(outages: seq<Outage>, device: int, w: Window, x: int)
    requires OneAtATime(outages, device)
    ensures Running(outages, OfDevice(device), w, x) <= 1
  {
    if outages != [] {
      var n := |outages| - 1;
      RunningOnce(outages[..n], device, w, x);
      if Running(outages[..n], OfDevice(device), w, x) > 0 {
        var i := RunningIs(outages[..n], device, w, x);
        assert Lasts(outages[i], device, x);
      }
    }
  }

  lemma {:induction false} RunningBound(outages: seq<Outage>, device: int, w: Window, lo: int, hi: int)
    requires OneAtATime(outages, device)
    ensures RunningOver(outages, OfDevice(device), w, lo, hi) <= if hi > lo then hi - lo else 0
    decreases hi - lo
  {
    hide OneAtATime, Running;
    if hi > lo {
      RunningBound(outages, device, w, lo, hi - 1);
      RunningOnce(outages, device, w, hi - 1);
    }
  }

  /** When a device's outages do not overlap, no day is down for longer than a day. */
  lemma {:induction false} DayIsADayLong(outages: seq<Outage>, device: int, w: Window, d: int)
    requires OneAtATime(outages, device)
    ensures DaySeconds(outages, device, w, d) <= DAY
  {
    DaySecondsAre(outages, device, w, d);
    RunningBound(outages, device, w, d, d + DAY);
  }
}
