/**
 What a trace says on a plant the guarded edits keep well formed: it never forks, an
 unfaulted one is the whole run of distinct fibres through the core asked about, every
 fibre of that run gives the same answer, and every fibre of a ring says "loop".
 */
module TraceLaws {
  import opened Options
  import opened FibrePlant
  import opened Trace

  lemma HopSpans(pl: Plant, h: Hop)
    requires WellFormed(pl) && OnCable(pl, h)
    ensures h.from != h.to
  {
  }

  /** A chain that meets one of its own fibres again has come back to where it began. */
  lemma RevisitIsStart(pl: Plant, hs: seq<Hop>, k: nat)
    requires WellFormed(pl) && Chain(pl, hs) && Distinct(hs) && k < |hs|
    requires Next(pl, hs[|hs|-1].fibre, hs[|hs|-1].to) == {hs[k].fibre}
    ensures k == 0 && |hs| > 1 && hs[|hs|-1].to == hs[0].from
    ensures Next(pl, hs[0].fibre, hs[0].from) == {hs[|hs|-1].fibre}
  {
    hide WellFormed;
    var n := |hs| - 1;
    Matching(pl, hs[n].fibre, hs[k].fibre, hs[n].to);
    HopSpans(pl, hs[k]);
    HopSpans(pl, hs[n]);
    // Entered backwards, the fibre after hs[k] would have to be the last one.
    if k < n { assert Leads(pl, hs[k], hs[k+1]); }
    if k > 0 {
      assert Leads(pl, hs[k-1], hs[k]);
      Matching(pl, hs[k-1].fibre, hs[k].fibre, hs[k-1].to);
    }
  }

  lemma {:induction false} OpenChainDistinct(pl: Plant, hs: seq<Hop>)
    requires WellFormed(pl) && Chain(pl, hs) && Next(pl, hs[0].fibre, hs[0].from) == {}
    ensures Distinct(hs)
  {
    hide WellFormed, Next;
    var n := |hs| - 1;
    if n > 0 {
      OpenChainDistinct(pl, hs[..n]);
      assert Leads(pl, hs[n-1], hs[n]);
      forall k | 0 <= k < n ensures hs[k].fibre != hs[n].fibre {
        NoRevisit(pl, hs[..n], k, hs[n].fibre);
      }
    }
  }

  lemma NoRevisit(pl: Plant, hs: seq<Hop>, k: nat, g: Fibre)
    requires WellFormed(pl) && Chain(pl, hs) && Distinct(hs) && k < |hs|
    requires Next(pl, hs[0].fibre, hs[0].from) == {}
    requires Next(pl, hs[|hs|-1].fibre, hs[|hs|-1].to) == {g}
    ensures hs[k].fibre != g
  {
    if hs[k].fibre == g {
      RevisitIsStart(pl, hs, k);
    }
  }

  /** How a walk over a well-formed plant may end, given the fibres used before it. */
  ghost predicate StopsWell(pl: Plant, w: Walked, used: set<Fibre>) {
    && Chain(pl, w.hops) && Distinct(w.hops)
    && (forall i :: 0 < i < |w.hops| ==> w.hops[i].fibre !in used)
    && var last := w.hops[|w.hops|-1];
       match w.fault
       case None => Next(pl, last.fibre, last.to) == {}
       case Some(fault) =>
         && fault == Loop && w.at == Some(last.to)
         && exists g :: Next(pl, last.fibre, last.to) == {g} && (g in used || Crosses(w.hops[1..], g))
  }

  lemma PrependChain(pl: Plant, h: Hop, rest: seq<Hop>)
    requires Chain(pl, rest) && OnCable(pl, h) && Leads(pl, h, rest[0])
    ensures Chain(pl, [h] + rest)
  {
    var hops := [h] + rest;
    forall i | 0 < i < |hops| ensures Leads(pl, hops[i-1], hops[i]) {
      if i > 1 { assert Leads(pl, rest[i-2], rest[i-1]); }
    }
  }

  lemma PrependStopsWell(pl: Plant, h: Hop, rest: Walked, used: set<Fibre>)
    requires |rest.hops| > 0 && h.fibre in used && rest.hops[0].fibre !in used
    requires OnCable(pl, h) && StopsWell(pl, rest, used + {rest.hops[0].fibre}) && Leads(pl, h, rest.hops[0])
    ensures StopsWell(pl, rest.(hops := [h] + rest.hops), used)
  {
    hide Next;
    var hops := [h] + rest.hops;
    PrependChain(pl, h, rest.hops);
    assert hops[1..] == rest.hops && hops[|hops|-1] == rest.hops[|rest.hops|-1];
    assert forall i :: 0 < i < |hops| ==> hops[i] == rest.hops[i-1];
    if rest.fault.Some? {
      var last, n := rest.hops[|rest.hops|-1], rest.hops[0].fibre;
      var g :| Next(pl, last.fibre, last.to) == {g} && (g in used + {n} || Crosses(rest.hops[1..], g));
      if Crosses(rest.hops[1..], g) {
        var i :| 0 <= i < |rest.hops[1..]| && rest.hops[1..][i].fibre == g;
        assert rest.hops[i+1].fibre == g;
      }
      assert g == n ==> rest.hops[0].fibre == g;
    }
  }

  /** What the walk hands back, before any well-formedness of its ends is known. */
  lemma {:induction false} WalkStopsWell(pl: Plant, h: Hop, used: set<Fibre>)
    requires WellFormed(pl) && OnCable(pl, h) && h.fibre in used
    ensures StopsWell(pl, WalkFrom(pl, h, used), used)
    decreases Named(pl.joints) - used
  {
    var nxt := Next(pl, h.fibre, h.to);
    if nxt == {} {
    } else {
      var n :| n in nxt;
      Matching(pl, h.fibre, n, h.to);
      WalkStep(pl, h, used, n);
      if n in used {
        assert Chain(pl, [h]) && Distinct([h]);
      } else {
        var e := Enter(pl.cables, n, h.to);
        WalkStopsWell(pl, e, used + {n});
        PrependStopsWell(pl, h, WalkFrom(pl, e, used + {n}), used);
      }
    }
  }

  /** Started from a fibre, the walk either runs out or closes a ring at that very fibre. */
  ghost predicate OpenOrRing(pl: Plant, h: Hop, w: Walked) {
    && |w.hops| > 0 && w.hops[0] == h
    && Chain(pl, w.hops) && Distinct(w.hops)
    && var last := w.hops[|w.hops|-1];
       if w.fault.None? then Next(pl, last.fibre, last.to) == {}
       else
         && w.fault == Some(Loop) && w.at == Some(h.from)
         && |w.hops| > 1 && Leads(pl, last, h) && Next(pl, h.fibre, h.from) == {last.fibre}
  }

  lemma {:induction false} WalkOutcome(pl: Plant, h: Hop)
    requires WellFormed(pl) && OnCable(pl, h)
    ensures OpenOrRing(pl, h, WalkFrom(pl, h, {h.fibre}))
  {
    WalkStopsWell(pl, h, {h.fibre});
    var w := WalkFrom(pl, h, {h.fibre});
    if w.fault.Some? {
      RingAtStart(pl, w);
    }
  }

  lemma RingAtStart(pl: Plant, w: Walked)
    requires WellFormed(pl) && |w.hops| > 0 && StopsWell(pl, w, {w.hops[0].fibre}) && w.fault.Some?
    ensures OpenOrRing(pl, w.hops[0], w)
  {
    var last, f := w.hops[|w.hops|-1], w.hops[0].fibre;
    var g :| Next(pl, last.fibre, last.to) == {g} && (g in {f} || Crosses(w.hops[1..], g));
    var k := 0;
    if g != f {
      var i :| 0 <= i < |w.hops[1..]| && w.hops[1..][i].fibre == g;
      k := i + 1;
    }
    RevisitIsStart(pl, w.hops, k);
  }

  /** Walking along a chain that runs out simply lists it. */
  lemma {:induction false} WalkAlong(pl: Plant, hs: seq<Hop>, i: nat, used: set<Fibre>)
    requires WellFormed(pl) && Chain(pl, hs) && Distinct(hs) && i < |hs|
    requires Next(pl, hs[|hs|-1].fibre, hs[|hs|-1].to) == {}
    requires forall k :: i < k < |hs| ==> hs[k].fibre !in used
    ensures WalkFrom(pl, hs[i], used) == Walked(hs[i..], None, None)
    decreases |hs| - i
  {
    hide Next;
    if i + 1 == |hs| {
      assert hs[i..] == [hs[i]];
    } else {
      assert Leads(pl, hs[i], hs[i+1]);
      assert OnCable(pl, hs[i+1]);
      WalkStep(pl, hs[i], used, hs[i+1].fibre);
      assert Enter(pl.cables, hs[i+1].fibre, hs[i].to) == hs[i+1];
      WalkAlong(pl, hs, i + 1, used + {hs[i+1].fibre});
      assert hs[i..] == [hs[i]] + hs[i+1..];
    }
  }

  lemma TurnChain(pl: Plant, hs: seq<Hop>)
    requires WellFormed(pl) && Chain(pl, hs)
    ensures Chain(pl, Turn(hs)) && Turn(Turn(hs)) == hs
    ensures Whole(pl, hs) ==> Whole(pl, Turn(hs))
    ensures Distinct(hs) ==> Distinct(Turn(hs))
  {
    hide WellFormed, Next, WalkFrom;
    var t := Turn(hs);
    forall i | 0 <= i < |t| ensures OnCable(pl, t[i]) {
      assert OnCable(pl, hs[|hs| - 1 - i]);
    }
    forall i | 0 < i < |t| ensures Leads(pl, t[i-1], t[i]) {
      var k := |hs| - i;
      assert t[i-1] == Flip(hs[k]) && t[i] == Flip(hs[k-1]);
      assert Leads(pl, hs[k-1], hs[k]);
      Matching(pl, hs[k-1].fibre, hs[k].fibre, hs[k-1].to);
    }
  }

  /** Two chains that meet in one hop make one chain. */
  lemma ChainsMeet(pl: Plant, back: seq<Hop>, ahead: seq<Hop>)
    requires Chain(pl, back) && Chain(pl, ahead) && back[|back|-1] == ahead[0]
    ensures Chain(pl, back[..|back|-1] + ahead)
  {
    hide Next;
    var hs := back[..|back|-1] + ahead;
    var m := |back| - 1;
    forall i | 0 < i < |hs| ensures Leads(pl, hs[i-1], hs[i]) {
      if i <= m {
        assert hs[i-1] == back[i-1] && hs[i] == back[i];
      } else {
        assert hs[i-1] == ahead[i-1-m] && hs[i] == ahead[i-m];
      }
    }
  }

  function Ahead(pl: Plant, f: Fibre): (w: Walked)
    requires f.cable in pl.cables
    ensures |w.hops| > 0
  {
    var c := pl.cables[f.cable];
    WalkFrom(pl, Hop(f, c.a, c.b), {f})
  }

  function Back(pl: Plant, f: Fibre): (w: Walked)
    requires f.cable in pl.cables
    ensures |w.hops| > 0
  {
    var c := pl.cables[f.cable];
    WalkFrom(pl, Hop(f, c.b, c.a), {f})
  }

  lemma TraceIsWalks(pl: Plant, f: Fibre)
    requires f.cable in pl.cables
    ensures TraceOf(pl, f) == Joined(Ahead(pl, f), Back(pl, f), pl.joints)
  {
  }

  /** The two walks of a trace, and the one chain they make. */
  lemma TraceParts(pl: Plant, f: Fibre)
    requires WellFormed(pl) && f.cable in pl.cables
    ensures TraceOf(pl, f) == Joined(Ahead(pl, f), Back(pl, f), pl.joints)
    ensures
      var c := pl.cables[f.cable];
      OpenOrRing(pl, Hop(f, c.a, c.b), Ahead(pl, f)) && OpenOrRing(pl, Hop(f, c.b, c.a), Back(pl, f))
    ensures
      var turned := Turn(Back(pl, f).hops);
      && TraceOf(pl, f).hops == turned[..|turned|-1] + Ahead(pl, f).hops
      && Chain(pl, turned)
    ensures Chain(pl, TraceOf(pl, f).hops) && Crosses(TraceOf(pl, f).hops, f)
  {
    hide WellFormed, Next, WalkFrom;
    var c := pl.cables[f.cable];
    TraceIsWalks(pl, f);
    WalkOutcome(pl, Hop(f, c.a, c.b));
    WalkOutcome(pl, Hop(f, c.b, c.a));
    var ahead, back := Ahead(pl, f).hops, Back(pl, f).hops;
    assert Turn(back[1..]) == Turn(back)[..|back|-1];
    TurnChain(pl, back);
    assert Turn(back)[|back|-1] == Flip(back[0]) == ahead[0];
    ChainsMeet(pl, Turn(back), ahead);
    assert (Turn(back)[..|back|-1] + ahead)[|back|-1].fibre == f;
  }

  /** An unfaulted trace is the whole run through the fibre: maximal, and no fibre twice. */
  lemma OkTraceIsWholeRun(pl: Plant, f: Fibre)
    requires WellFormed(pl) && Ok(TraceOf(pl, f))
    ensures Whole(pl, TraceOf(pl, f).hops) && Distinct(TraceOf(pl, f).hops)
    ensures Crosses(TraceOf(pl, f).hops, f)
  {
    TraceParts(pl, f);
    var ahead, back := Ahead(pl, f).hops, Back(pl, f).hops;
    var hops := TraceOf(pl, f).hops;
    assert hops[0] == Turn(back)[0] == Flip(back[|back|-1]);
    assert hops[|hops|-1] == ahead[|ahead|-1];
    OpenChainDistinct(pl, hops);
  }

  /** Any fibre on a whole run traces to that run, read one way or the other. */
  lemma TraceOfMember(pl: Plant, hs: seq<Hop>, i: nat)
    requires WellFormed(pl) && Whole(pl, hs) && Distinct(hs) && i < |hs|
    ensures
      var f := hs[i].fibre;
      var t := TraceOf(pl, f);
      && Ok(t)
      && t.hops == (if hs[i].from == pl.cables[f.cable].a then hs else Turn(hs))
  {
    assert OnCable(pl, hs[i]);
    if hs[i].from == pl.cables[hs[i].fibre.cable].a {
      TraceForward(pl, hs, i);
    } else {
      TurnChain(pl, hs);
      assert Turn(hs)[|hs|-1-i] == Flip(hs[i]);
      TraceForward(pl, Turn(hs), |hs| - 1 - i);
    }
  }

  lemma TraceForward(pl: Plant, hs: seq<Hop>, i: nat)
    requires WellFormed(pl) && Whole(pl, hs) && Distinct(hs) && i < |hs|
    requires hs[i].fibre.cable in pl.cables && hs[i].from == pl.cables[hs[i].fibre.cable].a
    ensures Ok(TraceOf(pl, hs[i].fibre)) && TraceOf(pl, hs[i].fibre).hops == hs
  {
    hide WellFormed, Next, WalkFrom, Chain, Distinct, TraceOf, Ahead, Back;
    TraceIsWalks(pl, hs[i].fibre);
    AheadAlong(pl, hs, i);
    TurnChain(pl, hs);
    TurnedAt(hs, i);
    BackAlong(pl, Turn(hs), |hs| - 1 - i);
    HalvesJoin(hs, i, Ahead(pl, hs[i].fibre), Back(pl, hs[i].fibre), pl.joints);
  }

  lemma AheadAlong(pl: Plant, hs: seq<Hop>, i: nat)
    requires WellFormed(pl) && Whole(pl, hs) && Distinct(hs) && i < |hs|
    requires hs[i].fibre.cable in pl.cables && hs[i].from == pl.cables[hs[i].fibre.cable].a
    ensures Ahead(pl, hs[i].fibre) == Walked(hs[i..], None, None)
  {
    assert OnCable(pl, hs[i]);
    WalkAlong(pl, hs, i, {hs[i].fibre});
  }

  lemma BackAlong(pl: Plant, hs: seq<Hop>, i: nat)
    requires WellFormed(pl) && Whole(pl, hs) && Distinct(hs) && i < |hs|
    requires hs[i].fibre.cable in pl.cables && hs[i].to == pl.cables[hs[i].fibre.cable].a
    ensures Back(pl, hs[i].fibre) == Walked(hs[i..], None, None)
  {
    assert OnCable(pl, hs[i]);
    WalkAlong(pl, hs, i, {hs[i].fibre});
  }

  lemma TurnedAt(hs: seq<Hop>, i: nat)
    requires i < |hs| && Distinct(hs)
    ensures Turn(hs)[|hs|-1-i] == Flip(hs[i])
    ensures forall k :: |hs| - 1 - i < k < |hs| ==> Turn(hs)[k].fibre !in {hs[i].fibre}
  {
  }

  /** The two halves of a run, walked from one of its hops, join up to the run. */
  lemma HalvesJoin(hs: seq<Hop>, i: nat, ahead: Walked, back: Walked, joints: seq<Joint>)
    requires i < |hs| && ahead == Walked(hs[i..], None, None)
    requires back == Walked(Turn(hs)[|hs|-1-i..], None, None)
    ensures Ok(Joined(ahead, back, joints)) && Joined(ahead, back, joints).hops == hs
  {
    assert Turn(back.hops[1..]) == hs[..i];
    assert hs[..i] + hs[i..] == hs;
  }

  /** The run reads the same from every fibre on it. */
  lemma TraceReadsTheSame(pl: Plant, f: Fibre, g: Fibre)
    requires WellFormed(pl) && Ok(TraceOf(pl, f)) && Crosses(TraceOf(pl, f).hops, g)
    ensures Ok(TraceOf(pl, g))
    ensures TraceOf(pl, g).hops == TraceOf(pl, f).hops || TraceOf(pl, g).hops == Turn(TraceOf(pl, f).hops)
  {
    OkTraceIsWholeRun(pl, f);
    var hs := TraceOf(pl, f).hops;
    var i :| 0 <= i < |hs| && hs[i].fibre == g;
    TraceOfMember(pl, hs, i);
  }

  /** The splices of a whole run's fibres stay on the run. */
  lemma RunIsClosed(pl: Plant, hs: seq<Hop>, x: Fibre, y: Fibre, p: Point)
    requires WellFormed(pl) && Whole(pl, hs) && Crosses(hs, x) && y in Next(pl, x, p)
    ensures Crosses(hs, y)
  {
    hide WellFormed, Next;
    var i :| 0 <= i < |hs| && hs[i].fibre == x;
    Matching(pl, x, y, p);
    assert OnCable(pl, hs[i]);
    if p == hs[i].to {
      assert Leads(pl, hs[i], hs[i+1]);
      assert hs[i+1].fibre == y;
    } else {
      assert Leads(pl, hs[i-1], hs[i]);
      Matching(pl, hs[i-1].fibre, hs[i].fibre, hs[i].from);
      assert hs[i-1].fibre == y;
    }
  }

  lemma {:induction false} ChainOnRun(pl: Plant, hs: seq<Hop>, chain: seq<Hop>, i: nat, k: nat)
    requires WellFormed(pl) && Whole(pl, hs) && Chain(pl, chain) && i < |chain| && k < |chain|
    requires Crosses(hs, chain[i].fibre)
    ensures Crosses(hs, chain[k].fibre)
    decreases if i < k then k - i else i - k
  {
    if i < k {
      assert Leads(pl, chain[i], chain[i+1]);
      RunIsClosed(pl, hs, chain[i].fibre, chain[i+1].fibre, chain[i].to);
      ChainOnRun(pl, hs, chain, i + 1, k);
    } else if k < i {
      assert Leads(pl, chain[i-1], chain[i]);
      Matching(pl, chain[i-1].fibre, chain[i].fibre, chain[i-1].to);
      RunIsClosed(pl, hs, chain[i].fibre, chain[i-1].fibre, chain[i-1].to);
      ChainOnRun(pl, hs, chain, i - 1, k);
    }
  }

  /** The only fault on a well-formed plant is a ring, and every fibre of it reports one. */
  lemma RingReportsLoop(pl: Plant, f: Fibre, g: Fibre)
    requires WellFormed(pl) && f.cable in pl.cables && !Ok(TraceOf(pl, f))
    requires Crosses(TraceOf(pl, f).hops, g)
    ensures TraceOf(pl, f).fault == Some(Loop) && TraceOf(pl, g).fault == Some(Loop)
  {
    hide WellFormed, Next, WalkFrom;
    TraceParts(pl, f);
    var hops := TraceOf(pl, f).hops;
    var i :| 0 <= i < |hops| && hops[i].fibre == g;
    assert OnCable(pl, hops[i]);
    TraceParts(pl, g);
    if Ok(TraceOf(pl, g)) {
      OkTraceIsWholeRun(pl, g);
      var k :| 0 <= k < |hops| && hops[k].fibre == f;
      ChainOnRun(pl, TraceOf(pl, g).hops, hops, i, k);
      TraceReadsTheSame(pl, g, f);
    }
  }

  /** On a ring the forward walk goes all the way round and stops where it set out. */
  lemma RingClosesWhereItBegan(pl: Plant, f: Fibre)
    requires WellFormed(pl) && TraceOf(pl, f).fault == Some(Loop)
    ensures
      var w := Ahead(pl, f);
      && w.fault == Some(Loop) && Chain(pl, w.hops) && Distinct(w.hops)
      && w.hops[0].fibre == f && Leads(pl, w.hops[|w.hops|-1], w.hops[0])
  {
    TraceParts(pl, f);
    if Ahead(pl, f).fault.None? {
      NoHalfRing(pl, Ahead(pl, f).hops, Back(pl, f).hops);
    }
  }

  /** A run open at one end cannot close on itself at the other. */
  lemma NoHalfRing(pl: Plant, ahead: seq<Hop>, back: seq<Hop>)
    requires WellFormed(pl) && Chain(pl, ahead) && Chain(pl, back) && back[0] == Flip(ahead[0])
    requires Next(pl, ahead[|ahead|-1].fibre, ahead[|ahead|-1].to) == {}
    requires |back| > 1
    ensures !Leads(pl, back[|back|-1], back[0])
  {
    hide WellFormed, Next, Leads;
    TurnChain(pl, ahead);
    assert Turn(ahead)[|ahead|-1] == back[0] && Turn(ahead)[0] == Flip(ahead[|ahead|-1]);
    NoRingAfterOpen(pl, Turn(ahead), back);
  }

  lemma NoRingAfterOpen(pl: Plant, open: seq<Hop>, back: seq<Hop>)
    requires WellFormed(pl) && Chain(pl, open) && Chain(pl, back) && open[|open|-1] == back[0]
    requires Next(pl, open[0].fibre, open[0].from) == {}
    requires |back| > 1
    ensures !Leads(pl, back[|back|-1], back[0])
  {
    hide WellFormed, Next;
    ChainsMeet(pl, open, back);
    var m := |open| - 1;
    var hs := open[..m] + back;
    assert hs[0] == open[0] && hs[|hs|-1] == back[|back|-1] && hs[m] == back[0];
    OpenChainDistinct(pl, hs);
    if Leads(pl, back[|back|-1], back[0]) {
      RevisitIsStart(pl, hs, m);
    }
  }

  ghost predicate Meet(hs: seq<Hop>) {
    forall i :: 0 < i < |hs| ==> hs[i-1].to == hs[i].from
  }

  /** Hops always chain end to end, whatever the plant. */
  lemma TraceHopsMeet(pl: Plant, f: Fibre)
    ensures Meet(TraceOf(pl, f).hops)
  {
    if f.cable in pl.cables {
      var c := pl.cables[f.cable];
      var ahead := WalkFrom(pl, Enter(pl.cables, f, c.a), {f}).hops;
      var back := WalkFrom(pl, Enter(pl.cables, f, c.b), {f}).hops;
      WalkHopsMeet(pl, Enter(pl.cables, f, c.a), {f});
      WalkHopsMeet(pl, Enter(pl.cables, f, c.b), {f});
      TurnMeets(back[1..], ahead, back[0]);
      assert back == [back[0]] + back[1..];
      assert TraceOf(pl, f).hops == Turn(back[1..]) + ahead;
    }
  }

  lemma TurnMeets(tail: seq<Hop>, ahead: seq<Hop>, h: Hop)
    requires Meet([h] + tail) && Meet(ahead) && |ahead| > 0 && ahead[0].from == h.to
    ensures Meet(Turn(tail) + ahead)
  {
    var hs := Turn(tail) + ahead;
    var all := [h] + tail;
    forall i | 0 < i < |hs| ensures hs[i-1].to == hs[i].from {
      if i <= |tail| {
        assert hs[i-1] == Flip(all[|tail| - i + 1]);
        assert all[|tail| - i].to == all[|tail| - i + 1].from;
        if i < |tail| { assert hs[i] == Flip(all[|tail| - i]); }
      } else {
        assert hs[i-1] == ahead[i-1-|tail|] && hs[i] == ahead[i-|tail|];
      }
    }
  }

  lemma {:induction false} WalkHopsMeet(pl: Plant, h: Hop, used: set<Fibre>)
    ensures Meet(WalkFrom(pl, h, used).hops)
    decreases Named(pl.joints) - used
  {
    var nxt := Next(pl, h.fibre, h.to);
    if |nxt| == 1 {
      var n := Only(nxt);
      WalkStep(pl, h, used, n);
      if n !in used {
        WalkHopsMeet(pl, Enter(pl.cables, n, h.to), used + {n});
      }
    }
  }

  // ------------------------------------------------- where a trace stops, and on what

  /** Why a walk stops where it leaves fibre `f` at `p`. */
  function StopAt(pl: Plant, f: Fibre, p: Point): Option<Fault> {
    var onward := Next(pl, f, p);
    if onward == {} then None else if |onward| == 1 then Some(Loop) else Some(Fork)
  }

  lemma {:induction false} WalkStopsAt(pl: Plant, h: Hop, used: set<Fibre>)
    ensures
      var w := WalkFrom(pl, h, used);
      var last := w.hops[|w.hops|-1];
      w.fault == StopAt(pl, last.fibre, last.to) && w.at == if w.fault.Some? then Some(last.to) else None
    decreases Named(pl.joints) - used
  {
    hide WalkFrom, Named, Spliced;
    var nxt := Next(pl, h.fibre, h.to);
    WalkEnds(pl, h, used);
    if |nxt| == 1 {
      var n := Only(nxt);
      WalkStep(pl, h, used, n);
      if n !in used {
        WalkStopsAt(pl, Enter(pl.cables, n, h.to), used + {n});
      }
    }
  }

  /**
   On any plant, well formed or not, a fault is what stands at the end of the hops it is
   reported at: glass that goes on into several fibres is a fork, into one a loop. The first
   hop's end is read before the last one's, and a trace without fault goes on at neither.
   */
  lemma FaultStandsAtAnEnd(pl: Plant, f: Fibre)
    requires f.cable in pl.cables
    ensures
      var t := TraceOf(pl, f);
      && |t.hops| > 0
      && var first, last := t.hops[0], t.hops[|t.hops|-1];
         var before, behind := StopAt(pl, first.fibre, first.from), StopAt(pl, last.fibre, last.to);
         if before.Some? then t.fault == before && t.faultAt == Some(first.from)
         else if behind.Some? then t.fault == behind && t.faultAt == Some(last.to)
         else t.fault == None && t.faultAt == None
  {
    hide WalkFrom, StopAt;
    var c := pl.cables[f.cable];
    var ahead, back := Enter(pl.cables, f, c.a), Enter(pl.cables, f, c.b);
    WalkStopsAt(pl, ahead, {f});
    WalkStopsAt(pl, back, {f});
    WhereHopsEnd(WalkFrom(pl, ahead, {f}), WalkFrom(pl, back, {f}), pl.joints);
  }

  lemma WhereHopsEnd(forward: Walked, backward: Walked, joints: seq<Joint>)
    requires |forward.hops| > 0 && |backward.hops| > 0
    requires forward.hops[0].fibre == backward.hops[0].fibre && forward.hops[0].from == backward.hops[0].to
    ensures
      var hops, behind := Joined(forward, backward, joints).hops, backward.hops[|backward.hops|-1];
      hops[0].fibre == behind.fibre && hops[0].from == behind.to && hops[|hops|-1] == forward.hops[|forward.hops|-1]
  {
    if |backward.hops| > 1 {
      assert backward.hops[1..][|backward.hops|-2] == backward.hops[|backward.hops|-1];
    }
  }

  /** The joint at `k` lands the fibre on the equipment at the point, and no later one does. */
  ghost predicate LastLanding(joints: seq<Joint>, f: Fibre, p: Point, k: int) {
    && 0 <= k < |joints| && joints[k].b.None? && joints[k].a == f && joints[k].point == p
    && forall i :: k < i < |joints| ==> !(joints[i].b.None? && joints[i].a == f && joints[i].point == p)
  }

  /** What lands the fibre there: the last such joint listed, if any. */
  ghost predicate TellsEnd(joints: seq<Joint>, f: Fibre, p: Point, end: Option<Joint>) {
    match end
    case Some(j) => exists k :: LastLanding(joints, f, p, k) && joints[k] == j
    case None => forall i :: 0 <= i < |joints| ==> !(joints[i].b.None? && joints[i].a == f && joints[i].point == p)
  }

  /**
   The points of a trace are where its hops lead, its ends what lands the fibre on equipment
   before the first hop and after the last, and the core asked about is crossed from the a end
   of its cable to the b end. A cable that is not there gives a trace of nothing.
   */
  lemma TraceTells(pl: Plant, f: Fibre)
    ensures
      var t := TraceOf(pl, f);
      if f.cable !in pl.cables then t == Traced(Some(Missing), None, [], [], [])
      else
        && |t.hops| > 0 && |t.points| == |t.hops| + 1 && |t.ends| == 2
        && (forall i :: 0 <= i < |t.hops| ==> t.points[i] == t.hops[i].from && t.points[i+1] == t.hops[i].to)
        && Hop(f, pl.cables[f.cable].a, pl.cables[f.cable].b) in t.hops
        && TellsEnd(pl.joints, t.hops[0].fibre, t.hops[0].from, t.ends[0])
        && TellsEnd(pl.joints, t.hops[|t.hops|-1].fibre, t.hops[|t.hops|-1].to, t.ends[1])
  {
    if f.cable in pl.cables {
      hide WalkFrom, EndAt;
      var t := TraceOf(pl, f);
      var first, last := t.hops[0], t.hops[|t.hops|-1];
      TraceHopsMeet(pl, f);
      EndTold(pl.joints, first.fibre, first.from);
      EndTold(pl.joints, last.fibre, last.to);
      var ahead := WalkFrom(pl, Enter(pl.cables, f, pl.cables[f.cable].a), {f}).hops;
      assert ahead[0] in ahead;
    }
  }

  lemma {:induction false} EndTold(joints: seq<Joint>, f: Fibre, p: Point)
    ensures TellsEnd(joints, f, p, EndAt(joints, f, p))
  {
    if EndAt(joints, f, p).Some? {
      var k := EndAtFound(joints, f, p);
      assert LastLanding(joints, f, p, k);
    } else {
      NothingLands(joints, f, p);
    }
  }

  /** A ring is found going back from the core asked about, so it is reported at the b end of its cable. */
  lemma LoopIsAtTheBEnd(pl: Plant, f: Fibre)
    requires WellFormed(pl) && TraceOf(pl, f).fault == Some(Loop)
    ensures TraceOf(pl, f).faultAt == Some(pl.cables[f.cable].b)
  {
    hide WellFormed, Next, WalkFrom;
    TraceParts(pl, f);
    if Back(pl, f).fault.None? {
      RingClosesWhereItBegan(pl, f);
      NoHalfRing(pl, Back(pl, f).hops, Ahead(pl, f).hops);
    }
  }

  /** The whole story for any plant reached by edits and any fibre of it. */
  lemma {:induction false} TraceAfterEdits(edits: seq<Edit>, f: Fibre, g: Fibre)
    ensures
      var pl := Run(Plant(map[], []), edits);
      var t := TraceOf(pl, f);
      && t.fault != Some(Fork)
      && (t.fault == Some(Missing) <==> f.cable !in pl.cables)
      && (Ok(t) ==> Whole(pl, t.hops) && Distinct(t.hops))
      && (Crosses(t.hops, g) ==> TraceOf(pl, g).fault == t.fault)
      && (Crosses(t.hops, g) && Ok(t) ==> TraceOf(pl, g).hops == t.hops || TraceOf(pl, g).hops == Turn(t.hops))
      && (t.fault != Some(Loop) ==> t.faultAt == None)
      && (t.fault == Some(Loop) ==> t.faultAt == Some(pl.cables[f.cable].b))
      && (f.cable in pl.cables ==>
            && TellsEnd(pl.joints, t.hops[0].fibre, t.hops[0].from, t.ends[0])
            && TellsEnd(pl.joints, t.hops[|t.hops|-1].fibre, t.hops[|t.hops|-1].to, t.ends[1]))
  {
    hide WellFormed, Next, WalkFrom, TellsEnd, StopAt;
    var pl := Run(Plant(map[], []), edits);
    var t := TraceOf(pl, f);
    RunsAreWellFormed(edits);
    TraceTells(pl, f);
    if f.cable in pl.cables {
      TraceParts(pl, f);
      FaultStandsAtAnEnd(pl, f);
      if t.fault == Some(Loop) { LoopIsAtTheBEnd(pl, f); }
      if Ok(t) {
        OkTraceIsWholeRun(pl, f);
        if Crosses(t.hops, g) { TraceReadsTheSame(pl, f, g); }
      } else {
        RingReportsLoop(pl, f, f);
        if Crosses(t.hops, g) { RingReportsLoop(pl, f, g); }
      }
    }
  }
}
