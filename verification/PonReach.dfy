/**
 `pon_of_points` of fiber.py: every core landed on a PON port is followed to where its
 glass ends on equipment, and a point two different PONs reach is reported as such.
 */
module PonReach {
  import opened Options
  import opened FibrePlant
  import opened Trace
  import opened TraceLaws

  datatype Source = Source(at: Point, no: Option<int>)

  /** The termination `j` puts its fibre on a PON port. */
  predicate OnPon(j: Joint) {
    j.port.Some? && j.port.value.kind == "pon"
  }

  /** Where light let into hop `h` first comes out on equipment. */
  function Reach(pl: Plant, h: Hop, used: set<Fibre>): Option<Point>
    decreases Named(pl.joints) - used
  {
    if EndAt(pl.joints, h.fibre, h.to).Some? then Some(h.to)
    else
      var nxt := Next(pl, h.fibre, h.to);
      if |nxt| != 1 then None
      else
        var n := Only(nxt);
        if n in used then None
        else
          SplicedNamed(pl.joints, h.fibre, h.to);
          Reach(pl, Enter(pl.cables, n, h.to), used + {n})
  }

  /** Fibre `f` is landed on a PON port, making it a source. */
  ghost predicate PonEnd(pl: Plant, f: Fibre, s: Source) {
    && f.cable in pl.cables
    && var j := EndAt(pl.joints, f, s.at);
       j.Some? && OnPon(j.value) && j.value.port.value.no == s.no
  }

  /** The sources that reach equipment at `p` over fibres landed among `keys`. */
  ghost function Arrivals(pl: Plant, keys: set<(Fibre, Point)>, p: Point): iset<Source> {
    iset s: Source | exists f :: (f, s.at) in keys && Carries(pl, f, s, p)
  }

  ghost predicate Carries(pl: Plant, f: Fibre, s: Source, p: Point) {
    PonEnd(pl, f, s) && Reach(pl, Enter(pl.cables, f, s.at), {f}) == Some(p)
  }

  /** No entry, one source, or "more than one", as the arrivals have it. */
  ghost predicate Verdict(arrivals: iset<Source>, entry: Option<Option<Source>>) {
    match entry
    case None => arrivals == iset{}
    case Some(Some(s)) => arrivals == iset{s}
    case Some(None) => exists r, s :: r != s && r in arrivals && s in arrivals
  }

  ghost predicate Tells(pl: Plant, keys: set<(Fibre, Point)>, out: map<Point, Option<Source>>) {
    forall p :: Verdict(Arrivals(pl, keys, p), Get(out, p))
  }

  method Follow(cables: map<int, Cable>, joins: Splices, ends: map<(Fibre, Point), Joint>,
                f: Fibre, at: Point, ghost pl: Plant)
    returns (landed: Option<Point>)
    requires pl.cables == cables && f.cable in cables
    requires forall g, p :: At(joins, g, p) == Spliced(pl.joints, g, p)
    requires forall g, p :: (g, p) in ends <==> EndAt(pl.joints, g, p).Some?
    ensures landed == Reach(pl, Enter(cables, f, at), {f})
  {
    var fibre, entered, used := f, at, {f};
    while true
      invariant fibre.cable in cables
      invariant Reach(pl, Enter(cables, f, at), {f}) == Reach(pl, Enter(cables, fibre, entered), used)
      decreases Named(pl.joints) - used
    {
      var leaving := OtherEnd(cables[fibre.cable], entered);
      if (fibre, leaving) in ends {
        return Some(leaving);
      }
      var nxt := set n | n in At(joins, fibre, leaving) && n.cable in cables;
      assert nxt == Next(pl, fibre, leaving);
      if |nxt| != 1 {
        return None;
      }
      var n := Only(nxt);
      if n in used {
        return None;
      }
      SplicedNamed(pl.joints, fibre, leaving);
      used := used + {n};
      fibre, entered := n, leaving;
    }
  }

  function Arrive(out: map<Point, Option<Source>>, p: Point, s: Source): map<Point, Option<Source>> {
    if p in out && out[p] != Some(s) then out[p := None]
    else if p !in out then out[p := Some(s)]
    else out
  }

  lemma ArriveTells(pl: Plant, keys: set<(Fibre, Point)>, out: map<Point, Option<Source>>, k: (Fibre, Point),
                    s: Source, p: Point)
    requires Tells(pl, keys, out) && k.1 == s.at && Carries(pl, k.0, s, p)
    ensures Tells(pl, keys + {k}, Arrive(out, p, s))
  {
    forall q: Point ensures Verdict(Arrivals(pl, keys + {k}, q), Get(Arrive(out, p, s), q)) {
      assert Arrivals(pl, keys + {k}, q) == Arrivals(pl, keys, q) + (if q == p then iset{s} else iset{}) by {
        forall r | r in Arrivals(pl, keys + {k}, q) && r !in Arrivals(pl, keys, q) ensures q == p && r == s {
          var f :| (f, r.at) in keys + {k} && Carries(pl, f, r, q);
          assert (f, r.at) == k;
        }
        assert (k.0, s.at) in keys + {k};
      }
      assert Verdict(Arrivals(pl, keys, q), Get(out, q));
      GrownVerdict(Arrivals(pl, keys, p), Get(out, p), s);
    }
  }

  lemma GrownVerdict(arrivals: iset<Source>, entry: Option<Option<Source>>, s: Source)
    requires Verdict(arrivals, entry)
    ensures Verdict(arrivals + iset{s},
                    if entry.Some? && entry.value != Some(s) then Some(None) else Some(Some(s)))
  {
    match entry
    case None =>
    case Some(Some(r)) => assert r in arrivals + iset{s} && s in arrivals + iset{s};
    case Some(None) =>
      var r, t :| r != t && r in arrivals && t in arrivals;
      assert r in arrivals + iset{s} && t in arrivals + iset{s};
  }

  lemma SilentTells(pl: Plant, keys: set<(Fibre, Point)>, out: map<Point, Option<Source>>, k: (Fibre, Point))
    requires Tells(pl, keys, out)
    requires forall s: Source, p: Point :: Carries(pl, k.0, s, p) ==> s.at != k.1
    ensures Tells(pl, keys + {k}, out)
  {
    forall q: Point ensures Verdict(Arrivals(pl, keys + {k}, q), Get(out, q)) {
      assert Arrivals(pl, keys + {k}, q) == Arrivals(pl, keys, q);
    }
  }

  /** Keys are taken in whatever order; the answer names only the arrivals. */
  method PonOfPoints(cables: map<int, Cable>, joints: seq<Joint>)
    returns (out: map<Point, Option<Source>>)
    ensures Tells(Plant(cables, joints), Terminations(joints).Keys, out)
  {
    ghost var pl := Plant(cables, joints);
    var joins := Continuity(joints);
    var ends := Terminations(joints);
    out := map[];
    var left := ends.Keys;
    ghost var keys := {};
    while left != {}
      invariant keys + left == ends.Keys
      invariant Tells(pl, keys, out)
      decreases left
    {
      var k :| k in left;
      var (f, at) := k;
      var j := ends[k];
      assert EndAt(joints, f, at) == Some(j);
      if !OnPon(j) || f.cable !in cables {
        SilentTells(pl, keys, out, k);
      } else {
        var s := Source(at, j.port.value.no);
        var landed := Follow(cables, joins, ends, f, at, pl);
        if landed.Some? {
          ArriveTells(pl, keys, out, k, s, landed.value);
          out := Arrive(out, landed.value, s);
        } else {
          SilentTells(pl, keys, out, k);
        }
      }
      keys := keys + {k};
      left := left - {k};
    }
  }

  // ------------------------------------------------- on a well-formed plant

  lemma {:induction false} ReachAlong(pl: Plant, hs: seq<Hop>, i: nat, used: set<Fibre>)
    requires WellFormed(pl) && Chain(pl, hs) && Distinct(hs) && i < |hs|
    requires Next(pl, hs[|hs|-1].fibre, hs[|hs|-1].to) == {}
    requires forall k :: i < k < |hs| ==> hs[k].fibre !in used
    ensures
      var last := hs[|hs|-1];
      Reach(pl, hs[i], used) == if EndAt(pl.joints, last.fibre, last.to).Some? then Some(last.to) else None
    decreases |hs| - i
  {
    if i + 1 < |hs| {
      assert Leads(pl, hs[i], hs[i+1]);
      Matching(pl, hs[i].fibre, hs[i+1].fibre, hs[i].to);
      assert OnCable(pl, hs[i+1]);
      assert Enter(pl.cables, hs[i+1].fibre, hs[i].to) == hs[i+1];
      assert Only(Next(pl, hs[i].fibre, hs[i].to)) == hs[i+1].fibre;
      SplicedNamed(pl.joints, hs[i].fibre, hs[i].to);
      ReachAlong(pl, hs, i + 1, used + {hs[i+1].fibre});
    }
  }

  /** The trace of `f`, read from its end at `at`, comes out on equipment at `p`. */
  ghost predicate TraceLands(pl: Plant, f: Fibre, at: Point, p: Point) {
    var t := TraceOf(pl, f);
    && Ok(t) && |t.hops| > 0 && |t.ends| == 2
    && var first, last := t.hops[0], t.hops[|t.hops|-1];
       || (first.fibre == f && first.from == at && t.ends[1].Some? && p == last.to)
       || (last.fibre == f && last.to == at && t.ends[0].Some? && p == first.from)
  }

  /** A landed core is the open end of its run. */
  lemma RunFromEnd(pl: Plant, f: Fibre, at: Point) returns (hs: seq<Hop>)
    requires WellFormed(pl) && f.cable in pl.cables && EndAt(pl.joints, f, at).Some?
    ensures Whole(pl, hs) && Distinct(hs) && hs[0] == Enter(pl.cables, f, at) && hs[0].from != hs[0].to
  {
    var k := EndAtFound(pl.joints, f, at);
    assert JointSound(pl.joints[k], pl.cables);
    if n :| n in Next(pl, f, at) {
      Matching(pl, f, n, at);
    }
    var h := Enter(pl.cables, f, at);
    WalkOutcome(pl, h);
    hs := WalkFrom(pl, h, {f}).hops;
  }

  /** On a well-formed plant the PON walk and the trace of the same core agree. */
  lemma {:induction false} ReachAgreesWithTrace(pl: Plant, f: Fibre, at: Point, p: Point)
    requires WellFormed(pl) && f.cable in pl.cables && EndAt(pl.joints, f, at).Some?
    ensures Reach(pl, Enter(pl.cables, f, at), {f}) == Some(p) <==> TraceLands(pl, f, at, p)
  {
    hide WalkFrom, Next, EndAt, TraceLands, TraceOf;
    var hs := RunFromEnd(pl, f, at);
    ReachAlong(pl, hs, 0, {f});
    TraceOfMember(pl, hs, 0);
    EndsOfTrace(pl, f, hs, at, p);
  }

  lemma EndsOfTrace(pl: Plant, f: Fibre, hs: seq<Hop>, at: Point, p: Point)
    requires f.cable in pl.cables && |hs| > 0 && Distinct(hs) && hs[0].fibre == f && hs[0].from == at
    requires hs[0].from != hs[0].to && Ok(TraceOf(pl, f))
    requires TraceOf(pl, f).hops == hs || TraceOf(pl, f).hops == Turn(hs)
    ensures
      var last := hs[|hs|-1];
      TraceLands(pl, f, at, p) <==> EndAt(pl.joints, last.fibre, last.to).Some? && p == last.to
  {
    TraceIsWalks(pl, f);
    hide WalkFrom, Next, EndAt, TraceOf, Ahead, Back;
    var t := TraceOf(pl, f);
    if |hs| > 1 { assert hs[|hs|-1].fibre != f; }
    if t.hops == Turn(hs) {
      assert t.hops[0] == Flip(hs[|hs|-1]) && t.hops[|hs|-1] == Flip(hs[0]);
    }
  }

  /** The PONs with a core whose trace comes out on equipment at `p`. */
  ghost function Feeders(pl: Plant, p: Point): iset<Source> {
    iset s: Source | exists f :: FromPon(pl, f, s) && TraceLands(pl, f, s.at, p)
  }

  /** Some joint lands the core on a PON port of that number at the source's point. */
  ghost predicate FromPon(pl: Plant, f: Fibre, s: Source) {
    f.cable in pl.cables && exists j :: j in pl.joints && Lights(j, f, s)
  }

  predicate Lights(j: Joint, f: Fibre, s: Source) {
    j.point == s.at && j.a == f && j.b.None? && j.port.Some? && j.port.value.kind == "pon" && j.port.value.no == s.no
  }

  lemma {:induction false} PonEndIs(pl: Plant, f: Fibre, s: Source)
    requires WellFormed(pl)
    ensures PonEnd(pl, f, s) <==> FromPon(pl, f, s)
  {
    hide Next, WalkFrom;
    if EndAt(pl.joints, f, s.at).Some? {
      var k := EndAtFound(pl.joints, f, s.at);
      forall i | 0 <= i < |pl.joints| && Lands(pl.joints[i], f, s.at) ensures i == k {
        assert Holds(pl.joints[i], f, s.at) && Holds(pl.joints[k], f, s.at);
      }
      assert pl.joints[k] in pl.joints;
    } else {
      NothingLands(pl.joints, f, s.at);
    }
    if FromPon(pl, f, s) {
      var j :| j in pl.joints && Lights(j, f, s);
      var i :| 0 <= i < |pl.joints| && pl.joints[i] == j;
      assert Lands(pl.joints[i], f, s.at);
    }
  }

  /**
   A point maps to `s` exactly when `s` is the only PON whose traces land there, and to
   "more than one" exactly when two do; no order of the joints or the cores can show.
   */
  lemma PonOfPointsMeaning(pl: Plant, out: map<Point, Option<Source>>, p: Point)
    requires WellFormed(pl) && Tells(pl, Terminations(pl.joints).Keys, out)
    ensures Verdict(Feeders(pl, p), Get(out, p))
  {
    var keys := Terminations(pl.joints).Keys;
    forall f, s ensures PonEnd(pl, f, s) <==> FromPon(pl, f, s) { PonEndIs(pl, f, s); }
    hide FromPon;
    forall f: Fibre, s: Source | PonEnd(pl, f, s)
      ensures (f, s.at) in keys && (Carries(pl, f, s, p) <==> TraceLands(pl, f, s.at, p))
    {
      ReachAgreesWithTrace(pl, f, s.at, p);
    }
    assert Feeders(pl, p) == Arrivals(pl, keys, p) by {
      forall s ensures s in Feeders(pl, p) <==> s in Arrivals(pl, keys, p) {
        if s in Feeders(pl, p) {
          var f :| FromPon(pl, f, s) && TraceLands(pl, f, s.at, p);
          assert PonEnd(pl, f, s);
          assert (f, s.at) in keys && Carries(pl, f, s, p);
        }
        if s in Arrivals(pl, keys, p) {
          var f :| (f, s.at) in keys && Carries(pl, f, s, p);
          assert FromPon(pl, f, s) && TraceLands(pl, f, s.at, p);
        }
      }
    }
    assert Verdict(Arrivals(pl, keys, p), Get(out, p));
  }
}
