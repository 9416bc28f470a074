/**
 `trace` of fiber.py: following one core through its splices in both directions. The
 walk is a loop over `hops` and `used`; it is proved against the function `WalkFrom`,
 and what a well-formed plant promises of it is proved about that function.
 */
module Trace {
  import opened Options
  import opened FibrePlant

  datatype Hop = Hop(fibre: Fibre, from: Point, to: Point)

  datatype Fault = Missing | Fork | Loop

  datatype Walked = Walked(hops: seq<Hop>, fault: Option<Fault>, at: Option<Point>)

  datatype Traced = Traced(fault: Option<Fault>, faultAt: Option<Point>, hops: seq<Hop>,
                           points: seq<Point>, ends: seq<Option<Joint>>)

  // ------------------------------------------------------ splices and endings

  /** What one joint contributes to the splices of fibre end (f, p). */
  function Splice(j: Joint, f: Fibre, p: Point): seq<Fibre> {
    if j.point != p || j.b.None? then []
    else (if j.a == f then [j.b.value] else []) + (if j.b.value == f then [j.a] else [])
  }

  function Spliced(joints: seq<Joint>, f: Fibre, p: Point): seq<Fibre> {
    if joints == [] then []
    else Spliced(joints[..|joints|-1], f, p) + Splice(joints[|joints|-1], f, p)
  }

  type Splices = map<(Fibre, Point), seq<Fibre>>

  function At(m: Splices, f: Fibre, p: Point): seq<Fibre> {
    if (f, p) in m then m[(f, p)] else []
  }

  /** One joint entered in the dictionary under both of its fibre ends. */
  function Entered(out: Splices, j: Joint): Splices {
    if j.b.None? then out
    else
      var half := out[(j.a, j.point) := At(out, j.a, j.point) + [j.b.value]];
      half[(j.b.value, j.point) := At(half, j.b.value, j.point) + [j.a]]
  }

  lemma EnteredAdds(out: Splices, j: Joint, f: Fibre, p: Point)
    ensures At(Entered(out, j), f, p) == At(out, f, p) + Splice(j, f, p)
  {
    if j.b.Some? && j.a == j.b.value && f == j.a && p == j.point {
      assert At(out, f, p) + Splice(j, f, p) == At(out, f, p) + [j.a] + [j.a];
    }
  }

  method Continuity(joints: seq<Joint>) returns (out: Splices)
    ensures forall f, p :: At(out, f, p) == Spliced(joints, f, p)
  {
    out := map[];
    for i := 0 to |joints|
      invariant forall f, p :: At(out, f, p) == Spliced(joints[..i], f, p)
    {
      assert joints[..i+1][..i] == joints[..i];
      ghost var was := out;
      var j := joints[i];
      if j.b.Some? {
        out := out[(j.a, j.point) := At(out, j.a, j.point) + [j.b.value]];
        out := out[(j.b.value, j.point) := At(out, j.b.value, j.point) + [j.a]];
      }
      assert out == Entered(was, j);
      forall f, p ensures At(out, f, p) == Spliced(joints[..i+1], f, p) {
        EnteredAdds(was, j, f, p);
      }
    }
    assert joints[..|joints|] == joints;
  }

  predicate Lands(j: Joint, f: Fibre, p: Point) {
    j.point == p && j.a == f && j.b.None?
  }

  /** The termination recorded at a fibre end; of several, the last one stored. */
  function EndAt(joints: seq<Joint>, f: Fibre, p: Point): Option<Joint> {
    if joints == [] then None
    else
      var j := joints[|joints|-1];
      if Lands(j, f, p) then Some(j) else EndAt(joints[..|joints|-1], f, p)
  }

  /** `terminations`, as a dictionary. */
  function Terminations(joints: seq<Joint>): (out: map<(Fibre, Point), Joint>)
    ensures forall f, p :: (f, p) in out <==> EndAt(joints, f, p).Some?
    ensures forall f, p :: (f, p) in out ==> EndAt(joints, f, p) == Some(out[(f, p)])
  {
    if joints == [] then map[]
    else
      var j := joints[|joints|-1];
      var rest := Terminations(joints[..|joints|-1]);
      if j.b.None? then rest[(j.a, j.point) := j] else rest
  }

  function Get<K, V>(m: map<K, V>, k: K): Option<V> {
    if k in m then Some(m[k]) else None
  }

  // ---------------------------------------------------------------- the walk

  function Enter(cables: map<int, Cable>, f: Fibre, p: Point): Hop
    requires f.cable in cables
  {
    Hop(f, p, OtherEnd(cables[f.cable], p))
  }

  function Flip(h: Hop): Hop {
    Hop(h.fibre, h.to, h.from)
  }

  /** The fibres a fibre end continues into, over cables that exist. */
  function Next(pl: Plant, f: Fibre, p: Point): set<Fibre> {
    set n | n in Spliced(pl.joints, f, p) && n.cable in pl.cables
  }

  /** Every fibre some splice names. */
  function Named(joints: seq<Joint>): set<Fibre> {
    (set j | j in joints :: j.a) + (set j | j in joints && j.b.Some? :: j.b.value)
  }

  lemma {:induction false} SplicedNamed(joints: seq<Joint>, f: Fibre, p: Point)
    ensures forall n :: n in Spliced(joints, f, p) ==> n in Named(joints)
  {
    if joints != [] {
      SplicedNamed(joints[..|joints|-1], f, p);
      assert joints[|joints|-1] in joints;
    }
  }

  function WalkFrom(pl: Plant, h: Hop, used: set<Fibre>): (w: Walked)
    ensures |w.hops| >= 1 && w.hops[0] == h
    decreases Named(pl.joints) - used
  {
    var nxt := Next(pl, h.fibre, h.to);
    if nxt == {} then Walked([h], None, None)
    else if |nxt| > 1 then Walked([h], Some(Fork), Some(h.to))
    else
      var n := Only(nxt);
      if n in used then Walked([h], Some(Loop), Some(h.to))
      else
        SplicedNamed(pl.joints, h.fibre, h.to);
        var w := WalkFrom(pl, Enter(pl.cables, n, h.to), used + {n});
        w.(hops := [h] + w.hops)
  }

  lemma {:induction false} WalkEnds(pl: Plant, h: Hop, used: set<Fibre>)
    ensures Next(pl, h.fibre, h.to) == {} ==> WalkFrom(pl, h, used) == Walked([h], None, None)
    ensures |Next(pl, h.fibre, h.to)| > 1 ==> WalkFrom(pl, h, used) == Walked([h], Some(Fork), Some(h.to))
  {
  }

  lemma {:induction false} WalkStep(pl: Plant, h: Hop, used: set<Fibre>, n: Fibre)
    requires Next(pl, h.fibre, h.to) == {n}
    ensures n in used ==> WalkFrom(pl, h, used) == Walked([h], Some(Loop), Some(h.to))
    ensures n !in used ==>
      && n in Named(pl.joints)
      && var w := WalkFrom(pl, Enter(pl.cables, n, h.to), used + {n});
         WalkFrom(pl, h, used) == w.(hops := [h] + w.hops)
  {
    assert n in Next(pl, h.fibre, h.to);
    SplicedNamed(pl.joints, h.fibre, h.to);
  }

  /** The element of a one-element set. */
  function Only<T>(s: set<T>): (x: T)
    requires |s| == 1
    ensures s == {x}
  {
    OneElement(s);
    var x :| x in s && s == {x};
    x
  }

  lemma OneElement<T>(s: set<T>)
    requires |s| == 1
    ensures exists x :: x in s && s == {x}
    ensures forall x, y :: x in s && y in s ==> x == y
  {
    var x :| x in s;
    assert |s - {x}| == 0;
    assert s == {x};
  }

  method Walk(cables: map<int, Cable>, joins: Splices, start: Fibre, entering: Point, ghost pl: Plant)
    returns (w: Walked)
    requires pl.cables == cables && start.cable in cables
    requires forall f, p :: At(joins, f, p) == Spliced(pl.joints, f, p)
    ensures w == WalkFrom(pl, Enter(cables, start, entering), {start})
  {
    hide WalkFrom, Next, Spliced, Named;
    var hops: seq<Hop> := [];
    var used := {start};
    var fibre, entered := start, entering;
    ghost var whole := WalkFrom(pl, Enter(cables, start, entering), {start});
    while true
      invariant fibre.cable in cables
      invariant
        var rest := WalkFrom(pl, Enter(cables, fibre, entered), used);
        whole == rest.(hops := hops + rest.hops)
      decreases Named(pl.joints) - used
    {
      ghost var h := Enter(cables, fibre, entered);
      var leaving := OtherEnd(cables[fibre.cable], entered);
      hops := hops + [Hop(fibre, entered, leaving)];
      var nxt := set n | n in At(joins, fibre, leaving) && n.cable in cables;
      NextIs(pl, joins, fibre, leaving);
      WalkEnds(pl, h, used);
      if nxt == {} {
        return Walked(hops, None, None);
      }
      if |nxt| > 1 {
        return Walked(hops, Some(Fork), Some(leaving));
      }
      var n := Only(nxt);
      WalkStep(pl, h, used, n);
      if n in used {
        return Walked(hops, Some(Loop), Some(leaving));
      }
      used := used + {n};
      fibre, entered := n, leaving;
    }
  }

  lemma {:induction false} NextIs(pl: Plant, joins: Splices, f: Fibre, p: Point)
    requires At(joins, f, p) == Spliced(pl.joints, f, p)
    ensures Next(pl, f, p) == set n | n in At(joins, f, p) && n.cable in pl.cables
  {
  }

  // --------------------------------------------------------------- the trace

  /** A run read from its other end. */
  function Turn(hs: seq<Hop>): (out: seq<Hop>)
    ensures |out| == |hs|
    ensures forall i :: 0 <= i < |hs| ==> out[i] == Flip(hs[|hs| - 1 - i])
  {
    seq(|hs|, i requires 0 <= i < |hs| => Flip(hs[|hs| - 1 - i]))
  }

  /** Every point a run of hops passes, from where it starts. */
  function Points(hops: seq<Hop>): (ps: seq<Point>)
    requires |hops| > 0
    ensures |ps| == |hops| + 1 && ps[0] == hops[0].from
    ensures forall i :: 0 <= i < |hops| ==> ps[i+1] == hops[i].to
  {
    [hops[0].from] + seq(|hops|, i requires 0 <= i < |hops| => hops[i].to)
  }

  function Joined(forward: Walked, backward: Walked, joints: seq<Joint>): Traced
    requires |forward.hops| >= 1 && |backward.hops| >= 1
  {
    var hops := Turn(backward.hops[1..]) + forward.hops;
    var first, last := hops[0], hops[|hops|-1];
    Traced(if backward.fault.Some? then backward.fault else forward.fault,
           if backward.fault.Some? then backward.at else forward.at,
           hops,
           Points(hops),
           [EndAt(joints, first.fibre, first.from), EndAt(joints, last.fibre, last.to)])
  }

  function TraceOf(pl: Plant, f: Fibre): Traced {
    if f.cable !in pl.cables then Traced(Some(Missing), None, [], [], [])
    else
      var c := pl.cables[f.cable];
      Joined(WalkFrom(pl, Enter(pl.cables, f, c.a), {f}),
             WalkFrom(pl, Enter(pl.cables, f, c.b), {f}), pl.joints)
  }

  method Trace(cables: map<int, Cable>, joints: seq<Joint>, f: Fibre) returns (t: Traced)
    ensures t == TraceOf(Plant(cables, joints), f)
  {
    if f.cable !in cables {
      return Traced(Some(Missing), None, [], [], []);
    }
    var joins := Continuity(joints);
    var ends := Terminations(joints);
    var c := cables[f.cable];
    var forward := Walk(cables, joins, f, c.a, Plant(cables, joints));
    var backward := Walk(cables, joins, f, c.b, Plant(cables, joints));
    assert TraceOf(Plant(cables, joints), f) == Joined(forward, backward, joints);
    t := Assemble(forward, backward, ends, joints);
  }

  method Assemble(forward: Walked, backward: Walked, ends: map<(Fibre, Point), Joint>, ghost joints: seq<Joint>)
    returns (t: Traced)
    requires |forward.hops| >= 1 && |backward.hops| >= 1
    requires forall g, p :: Get(ends, (g, p)) == EndAt(joints, g, p)
    ensures t == Joined(forward, backward, joints)
  {
    var hops := Turn(backward.hops[1..]) + forward.hops;
    var points := Points(hops);
    t := Traced(if backward.fault.Some? then backward.fault else forward.fault,
                if backward.fault.Some? then backward.at else forward.at,
                hops, points,
                [Get(ends, (hops[0].fibre, points[0])),
                 Get(ends, (hops[|hops|-1].fibre, points[|points|-1]))]);
  }

  predicate Ok(t: Traced) {
    t.fault.None?
  }

  // ---------------------------------------------------------- runs of a plant

  predicate OnCable(pl: Plant, h: Hop) {
    h.fibre.cable in pl.cables
    && var c := pl.cables[h.fibre.cable];
       (h.from == c.a && h.to == c.b) || (h.from == c.b && h.to == c.a)
  }

  /** Hop by hop, each entering by the one splice where the last left. */
  ghost predicate Chain(pl: Plant, hs: seq<Hop>) {
    && |hs| > 0
    && (forall i :: 0 <= i < |hs| ==> OnCable(pl, hs[i]))
    && (forall i :: 0 < i < |hs| ==> Leads(pl, hs[i-1], hs[i]))
  }

  /** One splice, and only one, carries hop `g` on into hop `h`. */
  ghost predicate Leads(pl: Plant, g: Hop, h: Hop) {
    g.to == h.from && Next(pl, g.fibre, g.to) == {h.fibre}
  }

  /** A chain no splice extends at either end. */
  ghost predicate Whole(pl: Plant, hs: seq<Hop>) {
    && Chain(pl, hs)
    && Next(pl, hs[0].fibre, hs[0].from) == {}
    && Next(pl, hs[|hs|-1].fibre, hs[|hs|-1].to) == {}
  }

  ghost predicate Distinct(hs: seq<Hop>) {
    forall i, k :: 0 <= i < k < |hs| ==> hs[i].fibre != hs[k].fibre
  }

  ghost predicate Crosses(hs: seq<Hop>, f: Fibre) {
    exists i :: 0 <= i < |hs| && hs[i].fibre == f
  }

  /** Joint `j` splices f to n at p. */
  predicate SpliceOf(j: Joint, f: Fibre, n: Fibre, p: Point) {
    j.point == p && j.b.Some? && ((j.a == f && j.b.value == n) || (j.b.value == f && j.a == n))
  }

  lemma {:induction false} SplicedMeaning(joints: seq<Joint>, f: Fibre, n: Fibre, p: Point)
    ensures n in Spliced(joints, f, p) <==> exists i :: 0 <= i < |joints| && SpliceOf(joints[i], f, n, p)
  {
    if joints != [] {
      var last := |joints| - 1;
      var init := joints[..last];
      SplicedMeaning(init, f, n, p);
      SpliceMeaning(joints[last], f, n, p);
      hide Splice, SpliceOf;
      assert n in Spliced(joints, f, p) <==> n in Spliced(init, f, p) || SpliceOf(joints[last], f, n, p);
      if i :| 0 <= i < last && SpliceOf(init[i], f, n, p) { assert SpliceOf(joints[i], f, n, p); }
      if i :| 0 <= i < last && SpliceOf(joints[i], f, n, p) { assert SpliceOf(init[i], f, n, p); }
    }
  }

  lemma {:induction false} SpliceMeaning(j: Joint, f: Fibre, n: Fibre, p: Point)
    ensures n in Splice(j, f, p) <==> SpliceOf(j, f, n, p)
  {}

  /** The one joint that splices two cores on a well-formed plant: sound, and the only one to use either. */
  lemma {:induction false} SpliceFound(pl: Plant, f: Fibre, n: Fibre, p: Point) returns (i: nat)
    requires WellFormed(pl) && n in Next(pl, f, p)
    ensures i < |pl.joints| && SpliceOf(pl.joints[i], f, n, p) && SpliceOf(pl.joints[i], n, f, p)
    ensures n != f && FibreEndsAt(pl.cables, f, p) && FibreEndsAt(pl.cables, n, p)
    ensures forall k :: 0 <= k < |pl.joints| && (Holds(pl.joints[k], f, p) || Holds(pl.joints[k], n, p)) ==> k == i
    ensures forall k :: 0 <= k < |pl.joints| ==> !Lands(pl.joints[k], f, p)
  {
    SplicedMeaning(pl.joints, f, n, p);
    i :| 0 <= i < |pl.joints| && SpliceOf(pl.joints[i], f, n, p);
    assert JointSound(pl.joints[i], pl.cables);
    assert Holds(pl.joints[i], f, p) && Holds(pl.joints[i], n, p);
    forall k | 0 <= k < |pl.joints| ensures Lands(pl.joints[k], f, p) ==> Holds(pl.joints[k], f, p) {}
  }

  /** On a well-formed plant the splices match fibre ends in pairs. */
  lemma {:induction false} Matching(pl: Plant, f: Fibre, n: Fibre, p: Point)
    requires WellFormed(pl) && n in Next(pl, f, p)
    ensures n != f && Next(pl, f, p) == {n} && Next(pl, n, p) == {f}
    ensures FibreEndsAt(pl.cables, f, p) && FibreEndsAt(pl.cables, n, p)
    ensures EndAt(pl.joints, f, p) == None
  {
    hide Spliced, EndAt, WellFormed;
    var i := SpliceFound(pl, f, n, p);
    SplicedMeaning(pl.joints, n, f, p);
    assert f in Next(pl, n, p);
    forall m | m in Next(pl, f, p) ensures m == n { SpliceUnique(pl, i, f, n, m, p); }
    forall m | m in Next(pl, n, p) ensures m == f { SpliceUnique(pl, i, n, f, m, p); }
    if EndAt(pl.joints, f, p).Some? {
      var k := EndAtFound(pl.joints, f, p);
    }
  }

  lemma {:induction false} SpliceUnique(pl: Plant, i: nat, f: Fibre, n: Fibre, m: Fibre, p: Point)
    requires WellFormed(pl) && i < |pl.joints| && SpliceOf(pl.joints[i], f, n, p)
    requires m in Spliced(pl.joints, f, p)
    ensures m == n
  {
    SplicedMeaning(pl.joints, f, m, p);
    var k :| 0 <= k < |pl.joints| && SpliceOf(pl.joints[k], f, m, p);
    assert Holds(pl.joints[i], f, p) && Holds(pl.joints[k], f, p);
    assert JointSound(pl.joints[i], pl.cables);
  }

  lemma {:induction false} EndAtFound(joints: seq<Joint>, f: Fibre, p: Point) returns (k: nat)
    requires EndAt(joints, f, p).Some?
    ensures k < |joints| && joints[k] == EndAt(joints, f, p).value && Lands(joints[k], f, p)
    ensures forall i :: k < i < |joints| ==> !Lands(joints[i], f, p)
  {
    k := |joints| - 1;
    if !Lands(joints[k], f, p) {
      k := EndAtFound(joints[..k], f, p);
    }
  }

  lemma {:induction false} NothingLands(joints: seq<Joint>, f: Fibre, p: Point)
    requires EndAt(joints, f, p).None?
    ensures forall i :: 0 <= i < |joints| ==> !Lands(joints[i], f, p)
  {
    if joints != [] { NothingLands(joints[..|joints|-1], f, p); }
  }
}
