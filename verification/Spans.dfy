/**
 `connected_spans`, `connected_points` and `undrawn` of fiber.py: which pairs of boxes the
 glass joins through closures, over which cables, and the sheath worth naming on the way.
 */
module Spans {
  import opened Options
  import Sets

  type Point = int

  // A cable as this answer reads it: any of its id and its two ends may be unrecorded.
  datatype Span = Span(id: Option<int>, a: Option<Point>, b: Option<Point>, cores: int)

  datatype Step = Step(from: Point, to: Point, id: Option<int>)

  datatype Way = Way(sheath: Option<int>, path: seq<int>)

  // The two boxes of an answer, in no order (a two-element frozenset).
  datatype Pair = Pair(lo: Point, hi: Point)

  function Key(a: Point, b: Point): Pair {
    if a <= b then Pair(a, b) else Pair(b, a)
  }

  type Ways = map<Pair, Way>

  // ----------------------------------------------------------------- walking

  predicate Usable(c: Span) {
    c.a.Some? && c.b.Some? && c.a != c.b
  }

  predicate Between(c: Span, p: Point, q: Point) {
    Usable(c) && ((c.a.value == p && c.b.value == q) || (c.b.value == p && c.a.value == q))
  }

  /** Some cable of id `id` runs from p to q. */
  ghost predicate Laid(cables: seq<Span>, p: Point, q: Point, id: Option<int>) {
    exists i :: 0 <= i < |cables| && Between(cables[i], p, q) && cables[i].id == id
  }

  /** A walk over cables from a to b whose inner points all lie in `through`. */
  ghost predicate Walk(cables: seq<Span>, through: set<Point>, steps: seq<Step>, a: Point, b: Point) {
    && |steps| > 0 && steps[0].from == a && steps[|steps|-1].to == b
    && (forall i :: 0 <= i < |steps| ==> Laid(cables, steps[i].from, steps[i].to, steps[i].id))
    && (forall i :: 0 < i < |steps| ==> steps[i].from == steps[i-1].to && steps[i].from in through)
  }

  /** What the map means by two boxes being joined. */
  ghost predicate Joined(cables: seq<Span>, through: set<Point>, a: Point, b: Point) {
    a != b
    && ((exists id :: Laid(cables, a, b, id))
        || (a !in through && b !in through && exists steps :: Walk(cables, through, steps, a, b)))
  }

  function Ids(steps: seq<Step>): seq<int> {
    if steps == [] then []
    else Ids(steps[..|steps|-1]) + (if steps[|steps|-1].id.Some? then [steps[|steps|-1].id.value] else [])
  }

  // ------------------------------------------------------- the bigger sheath

  function CoresOf(cores: map<int, int>, id: int): int {
    if id in cores then cores[id] else 0
  }

  function Bigger(cores: map<int, int>, a: Option<int>, b: Option<int>): Option<int> {
    if a.None? then b
    else if b.None? then a
    else if CoresOf(cores, a.value) != CoresOf(cores, b.value)
    then (if CoresOf(cores, a.value) > CoresOf(cores, b.value) then a else b)
    else if a.value <= b.value then a else b
  }

  function Biggest(cores: map<int, int>, path: seq<int>): Option<int> {
    if path == [] then None else Bigger(cores, Biggest(cores, path[..|path|-1]), Some(path[|path|-1]))
  }

  /** The sheath is the cable with most cores on the path, and of those the lowest id. */
  lemma {:induction false} BiggestIs(cores: map<int, int>, path: seq<int>)
    ensures Biggest(cores, path).None? <==> path == []
    ensures path != [] ==>
      var m := Biggest(cores, path).value;
      m in path && forall x :: x in path ==>
        CoresOf(cores, x) < CoresOf(cores, m) || (CoresOf(cores, x) == CoresOf(cores, m) && m <= x)
  {
    if path != [] {
      var init := path[..|path|-1];
      BiggestIs(cores, init);
      assert path == init + [path[|path|-1]];
    }
  }

  predicate Beats(cores: map<int, int>, sheath: Option<int>, id: Option<int>) {
    Bigger(cores, sheath, id) == sheath
  }

  // ------------------------------------------------------------- the answers

  /** An answer for a pair: a real walk between its two points, all its cables, the biggest named. */
  ghost predicate Sound(cables: seq<Span>, through: set<Point>, cores: map<int, int>, key: Pair, w: Way) {
    exists a, b, steps :: Answers(cables, through, cores, key, w, a, b, steps)
  }

  ghost predicate Answers(cables: seq<Span>, through: set<Point>, cores: map<int, int>, key: Pair, w: Way,
                          a: Point, b: Point, steps: seq<Step>)
  {
    && key == Key(a, b) && a != b && Walk(cables, through, steps, a, b)
    && (|steps| == 1 || (a !in through && b !in through))
    && w.path == Ids(steps) && w.sheath == Biggest(cores, w.path)
  }

  ghost predicate AllSound(cables: seq<Span>, through: set<Point>, cores: map<int, int>, out: Ways) {
    forall key :: key in out ==> Sound(cables, through, cores, key, out[key])
  }

  /** The sheath kept for a pair is no smaller than any cable laid straight between the two. */
  ghost predicate BeatsDirect(cables: seq<Span>, cores: map<int, int>, out: Ways) {
    forall i, a, b :: 0 <= i < |cables| && Between(cables[i], a, b) ==>
      Key(a, b) in out && Beats(cores, out[Key(a, b)].sheath, cables[i].id)
  }

  function Offer(cores: map<int, int>, out: Ways, key: Pair, sheath: Option<int>, path: seq<int>): Ways {
    if key !in out then out[key := Way(sheath, path)]
    else if Bigger(cores, out[key].sheath, sheath) == sheath && sheath != out[key].sheath then out[key := Way(sheath, path)]
    else out
  }

  lemma OfferIs(cores: map<int, int>, out: Ways, key: Pair, sheath: Option<int>, path: seq<int>)
    ensures
      var after := Offer(cores, out, key, sheath, path);
      && after.Keys == out.Keys + {key}
      && (after[key] == Way(sheath, path) || (key in out && after[key] == out[key]))
      && Beats(cores, after[key].sheath, sheath)
      && (key in out ==> Beats(cores, after[key].sheath, out[key].sheath))
      && (forall k :: k in out && k != key ==> after[k] == out[k])
  {
  }

  lemma BeatsChain(cores: map<int, int>, x: Option<int>, y: Option<int>, z: Option<int>)
    requires Beats(cores, x, y) && Beats(cores, y, z)
    ensures Beats(cores, x, z)
  {
  }

  // --------------------------------------------------------------- adjacency

  type Adjacency = map<Point, seq<(Point, Option<int>)>>

  ghost predicate Lists(adjacency: Adjacency, p: Point, q: Point, id: Option<int>) {
    p in adjacency && (q, id) in adjacency[p]
  }

  ghost predicate Adjoins(cables: seq<Span>, adjacency: Adjacency) {
    forall p, q, id :: Lists(adjacency, p, q, id) <==> Laid(cables, p, q, id)
  }

  function Append(adjacency: Adjacency, p: Point, q: Point, id: Option<int>): Adjacency {
    adjacency[p := (if p in adjacency then adjacency[p] else []) + [(q, id)]]
  }

  lemma AppendLists(adjacency: Adjacency, a: Point, b: Point, id: Option<int>, p: Point, q: Point, x: Option<int>)
    ensures Lists(Append(adjacency, a, b, id), p, q, x)
            <==> Lists(adjacency, p, q, x) || (p == a && q == b && x == id)
  {
    if p == a && a in adjacency {
      assert forall y :: y in adjacency[a] + [(b, id)] <==> y in adjacency[a] || y == (b, id);
    }
  }

  lemma LaidSnoc(cables: seq<Span>, i: nat, p: Point, q: Point, id: Option<int>)
    requires i < |cables|
    ensures Laid(cables[..i+1], p, q, id)
            <==> Laid(cables[..i], p, q, id) || (Between(cables[i], p, q) && cables[i].id == id)
  {
    var all, init := cables[..i+1], cables[..i];
    if Laid(init, p, q, id) {
      var k :| 0 <= k < |init| && Between(init[k], p, q) && init[k].id == id;
      assert all[k] == init[k];
    }
    if Laid(all, p, q, id) {
      var k :| 0 <= k < |all| && Between(all[k], p, q) && all[k].id == id;
      if k < i { assert init[k] == all[k]; }
    }
    assert all[i] == cables[i];
  }

  // -------------------------------------------------- cables, taken directly

  ghost predicate UniqueIds(cables: seq<Span>) {
    forall i, k :: 0 <= i < k < |cables| && cables[i].id.Some? ==> cables[i].id != cables[k].id
  }

  /** The core counts the cables leave behind, cable by cable. */
  function CoreMap(cables: seq<Span>): map<int, int> {
    if cables == [] then map[]
    else
      var c := cables[|cables|-1];
      var rest := CoreMap(cables[..|cables|-1]);
      if Usable(c) && c.id.Some? then rest[c.id.value := c.cores] else rest
  }

  ghost predicate Carries(cables: seq<Span>, i: nat, id: Option<int>) {
    id.Some? ==> exists k :: 0 <= k < i && k < |cables| && Usable(cables[k]) && cables[k].id == id
  }

  lemma {:induction false} CoreMapHas(cables: seq<Span>, n: nat, k: nat)
    requires UniqueIds(cables) && k < n <= |cables| && Usable(cables[k]) && cables[k].id.Some?
    ensures cables[k].id.value in CoreMap(cables[..n]) && CoreMap(cables[..n])[cables[k].id.value] == cables[k].cores
  {
    assert cables[..n][..n-1] == cables[..n-1];
    if k < n - 1 {
      CoreMapHas(cables, n - 1, k);
    }
  }

  /** While cables are still being read, sheaths already read compare as they always will. */
  lemma {:induction false} BiggerEarly(cables: seq<Span>, n: nat, x: Option<int>, y: Option<int>)
    requires UniqueIds(cables) && n <= |cables| && Carries(cables, n, x) && Carries(cables, n, y)
    ensures Bigger(CoreMap(cables[..n]), x, y) == Bigger(CoreMap(cables), x, y)
  {
    assert cables[..|cables|] == cables;
    if x.Some? {
      var k :| 0 <= k < n && Usable(cables[k]) && cables[k].id == x;
      CoreMapHas(cables, n, k);
      CoreMapHas(cables, |cables|, k);
    }
    if y.Some? {
      var k :| 0 <= k < n && Usable(cables[k]) && cables[k].id == y;
      CoreMapHas(cables, n, k);
      CoreMapHas(cables, |cables|, k);
    }
  }

  /** The answers after reading the first `n` cables: one straight cable a pair, the biggest. */
  ghost predicate Straight(cables: seq<Span>, n: nat, cores: map<int, int>, out: Ways) {
    && n <= |cables|
    && (forall key :: key in out ==> exists k, a, b :: 0 <= k < n && OneCable(cables[k], a, b, key, out[key]))
    && (forall i, a, b :: 0 <= i < n && Between(cables[i], a, b) ==>
          Key(a, b) in out && Beats(cores, out[Key(a, b)].sheath, cables[i].id))
  }

  predicate OneCable(c: Span, a: Point, b: Point, key: Pair, w: Way) {
    Between(c, a, b) && key == Key(a, b) && w == Alone(c.id)
  }

  function Alone(id: Option<int>): Way {
    Way(id, if id.Some? then [id.value] else [])
  }

  lemma {:induction false} StraightStep(cables: seq<Span>, n: nat, out: Ways)
    requires UniqueIds(cables) && n < |cables| && Straight(cables, n, CoreMap(cables), out)
    ensures !Usable(cables[n]) ==> Straight(cables, n + 1, CoreMap(cables), out)
    ensures Usable(cables[n]) ==>
      var c := cables[n];
      Straight(cables, n + 1, CoreMap(cables),
               Offer(CoreMap(cables[..n+1]), out, Key(c.a.value, c.b.value), c.id, Alone(c.id).path))
  {
    hide Straight, Offer, CoreMap, UniqueIds;
    if Usable(cables[n]) {
      OfferEarly(cables, n, out);
      OfferKeepsStraight(cables, n, CoreMap(cables), out);
    } else {
      SkipKeepsStraight(cables, n, CoreMap(cables), out);
    }
  }

  lemma SkipKeepsStraight(cables: seq<Span>, n: nat, cores: map<int, int>, out: Ways)
    requires n < |cables| && !Usable(cables[n]) && Straight(cables, n, cores, out)
    ensures Straight(cables, n + 1, cores, out)
  {
    forall key | key in out ensures exists k, a, b :: 0 <= k < n + 1 && OneCable(cables[k], a, b, key, out[key]) {
      var k, a, b :| 0 <= k < n && OneCable(cables[k], a, b, key, out[key]);
    }
  }

  lemma {:induction false} OfferEarly(cables: seq<Span>, n: nat, out: Ways)
    requires UniqueIds(cables) && n < |cables| && Usable(cables[n]) && Straight(cables, n, CoreMap(cables), out)
    ensures
      var c := cables[n];
      var key := Key(c.a.value, c.b.value);
      Offer(CoreMap(cables[..n+1]), out, key, c.id, Alone(c.id).path)
      == Offer(CoreMap(cables), out, key, c.id, Alone(c.id).path)
  {
    hide UniqueIds, CoreMap, Bigger;
    var c := cables[n];
    var key := Key(c.a.value, c.b.value);
    if key in out {
      var k, a, b :| 0 <= k < n && OneCable(cables[k], a, b, key, out[key]);
      assert Usable(cables[k]) && cables[k].id == out[key].sheath;
      BiggerEarly(cables, n + 1, out[key].sheath, c.id);
    }
  }

  lemma OfferKeepsStraight(cables: seq<Span>, n: nat, cores: map<int, int>, out: Ways)
    requires n < |cables| && Usable(cables[n]) && Straight(cables, n, cores, out)
    ensures
      var c := cables[n];
      Straight(cables, n + 1, cores, Offer(cores, out, Key(c.a.value, c.b.value), c.id, Alone(c.id).path))
  {
    hide Bigger, Offer;
    var c := cables[n];
    var key := Key(c.a.value, c.b.value);
    var after := Offer(cores, out, key, c.id, Alone(c.id).path);
    OfferIs(cores, out, key, c.id, Alone(c.id).path);
    forall k | k in after ensures exists i, a, b :: 0 <= i < n + 1 && OneCable(cables[i], a, b, k, after[k]) {
      if k == key && after[k] == Alone(c.id) {
        assert OneCable(cables[n], c.a.value, c.b.value, k, after[k]);
      } else {
        var i, a, b :| 0 <= i < n && OneCable(cables[i], a, b, k, out[k]);
      }
    }
    forall i, a, b | 0 <= i < n + 1 && Between(cables[i], a, b)
      ensures Key(a, b) in after && Beats(cores, after[Key(a, b)].sheath, cables[i].id)
    {
      if i < n && Key(a, b) == key {
        BeatsChain(cores, after[key].sheath, out[key].sheath, cables[i].id);
      }
    }
  }

  method ReadCables(cables: seq<Span>) returns (cores: map<int, int>, adjacency: Adjacency, out: Ways)
    requires UniqueIds(cables)
    ensures cores == CoreMap(cables) && Adjoins(cables, adjacency) && Straight(cables, |cables|, cores, out)
  {
    cores, adjacency, out := map[], map[], map[];
    for i := 0 to |cables|
      invariant cores == CoreMap(cables[..i])
      invariant Adjoins(cables[..i], adjacency)
      invariant Straight(cables, i, CoreMap(cables), out)
    {
      var c := cables[i];
      assert cables[..i+1][..i] == cables[..i];
      StraightStep(cables, i, out);
      AdjoinsStep(cables, i, adjacency);
      if Usable(c) {
        if c.id.Some? {
          cores := cores[c.id.value := c.cores];
        }
        adjacency := Append(adjacency, c.a.value, c.b.value, c.id);
        adjacency := Append(adjacency, c.b.value, c.a.value, c.id);
        out := Offer(cores, out, Key(c.a.value, c.b.value), c.id, if c.id.Some? then [c.id.value] else []);
      }
    }
    assert cables[..|cables|] == cables;
  }

  /** The adjacency after one more cable. */
  function Adjoined(adjacency: Adjacency, c: Span): Adjacency {
    if Usable(c) then Append(Append(adjacency, c.a.value, c.b.value, c.id), c.b.value, c.a.value, c.id)
    else adjacency
  }

  lemma AdjoinsStep(cables: seq<Span>, i: nat, adjacency: Adjacency)
    requires i < |cables| && Adjoins(cables[..i], adjacency)
    ensures Adjoins(cables[..i+1], Adjoined(adjacency, cables[i]))
  {
    var c, after := cables[i], Adjoined(adjacency, cables[i]);
    forall p, q, id ensures Lists(after, p, q, id) <==> Laid(cables[..i+1], p, q, id) {
      LaidSnoc(cables, i, p, q, id);
      if Usable(c) {
        AppendLists(adjacency, c.a.value, c.b.value, c.id, p, q, id);
        AppendLists(Append(adjacency, c.a.value, c.b.value, c.id), c.b.value, c.a.value, c.id, p, q, id);
      }
    }
  }

  // ------------------------------------------------ through the closures

  datatype Entry = Entry(here: Point, carried: Option<int>, walked: seq<int>)

  /** How a search entry was come by: the walk that led to it, its cables and their biggest. */
  ghost predicate CameBy(cables: seq<Span>, through: set<Point>, cores: map<int, int>, start: Point, e: Entry, way: seq<Step>) {
    && e.walked == Ids(way) && e.carried == Biggest(cores, e.walked)
    && if way == [] then e.here == start
       else Walk(cables, through, way, start, e.here) && e.here in through
  }

  /** The search from `start`: sound so far, and every box met outside `through` answered. */
  ghost predicate Searching(cables: seq<Span>, through: set<Point>, cores: map<int, int>, start: Point,
                            seen: set<Point>, frontier: seq<Entry>, ways: seq<seq<Step>>, out: Ways)
  {
    && start in seen && start !in through && |ways| == |frontier|
    && (forall i :: 0 <= i < |frontier| ==>
          frontier[i].here in seen && CameBy(cables, through, cores, start, frontier[i], ways[i]))
    && AllSound(cables, through, cores, out) && BeatsDirect(cables, cores, out)
    && (forall b :: b in seen && b !in through && b != start ==> Key(start, b) in out)
  }

  /** Every point the light may leave again has been left, or still waits on the frontier. */
  ghost predicate Left(cables: seq<Span>, through: set<Point>, start: Point, seen: set<Point>, waiting: set<Point>) {
    forall p, q, id :: p in seen && (p == start || p in through) && p !in waiting && Laid(cables, p, q, id) ==> q in seen
  }

  ghost function Waiting(frontier: seq<Entry>): set<Point> {
    set i | 0 <= i < |frontier| :: frontier[i].here
  }

  lemma {:induction false} WalkOn(cables: seq<Span>, through: set<Point>, cores: map<int, int>, start: Point, e: Entry, way: seq<Step>,
               q: Point, id: Option<int>)
    requires CameBy(cables, through, cores, start, e, way) && Laid(cables, e.here, q, id)
    ensures
      var on := way + [Step(e.here, q, id)];
      var walked := if id.None? then e.walked else e.walked + [id.value];
      && Walk(cables, through, on, start, q)
      && Ids(on) == walked && Bigger(cores, e.carried, id) == Biggest(cores, walked)
  {
    var on := way + [Step(e.here, q, id)];
    assert on[..|on|-1] == way;
    forall i | 0 < i < |on| ensures on[i].from == on[i-1].to && on[i].from in through {
      if i < |way| { assert on[i] == way[i] && on[i-1] == way[i-1]; }
    }
    if id.Some? {
      assert (e.walked + [id.value])[..|e.walked|] == e.walked;
    }
  }

  lemma OfferSound(cables: seq<Span>, through: set<Point>, cores: map<int, int>, out: Ways,
                   a: Point, b: Point, steps: seq<Step>, sheath: Option<int>, path: seq<int>)
    requires AllSound(cables, through, cores, out) && BeatsDirect(cables, cores, out)
    requires Answers(cables, through, cores, Key(a, b), Way(sheath, path), a, b, steps)
    ensures
      var after := Offer(cores, out, Key(a, b), sheath, path);
      && AllSound(cables, through, cores, after) && BeatsDirect(cables, cores, after)
      && after.Keys == out.Keys + {Key(a, b)}
  {
    hide Answers, Bigger;
    var key := Key(a, b);
    var after := Offer(cores, out, key, sheath, path);
    OfferIs(cores, out, key, sheath, path);
    forall k | k in after ensures Sound(cables, through, cores, k, after[k]) {
      if k == key && after[k] == Way(sheath, path) {
        assert Answers(cables, through, cores, k, after[k], a, b, steps);
      } else {
        assert Sound(cables, through, cores, k, out[k]);
      }
    }
    forall i, p, q | 0 <= i < |cables| && Between(cables[i], p, q)
      ensures Key(p, q) in after && Beats(cores, after[Key(p, q)].sheath, cables[i].id)
    {
      if Key(p, q) == key {
        BeatsChain(cores, after[key].sheath, out[key].sheath, cables[i].id);
      }
    }
  }

  /** One neighbour met: an answer if it is a box, one more place to go on from if a closure. */
  method Meet(ghost cables: seq<Span>, through: set<Point>, cores: map<int, int>, start: Point, e: Entry,
              ghost way: seq<Step>, q: Point, id: Option<int>, seen0: set<Point>, frontier0: seq<Entry>,
              ghost ways0: seq<seq<Step>>, out0: Ways)
    returns (seen: set<Point>, frontier: seq<Entry>, ghost ways: seq<seq<Step>>, out: Ways)
    requires Searching(cables, through, cores, start, seen0, frontier0, ways0, out0)
    requires CameBy(cables, through, cores, start, e, way) && Laid(cables, e.here, q, id)
    ensures Searching(cables, through, cores, start, seen, frontier, ways, out)
    ensures seen == seen0 + {q} && out0.Keys <= out.Keys
    ensures q in seen0 ==> frontier == frontier0
    ensures q !in seen0 ==> frontier == frontier0 || (|frontier| > 0 && frontier[..|frontier|-1] == frontier0
                                                      && frontier[|frontier|-1].here == q)
    ensures q !in seen0 && q in through ==> q in Waiting(frontier)
  {
    seen, frontier, ways, out := seen0 + {q}, frontier0, ways0, out0;
    if q !in seen0 {
      WalkOn(cables, through, cores, start, e, way, q, id);
      ghost var on := way + [Step(e.here, q, id)];
      var best := Bigger(cores, e.carried, id);
      var run := if id.None? then e.walked else e.walked + [id.value];
      if q in through {
        frontier := frontier + [Entry(q, best, run)];
        ways := ways + [on];
        assert frontier[|frontier|-1].here == q;
      } else {
        assert Answers(cables, through, cores, Key(start, q), Way(best, run), start, q, on);
        OfferSound(cables, through, cores, out, start, q, on, best, run);
        out := Offer(cores, out, Key(start, q), best, run);
      }
    }
  }

  lemma MeetKeepsLeft(cables: seq<Span>, through: set<Point>, start: Point, here: Point, q: Point,
                      seen0: set<Point>, frontier0: seq<Entry>, frontier: seq<Entry>)
    requires Left(cables, through, start, seen0, Waiting(frontier0) + {here})
    requires start in seen0
    requires q in seen0 ==> frontier == frontier0
    requires q !in seen0 ==> frontier == frontier0 || (|frontier| > 0 && frontier[..|frontier|-1] == frontier0
                                                       && frontier[|frontier|-1].here == q)
    requires q !in seen0 && q in through ==> q in Waiting(frontier)
    ensures Left(cables, through, start, seen0 + {q}, Waiting(frontier) + {here})
  {
    forall p | p in Waiting(frontier0) ensures p in Waiting(frontier) {
      var i :| 0 <= i < |frontier0| && frontier0[i].here == p;
      assert frontier[i] == frontier0[i];
    }
  }

  /** All the neighbours of one point, met in turn. */
  method MeetAll(ghost cables: seq<Span>, adjacency: Adjacency, through: set<Point>, cores: map<int, int>, start: Point,
                 e: Entry, ghost way: seq<Step>, seen0: set<Point>, frontier0: seq<Entry>, ghost ways0: seq<seq<Step>>,
                 out0: Ways)
    returns (seen: set<Point>, frontier: seq<Entry>, ghost ways: seq<seq<Step>>, out: Ways)
    requires Adjoins(cables, adjacency)
    requires Searching(cables, through, cores, start, seen0, frontier0, ways0, out0)
    requires CameBy(cables, through, cores, start, e, way)
    requires Left(cables, through, start, seen0, Waiting(frontier0) + {e.here})
    ensures Searching(cables, through, cores, start, seen, frontier, ways, out)
    ensures Left(cables, through, start, seen, Waiting(frontier))
    ensures out0.Keys <= out.Keys && seen0 <= seen
    ensures frontier == frontier0 || exists q :: q in adjacency && q in seen && q !in seen0
  {
    hide Searching, CameBy, Left;
    seen, frontier, ways, out := seen0, frontier0, ways0, out0;
    var neighbours := if e.here in adjacency then adjacency[e.here] else [];
    for j := 0 to |neighbours|
      invariant Searching(cables, through, cores, start, seen, frontier, ways, out)
      invariant Left(cables, through, start, seen, Waiting(frontier) + {e.here})
      invariant out0.Keys <= out.Keys && seen0 <= seen
      invariant frontier == frontier0 || exists q :: q in adjacency && q in seen && q !in seen0
      invariant forall k :: 0 <= k < j ==> neighbours[k].0 in seen
    {
      var (q, id) := neighbours[j];
      assert Lists(adjacency, e.here, q, id);
      LaidBothWays(cables, e.here, q, id);
      assert Lists(adjacency, q, e.here, id);
      StartSeen(cables, through, cores, start, seen, frontier, ways, out);
      ghost var seen1, frontier1 := seen, frontier;
      seen, frontier, ways, out := Meet(cables, through, cores, start, e, way, q, id, seen, frontier, ways, out);
      MeetKeepsLeft(cables, through, start, e.here, q, seen1, frontier1, frontier);
    }
    NowLeft(cables, adjacency, through, start, e.here, seen, Waiting(frontier));
  }

  lemma StartSeen(cables: seq<Span>, through: set<Point>, cores: map<int, int>, start: Point,
                  seen: set<Point>, frontier: seq<Entry>, ways: seq<seq<Step>>, out: Ways)
    requires Searching(cables, through, cores, start, seen, frontier, ways, out)
    ensures start in seen
  {
  }

  lemma NowLeft(cables: seq<Span>, adjacency: Adjacency, through: set<Point>, start: Point, here: Point,
                seen: set<Point>, waiting: set<Point>)
    requires Adjoins(cables, adjacency) && Left(cables, through, start, seen, waiting + {here})
    requires forall k :: 0 <= k < |if here in adjacency then adjacency[here] else []| ==> adjacency[here][k].0 in seen
    ensures Left(cables, through, start, seen, waiting)
  {
    forall q, id | Laid(cables, here, q, id) ensures q in seen {
      assert Lists(adjacency, here, q, id);
      var k :| 0 <= k < |adjacency[here]| && adjacency[here][k] == (q, id);
    }
  }

  lemma LaidBothWays(cables: seq<Span>, p: Point, q: Point, id: Option<int>)
    requires Laid(cables, p, q, id)
    ensures Laid(cables, q, p, id)
  {
    var i :| 0 <= i < |cables| && Between(cables[i], p, q) && cables[i].id == id;
    assert Between(cables[i], q, p);
  }

  /** The pairs one start answers for. */
  ghost predicate StartDone(cables: seq<Span>, through: set<Point>, start: Point, out: Ways) {
    forall b, steps :: b !in through && b != start && Walk(cables, through, steps, start, b) ==> Key(start, b) in out
  }

  lemma {:induction false} WalkIsSeen(cables: seq<Span>, through: set<Point>, start: Point, seen: set<Point>,
                                      steps: seq<Step>, b: Point)
    requires start in seen && Left(cables, through, start, seen, {})
    requires Walk(cables, through, steps, start, b)
    ensures b in seen
    decreases |steps|
  {
    var last := steps[|steps|-1];
    if |steps| > 1 {
      assert Walk(cables, through, steps[..|steps|-1], start, last.from);
      WalkIsSeen(cables, through, start, seen, steps[..|steps|-1], last.from);
    }
    assert Laid(cables, last.from, b, last.id);
  }

  lemma SearchOver(cables: seq<Span>, through: set<Point>, cores: map<int, int>, start: Point,
                   seen: set<Point>, ways: seq<seq<Step>>, out: Ways)
    requires Searching(cables, through, cores, start, seen, [], ways, out)
    requires Left(cables, through, start, seen, {})
    ensures StartDone(cables, through, start, out)
    ensures AllSound(cables, through, cores, out) && BeatsDirect(cables, cores, out)
  {
    forall b, steps | b !in through && b != start && Walk(cables, through, steps, start, b) ensures Key(start, b) in out {
      WalkIsSeen(cables, through, start, seen, steps, b);
    }
  }

  lemma SearchStarts(cables: seq<Span>, through: set<Point>, cores: map<int, int>, start: Point, out: Ways)
    requires AllSound(cables, through, cores, out) && BeatsDirect(cables, cores, out) && start !in through
    ensures Searching(cables, through, cores, start, {start}, [Entry(start, None, [])], [[]], out)
    ensures Left(cables, through, start, {start}, Waiting([Entry(start, None, [])]))
  {
    assert [Entry(start, None, [])][0].here == start;
  }

  lemma Pop(cables: seq<Span>, through: set<Point>, cores: map<int, int>, start: Point,
            seen: set<Point>, frontier: seq<Entry>, ways: seq<seq<Step>>, out: Ways)
    requires Searching(cables, through, cores, start, seen, frontier, ways, out) && |frontier| > 0
    requires Left(cables, through, start, seen, Waiting(frontier))
    ensures
      var n := |frontier| - 1;
      && |ways| == |frontier|
      && Searching(cables, through, cores, start, seen, frontier[..n], ways[..n], out)
      && CameBy(cables, through, cores, start, frontier[n], ways[n])
      && Left(cables, through, start, seen, Waiting(frontier[..n]) + {frontier[n].here})
  {
    var n := |frontier| - 1;
    forall p | p in Waiting(frontier) ensures p in Waiting(frontier[..n]) + {frontier[n].here} {
      var i :| 0 <= i < |frontier| && frontier[i].here == p;
      if i < n { assert frontier[..n][i].here == p; }
    }
  }

  method Explore(ghost cables: seq<Span>, adjacency: Adjacency, through: set<Point>, cores: map<int, int>, start: Point,
                 out0: Ways) returns (out: Ways)
    requires Adjoins(cables, adjacency) && start !in through
    requires AllSound(cables, through, cores, out0) && BeatsDirect(cables, cores, out0)
    ensures AllSound(cables, through, cores, out) && BeatsDirect(cables, cores, out)
    ensures StartDone(cables, through, start, out) && out0.Keys <= out.Keys
  {
    hide Searching, Left, Adjoins, AllSound, BeatsDirect, StartDone, Waiting, CameBy;
    var seen := {start};
    var frontier := [Entry(start, None, [])];
    ghost var ways: seq<seq<Step>> := [[]];
    out := out0;
    SearchStarts(cables, through, cores, start, out);
    while frontier != []
      invariant Searching(cables, through, cores, start, seen, frontier, ways, out)
      invariant Left(cables, through, start, seen, Waiting(frontier))
      invariant out0.Keys <= out.Keys
      decreases adjacency.Keys - seen, |frontier|
    {
      Pop(cables, through, cores, start, seen, frontier, ways, out);
      var n := |frontier| - 1;
      var e := frontier[n];
      ghost var before := seen;
      seen, frontier, ways, out := MeetAll(cables, adjacency, through, cores, start, e, ways[n], seen, frontier[..n],
                                           ways[..n], out);
      if q :| q in adjacency && q in seen && q !in before {
        assert q in adjacency.Keys - before && q !in adjacency.Keys - seen;
      }
    }
    NoneWaiting();
    SearchOver(cables, through, cores, start, seen, ways, out);
  }

  lemma NoneWaiting()
    ensures Waiting([]) == {}
  {
  }

  method ConnectedSpans(cables: seq<Span>, through: set<Point>) returns (out: Ways)
    requires UniqueIds(cables)
    ensures forall key :: key in out ==> Sound(cables, through, CoreMap(cables), key, out[key])
    ensures forall a, b :: a != b ==> (Key(a, b) in out <==> Joined(cables, through, a, b))
    ensures forall i, a, b :: 0 <= i < |cables| && Between(cables[i], a, b) ==>
              Key(a, b) in out && Beats(CoreMap(cables), out[Key(a, b)].sheath, cables[i].id)
  {
    var cores, adjacency;
    cores, adjacency, out := ReadCables(cables);
    StraightIsSound(cables, through, cores, out);
    var left := adjacency.Keys;
    ghost var done: set<Point> := {};
    while left != {}
      invariant left <= adjacency.Keys && done == adjacency.Keys - left
      invariant AllSound(cables, through, cores, out) && BeatsDirect(cables, cores, out)
      invariant forall s :: s in done && s !in through ==> StartDone(cables, through, s, out)
      decreases left
    {
      var start := Sets.Any(left);
      left := left - {start};
      if start !in through {
        ghost var was := out;
        out := Explore(cables, adjacency, through, cores, start, out);
        forall s | s in done && s !in through ensures StartDone(cables, through, s, out) {
          assert StartDone(cables, through, s, was);
        }
      }
      done := done + {start};
    }
    JoinedIsKept(cables, adjacency, through, cores, out);
  }

  lemma StraightIsSound(cables: seq<Span>, through: set<Point>, cores: map<int, int>, out: Ways)
    requires Straight(cables, |cables|, cores, out)
    ensures AllSound(cables, through, cores, out) && BeatsDirect(cables, cores, out)
  {
    forall key | key in out ensures Sound(cables, through, cores, key, out[key]) {
      var k, a, b :| 0 <= k < |cables| && OneCable(cables[k], a, b, key, out[key]);
      var steps := [Step(a, b, cables[k].id)];
      assert Laid(cables, a, b, cables[k].id);
      assert Walk(cables, through, steps, a, b);
      AloneIs(cores, a, b, cables[k].id);
      assert Answers(cables, through, cores, key, out[key], a, b, steps);
    }
  }

  lemma {:induction false} AloneIs(cores: map<int, int>, a: Point, b: Point, id: Option<int>)
    ensures Ids([Step(a, b, id)]) == Alone(id).path && Biggest(cores, Alone(id).path) == Alone(id).sheath
  {
    assert [Step(a, b, id)][..0] == [];
    assert Ids([]) == [];
  }

  lemma KeyIs(a: Point, b: Point, p: Point, q: Point)
    requires Key(a, b) == Key(p, q)
    ensures (a == p && b == q) || (a == q && b == p)
  {
  }

  lemma {:induction false} WalkBack(cables: seq<Span>, through: set<Point>, steps: seq<Step>, a: Point, b: Point)
    returns (back: seq<Step>)
    requires Walk(cables, through, steps, a, b)
    ensures Walk(cables, through, back, b, a) && |back| == |steps|
  {
    back := seq(|steps|, i requires 0 <= i < |steps| =>
      var s := steps[|steps|-1-i]; Step(s.to, s.from, s.id));
    forall i | 0 <= i < |back| ensures Laid(cables, back[i].from, back[i].to, back[i].id) {
      var s := steps[|steps|-1-i];
      LaidBothWays(cables, s.from, s.to, s.id);
    }
    forall i | 0 < i < |back| ensures back[i].from == back[i-1].to && back[i].from in through {
      assert steps[|steps|-i].from == steps[|steps|-1-i].to;
    }
  }

  lemma JoinedIsKept(cables: seq<Span>, adjacency: Adjacency, through: set<Point>, cores: map<int, int>, out: Ways)
    requires Adjoins(cables, adjacency)
    requires AllSound(cables, through, cores, out) && BeatsDirect(cables, cores, out)
    requires forall s :: s in adjacency && s !in through ==> StartDone(cables, through, s, out)
    ensures forall a, b :: a != b ==> (Key(a, b) in out <==> Joined(cables, through, a, b))
  {
    forall a, b | a != b ensures Key(a, b) in out <==> Joined(cables, through, a, b) {
      if Key(a, b) in out {
        KeptIsJoined(cables, through, cores, out, a, b);
      }
      if Joined(cables, through, a, b) {
        JoinedHasKey(cables, adjacency, through, cores, out, a, b);
      }
    }
  }

  lemma KeptIsJoined(cables: seq<Span>, through: set<Point>, cores: map<int, int>, out: Ways, a: Point, b: Point)
    requires AllSound(cables, through, cores, out) && Key(a, b) in out
    ensures Joined(cables, through, a, b)
  {
    var p, q, steps :| Answers(cables, through, cores, Key(a, b), out[Key(a, b)], p, q, steps);
    KeyIs(a, b, p, q);
    AnswerJoins(cables, through, steps, p, q);
    JoinedBothWays(cables, through, p, q);
  }

  lemma JoinedHasKey(cables: seq<Span>, adjacency: Adjacency, through: set<Point>, cores: map<int, int>, out: Ways,
                     a: Point, b: Point)
    requires Adjoins(cables, adjacency) && BeatsDirect(cables, cores, out)
    requires forall s :: s in adjacency && s !in through ==> StartDone(cables, through, s, out)
    requires Joined(cables, through, a, b)
    ensures Key(a, b) in out
  {
    if id :| Laid(cables, a, b, id) {
      var i :| 0 <= i < |cables| && Between(cables[i], a, b) && cables[i].id == id;
    } else {
      var steps: seq<Step> :| Walk(cables, through, steps, a, b);
      assert Laid(cables, a, steps[0].to, steps[0].id);
      assert Lists(adjacency, a, steps[0].to, steps[0].id);
      assert StartDone(cables, through, a, out);
    }
  }

  lemma AnswerJoins(cables: seq<Span>, through: set<Point>, steps: seq<Step>, p: Point, q: Point)
    requires p != q && Walk(cables, through, steps, p, q)
    requires |steps| == 1 || (p !in through && q !in through)
    ensures Joined(cables, through, p, q)
  {
    if |steps| == 1 { assert Laid(cables, p, q, steps[0].id); }
  }

  lemma JoinedBothWays(cables: seq<Span>, through: set<Point>, p: Point, q: Point)
    requires Joined(cables, through, p, q)
    ensures Joined(cables, through, q, p)
  {
    if id :| Laid(cables, p, q, id) {
      LaidBothWays(cables, p, q, id);
    } else {
      var steps :| Walk(cables, through, steps, p, q);
      var back := WalkBack(cables, through, steps, p, q);
    }
  }

  method ConnectedPoints(cables: seq<Span>, through: set<Point>) returns (pairs: set<Pair>)
    requires UniqueIds(cables)
    ensures forall a, b :: a != b ==> (Key(a, b) in pairs <==> Joined(cables, through, a, b))
  {
    var out := ConnectedSpans(cables, through);
    pairs := out.Keys;
  }

  type Declared = (Option<Point>, Option<Point>)

  /** A declared edge is worth drawing: two different boxes the glass does not join. */
  ghost predicate Missing(cables: seq<Span>, through: set<Point>, d: Declared) {
    d.0.Some? && d.1.Some? && d.0 != d.1 && !Joined(cables, through, d.0.value, d.1.value)
  }

  function PairOf(d: Declared): Pair
    requires d.0.Some? && d.1.Some?
  {
    Key(d.0.value, d.1.value)
  }

  /** The missing ones among the first `n`, each pair at its first mention. */
  ghost function FirstMissing(cables: seq<Span>, through: set<Point>, declared: seq<Declared>): seq<Declared> {
    if declared == [] then []
    else
      var n := |declared| - 1;
      var rest := FirstMissing(cables, through, declared[..n]);
      if Missing(cables, through, declared[n])
         && forall k :: 0 <= k < n && Missing(cables, through, declared[k]) ==> PairOf(declared[k]) != PairOf(declared[n])
      then rest + [declared[n]] else rest
  }

  method Undrawn(declared: seq<Declared>, cables: seq<Span>, through: set<Point>) returns (out: seq<Declared>)
    requires UniqueIds(cables)
    ensures out == FirstMissing(cables, through, declared)
  {
    var have := ConnectedPoints(cables, through);
    var seen: set<Pair> := {};
    out := [];
    for i := 0 to |declared|
      invariant out == FirstMissing(cables, through, declared[..i])
      invariant forall p :: p in seen <==> exists k :: 0 <= k < i && Missing(cables, through, declared[k]) && PairOf(declared[k]) == p
    {
      assert declared[..i+1][..i] == declared[..i];
      var (a, b) := declared[i];
      if a.Some? && b.Some? && a != b {
        var pair := Key(a.value, b.value);
        if pair !in have && pair !in seen {
          seen := seen + {pair};
          out := out + [(a, b)];
        }
      }
    }
    assert declared[..|declared|] == declared;
  }

  /** The same two boxes, in whichever order. */
  predicate SameBoxes(d: Declared, e: Declared) {
    d == e || (d.0 == e.1 && d.1 == e.0)
  }

  lemma PairIsBoxes(d: Declared, e: Declared)
    requires d.0.Some? && d.1.Some? && e.0.Some? && e.1.Some?
    ensures PairOf(d) == PairOf(e) <==> SameBoxes(d, e)
  {}

  /** The declared link at `k` joins boxes the glass does not, and none before it joins the same two. */
  ghost predicate FirstOfItsPair(cables: seq<Span>, through: set<Point>, declared: seq<Declared>, k: nat) {
    k < |declared| && Missing(cables, through, declared[k])
    && forall j :: 0 <= j < k ==> !SameBoxes(declared[j], declared[k])
  }

  /**
   What is reported is, in the order declared, the first declaration of each pair of boxes that
   the glass does not join: nothing else, and no pair left out.
   */
  lemma {:induction false} UndrawnIs(cables: seq<Span>, through: set<Point>, declared: seq<Declared>) returns (at: seq<nat>)
    ensures |at| == |FirstMissing(cables, through, declared)|
    ensures forall i :: 0 <= i < |at| ==> at[i] < |declared| && FirstMissing(cables, through, declared)[i] == declared[at[i]]
    ensures forall i, k :: 0 <= i < k < |at| ==> at[i] < at[k]
    ensures forall k: nat :: k in at <==> FirstOfItsPair(cables, through, declared, k)
  {
    hide Missing;
    if declared == [] {
      at := [];
    } else {
      var n := |declared| - 1;
      at := UndrawnIs(cables, through, declared[..n]);
      forall k: nat | k < n
        ensures FirstOfItsPair(cables, through, declared[..n], k) <==> FirstOfItsPair(cables, through, declared, k)
      {}
      FirstIs(cables, through, declared, n);
      if FirstOfItsPair(cables, through, declared, n) { at := at + [n]; }
    }
  }

  lemma FirstIs(cables: seq<Span>, through: set<Point>, declared: seq<Declared>, n: nat)
    requires n < |declared|
    ensures FirstOfItsPair(cables, through, declared, n)
            <==> Missing(cables, through, declared[n])
                 && forall k :: 0 <= k < n && Missing(cables, through, declared[k]) ==> PairOf(declared[k]) != PairOf(declared[n])
  {
    if Missing(cables, through, declared[n]) {
      forall k | 0 <= k < n
        ensures SameBoxes(declared[k], declared[n]) <==> Missing(cables, through, declared[k]) && PairOf(declared[k]) == PairOf(declared[n])
      {
        if SameBoxes(declared[k], declared[n]) { MissingEitherWay(cables, through, declared[n], declared[k]); }
        if Missing(cables, through, declared[k]) { PairIsBoxes(declared[k], declared[n]); }
      }
    }
  }

  lemma MissingEitherWay(cables: seq<Span>, through: set<Point>, d: Declared, e: Declared)
    requires SameBoxes(d, e) && Missing(cables, through, d)
    ensures Missing(cables, through, e)
  {
    if e.0.Some? && e.1.Some? && Joined(cables, through, e.0.value, e.1.value) {
      JoinedBothWays(cables, through, e.0.value, e.1.value);
    }
  }
}
