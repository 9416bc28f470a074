/**
 `feed_map` of fiber.py: which way the light flows. Roots flood level by level, each
 level breadth first and in point order; the answer is the shortest-path forest from
 the shallowest roots of each component.
 */
module FeedMap {
  import Sets

  type Point = int
  type Edge = (Point, Point)

  // ------------------------------------------------------------------- graph

  predicate Linked(edges: seq<Edge>, p: Point, q: Point) {
    p != q && ((p, q) in edges || (q, p) in edges)
  }

  /** `p` is within `n` hops of `s`. */
  ghost predicate Within(edges: seq<Edge>, s: set<Point>, n: nat, p: Point) {
    if n == 0 then p in s
    else Within(edges, s, n - 1, p) || exists q :: Within(edges, s, n - 1, q) && Linked(edges, q, p)
  }

  /** `p` is exactly `n` hops from `s`. */
  ghost predicate Away(edges: seq<Edge>, s: set<Point>, n: nat, p: Point) {
    Within(edges, s, n, p) && (n > 0 ==> !Within(edges, s, n - 1, p))
  }

  ghost predicate Flooded(edges: seq<Edge>, s: set<Point>, p: Point) {
    exists n: nat :: Within(edges, s, n, p)
  }

  ghost predicate Connected(edges: seq<Edge>, p: Point, q: Point) {
    Flooded(edges, {p}, q)
  }

  ghost predicate Closed(edges: seq<Edge>, c: set<Point>) {
    forall p, q :: p in c && Linked(edges, p, q) ==> q in c
  }

  ghost predicate Apart(s: set<Point>, c: set<Point>) {
    forall p :: p in s ==> p !in c
  }

  lemma {:induction false} WithinGrows(edges: seq<Edge>, s: set<Point>, m: nat, n: nat, p: Point)
    requires m <= n && Within(edges, s, m, p)
    ensures Within(edges, s, n, p)
    decreases n
  {
    if m < n { WithinGrows(edges, s, m, n - 1, p); }
  }

  lemma {:induction false} WithinStaysIn(edges: seq<Edge>, s: set<Point>, c: set<Point>, n: nat, p: Point)
    requires Closed(edges, c) && s <= c && Within(edges, s, n, p)
    ensures p in c
    decreases n
  {
    if n > 0 {
      if Within(edges, s, n - 1, p) {
        WithinStaysIn(edges, s, c, n - 1, p);
      } else {
        var q :| Within(edges, s, n - 1, q) && Linked(edges, q, p);
        WithinStaysIn(edges, s, c, n - 1, q);
      }
    }
  }

  lemma {:induction false} WithinStaysOut(edges: seq<Edge>, s: set<Point>, c: set<Point>, n: nat, p: Point)
    requires Closed(edges, c) && Apart(s, c) && Within(edges, s, n, p)
    ensures p !in c
    decreases n
  {
    if n > 0 {
      if Within(edges, s, n - 1, p) {
        WithinStaysOut(edges, s, c, n - 1, p);
      } else {
        var q :| Within(edges, s, n - 1, q) && Linked(edges, q, p);
        WithinStaysOut(edges, s, c, n - 1, q);
        assert Linked(edges, p, q);
      }
    }
  }

  lemma {:induction false} WithinUnion(edges: seq<Edge>, s: set<Point>, t: set<Point>, n: nat, p: Point)
    ensures Within(edges, s + t, n, p) <==> Within(edges, s, n, p) || Within(edges, t, n, p)
    decreases n
  {
    if n > 0 {
      var m, u := n - 1, s + t;
      forall q ensures Within(edges, u, m, q) <==> Within(edges, s, m, q) || Within(edges, t, m, q) {
        WithinUnion(edges, s, t, m, q);
      }
    }
  }

  lemma {:induction false} WithinOfOne(edges: seq<Edge>, s: set<Point>, n: nat, p: Point) returns (r: Point)
    requires Within(edges, s, n, p)
    ensures r in s && Within(edges, {r}, n, p)
    decreases n
  {
    if n == 0 {
      r := p;
    } else if Within(edges, s, n - 1, p) {
      r := WithinOfOne(edges, s, n - 1, p);
    } else {
      var q :| Within(edges, s, n - 1, q) && Linked(edges, q, p);
      r := WithinOfOne(edges, s, n - 1, q);
    }
  }

  lemma {:induction false} HowFar(edges: seq<Edge>, s: set<Point>, n: nat, p: Point) returns (d: nat)
    requires Within(edges, s, n, p)
    ensures d <= n && Away(edges, s, d, p)
  {
    if n == 0 || !Within(edges, s, n - 1, p) { d := n; } else { d := HowFar(edges, s, n - 1, p); }
  }

  lemma AwayOnce(edges: seq<Edge>, s: set<Point>, m: nat, n: nat, p: Point)
    requires Away(edges, s, m, p) && Away(edges, s, n, p)
    ensures m == n
  {
    if m < n { WithinGrows(edges, s, m, n - 1, p); }
    if n < m { WithinGrows(edges, s, n, m - 1, p); }
  }

  // ---------------------------------------------------- the forest, specified

  /** `q` is the least of the points one hop nearer `s` that `p` is linked to. */
  ghost predicate FedBy(edges: seq<Edge>, s: set<Point>, n: nat, p: Point, q: Point)
    requires n > 0
  {
    && Away(edges, s, n - 1, q) && Linked(edges, q, p)
    && forall r :: Away(edges, s, n - 1, r) && Linked(edges, r, p) ==> q <= r
  }

  ghost predicate Forest(edges: seq<Edge>, s: set<Point>, feed: map<Point, Point>) {
    && (forall p :: p in feed <==> Flooded(edges, s, p) && p !in s)
    && (forall n: nat, p :: n > 0 && Away(edges, s, n, p) ==> p in feed && FedBy(edges, s, n, p, feed[p]))
  }

  function RankOf(rank: map<Point, int>, r: Point): int {
    if r in rank then rank[r] else 0
  }

  ghost predicate Seeds(edges: seq<Edge>, roots: set<Point>, r: Point) {
    r in roots && exists q :: Linked(edges, r, q)
  }

  /** `r` has the least rank of all the roots in its component. */
  ghost predicate Leads(edges: seq<Edge>, roots: set<Point>, rank: map<Point, int>, r: Point) {
    && Seeds(edges, roots, r)
    && forall o :: Seeds(edges, roots, o) && Connected(edges, o, r) ==> RankOf(rank, r) <= RankOf(rank, o)
  }

  ghost function Leaders(edges: seq<Edge>, roots: set<Point>, rank: map<Point, int>): set<Point> {
    set r | r in roots && Leads(edges, roots, rank, r)
  }

  // --------------------------------------------------------------- sorting

  predicate Sorted(s: seq<Point>) {
    forall i, k :: 0 <= i < k < |s| ==> s[i] <= s[k]
  }

  predicate Strict(s: seq<Point>) {
    forall i, k :: 0 <= i < k < |s| ==> s[i] < s[k]
  }

  function Insert(x: Point, s: seq<Point>): (out: seq<Point>)
    requires Sorted(s)
    ensures Sorted(out) && |out| == |s| + 1
    ensures forall y :: y in out <==> y == x || y in s
  {
    if s == [] || x <= s[0] then [x] + s
    else
      var rest := Insert(x, s[1..]);
      assert forall y :: y in s <==> y == s[0] || y in s[1..];
      assert forall i :: 0 <= i < |rest| ==> rest[i] in rest;
      [s[0]] + rest
  }

  function Sort(s: seq<Point>): (out: seq<Point>)
    ensures Sorted(out) && |out| == |s|
    ensures forall y :: y in out <==> y in s
  {
    if s == [] then []
    else
      assert forall y :: y in s <==> y == s[0] || y in s[1..];
      Insert(s[0], Sort(s[1..]))
  }

  lemma {:induction false} InsertStrict(x: Point, s: seq<Point>)
    requires Sorted(s) && Strict(s) && x !in s
    ensures Strict(Insert(x, s))
  {
    if s != [] && x > s[0] {
      InsertStrict(x, s[1..]);
      var rest := Insert(x, s[1..]);
      assert forall i :: 0 <= i < |rest| ==> rest[i] in rest;
      assert forall y :: y in s[1..] ==> s[0] < y;
    }
  }

  lemma {:induction false} SortStrict(s: seq<Point>)
    requires forall i, k :: 0 <= i < k < |s| ==> s[i] != s[k]
    ensures Strict(Sort(s))
  {
    if s != [] {
      SortStrict(s[1..]);
      InsertStrict(s[0], Sort(s[1..]));
    }
  }

  /** `sorted` over a set. */
  method SortSet(s: set<Point>) returns (out: seq<Point>)
    ensures Sorted(out) && Strict(out) && |out| == |s| && forall y :: y in out <==> y in s
  {
    var left := s;
    out := [];
    while left != {}
      invariant left <= s && |out| + |left| == |s| && forall y :: y in out <==> y in s - left
      invariant forall i, k :: 0 <= i < k < |out| ==> out[i] != out[k]
      decreases left
    {
      var x := Sets.Any(left);
      left := left - {x};
      out := out + [x];
    }
    SortStrict(out);
    out := Sort(out);
  }

  // --------------------------------------------------------------- the flood

  type Adjacency = map<Point, seq<Point>>

  /** Every point with a cable has the sorted list of its neighbours. */
  ghost predicate Adjoins(edges: seq<Edge>, adjacency: Adjacency) {
    && (forall p :: p in adjacency <==> exists q :: Linked(edges, p, q))
    && (forall p :: p in adjacency ==> Sorted(adjacency[p]) && forall q :: q in adjacency[p] <==> Linked(edges, p, q))
  }

  function Append(adjacency: Adjacency, p: Point, q: Point): Adjacency {
    adjacency[p := (if p in adjacency then adjacency[p] else []) + [q]]
  }

  lemma LinkedSnoc(edges: seq<Edge>, i: nat, p: Point, q: Point)
    requires i < |edges|
    ensures
      var (a, b) := edges[i];
      Linked(edges[..i+1], p, q)
      <==> Linked(edges[..i], p, q) || (a != b && ((p, q) == (a, b) || (q, p) == (a, b)))
  {
    assert edges[..i+1] == edges[..i] + [edges[i]];
    assert forall e :: e in edges[..i+1] <==> e in edges[..i] || e == edges[i];
  }

  ghost predicate Lists(adjacency: Adjacency, p: Point, q: Point) {
    p in adjacency && q in adjacency[p]
  }

  lemma AppendLists(adjacency: Adjacency, a: Point, b: Point, p: Point, q: Point)
    ensures Lists(Append(adjacency, a, b), p, q) <==> Lists(adjacency, p, q) || (p == a && q == b)
  {
    if p == a && a in adjacency {
      assert forall x :: x in adjacency[a] + [b] <==> x in adjacency[a] || x == b;
    }
  }

  method BuildAdjacency(edges: seq<Edge>) returns (adjacency: Adjacency)
    ensures Adjoins(edges, adjacency)
  {
    var raw: Adjacency := map[];
    for i := 0 to |edges|
      invariant forall p :: p in raw ==> raw[p] != []
      invariant forall p, q :: Lists(raw, p, q) <==> Linked(edges[..i], p, q)
    {
      var (a, b) := edges[i];
      ghost var was := raw;
      if a != b {
        raw := Append(raw, a, b);
        raw := Append(raw, b, a);
      }
      forall p, q ensures Lists(raw, p, q) <==> Linked(edges[..i+1], p, q) {
        LinkedSnoc(edges, i, p, q);
        AppendLists(was, a, b, p, q);
        AppendLists(Append(was, a, b), b, a, p, q);
      }
    }
    assert edges[..|edges|] == edges;
    adjacency := map p | p in raw :: Sort(raw[p]);
    forall p ensures p in adjacency <==> exists q :: Linked(edges, p, q) {
      if p in adjacency { assert Lists(raw, p, raw[p][0]); }
      if q :| Linked(edges, p, q) { assert Lists(raw, p, q); }
    }
    forall p, q | p in adjacency ensures q in adjacency[p] <==> Linked(edges, p, q) {
      assert Lists(raw, p, q) <==> q in raw[p];
    }
  }

  /** How far the flood from `s` has come: everything within `d` hops is seen and fed. */
  ghost predicate Front(edges: seq<Edge>, done: set<Point>, was: map<Point, Point>, s: set<Point>, d: nat,
                        seen: set<Point>, feed: map<Point, Point>)
  {
    && (forall p :: p in seen <==> p in done || Within(edges, s, d, p))
    && (forall p :: p in feed <==> p in was || (Within(edges, s, d, p) && p !in s))
    && (forall p :: p in was ==> p in done && feed[p] == was[p])
    && (forall n: nat, p :: 0 < n <= d && Away(edges, s, n, p) ==> p in feed && FedBy(edges, s, n, p, feed[p]))
  }

  /** The new points a wave has claimed from the first `i` points of its frontier. */
  ghost predicate Claimed(edges: seq<Edge>, s: set<Point>, d: nat, frontier: seq<Point>, i: nat, q: Point)
    requires i <= |frontier|
  {
    !Within(edges, s, d, q) && exists k :: 0 <= k < i && Linked(edges, frontier[k], q)
  }

  /** `p` is the first of the first `i` frontier points that is linked to `q`. */
  ghost predicate FirstClaim(edges: seq<Edge>, frontier: seq<Point>, i: nat, q: Point, p: Point)
    requires i <= |frontier|
  {
    exists k :: 0 <= k < i && p == frontier[k] && Linked(edges, frontier[k], q)
                && forall m :: 0 <= m < k ==> !Linked(edges, frontier[m], q)
  }

  /** The wave half way: the first `i` frontier points have claimed their neighbours. */
  ghost predicate Wave(edges: seq<Edge>, done: set<Point>, was: map<Point, Point>, s: set<Point>, d: nat,
                       frontier: seq<Point>, i: nat, seen: set<Point>, feed: map<Point, Point>, nxt: seq<Point>)
  {
    && i <= |frontier|
    && (forall q :: q in seen <==> q in done || Within(edges, s, d, q) || Claimed(edges, s, d, frontier, i, q))
    && (forall q :: q in feed <==> q in was || (Within(edges, s, d, q) && q !in s) || Claimed(edges, s, d, frontier, i, q))
    && (forall q :: q in was ==> q in done && feed[q] == was[q])
    && (forall n: nat, q :: 0 < n <= d && Away(edges, s, n, q) ==> q in feed && FedBy(edges, s, n, q, feed[q]))
    && (forall q :: Claimed(edges, s, d, frontier, i, q) ==> FirstClaim(edges, frontier, i, q, feed[q]))
    && (forall q :: q in nxt <==> Claimed(edges, s, d, frontier, i, q))
  }

  lemma StepOut(edges: seq<Edge>, s: set<Point>, n: nat, p: Point, q: Point)
    requires Within(edges, s, n, p) && Linked(edges, p, q)
    ensures Within(edges, s, n + 1, q)
  {
  }

  /** The points one hop past a layer are what its points claim. */
  lemma NextLayer(edges: seq<Edge>, s: set<Point>, d: nat, frontier: seq<Point>, q: Point)
    requires forall p :: p in frontier <==> Away(edges, s, d, p)
    ensures Claimed(edges, s, d, frontier, |frontier|, q) <==> Away(edges, s, d + 1, q)
  {
    if Claimed(edges, s, d, frontier, |frontier|, q) {
      var k :| 0 <= k < |frontier| && Linked(edges, frontier[k], q);
      assert frontier[k] in frontier;
      StepOut(edges, s, d, frontier[k], q);
    }
    if Away(edges, s, d + 1, q) {
      var p :| Within(edges, s, d, p) && Linked(edges, p, q);
      assert p in frontier;
    }
  }

  /** A wave that has passed its whole frontier has moved the front one hop on. */
  lemma WavePassed(edges: seq<Edge>, done: set<Point>, was: map<Point, Point>, s: set<Point>, d: nat,
                   frontier: seq<Point>, seen: set<Point>, feed: map<Point, Point>, nxt: seq<Point>)
    requires Wave(edges, done, was, s, d, frontier, |frontier|, seen, feed, nxt)
    requires Sorted(frontier) && forall p :: p in frontier <==> Away(edges, s, d, p)
    ensures Front(edges, done, was, s, d + 1, seen, feed)
    ensures forall p :: p in nxt <==> Away(edges, s, d + 1, p)
  {
    forall q ensures Claimed(edges, s, d, frontier, |frontier|, q) <==> Away(edges, s, d + 1, q) {
      NextLayer(edges, s, d, frontier, q);
    }
    forall q ensures Within(edges, s, d + 1, q) <==> Within(edges, s, d, q) || Away(edges, s, d + 1, q) {
    }
    forall p | Away(edges, s, d + 1, p) ensures p in feed && FedBy(edges, s, d + 1, p, feed[p]) {
      FirstClaimIsLeast(edges, s, d, frontier, p, feed[p]);
    }
    forall p | Within(edges, s, d + 1, p) && p in s ensures Within(edges, s, d, p) {
      WithinGrows(edges, s, 0, d, p);
    }
  }

  lemma FirstClaimIsLeast(edges: seq<Edge>, s: set<Point>, d: nat, frontier: seq<Point>, p: Point, q: Point)
    requires Sorted(frontier) && forall r :: r in frontier <==> Away(edges, s, d, r)
    requires FirstClaim(edges, frontier, |frontier|, p, q)
    ensures FedBy(edges, s, d + 1, p, q)
  {
    var k :| 0 <= k < |frontier| && q == frontier[k] && Linked(edges, frontier[k], p)
             && forall m :: 0 <= m < k ==> !Linked(edges, frontier[m], p);
    assert frontier[k] in frontier;
    forall r | Away(edges, s, d, r) && Linked(edges, r, p) ensures q <= r {
      assert r in frontier;
      var m :| 0 <= m < |frontier| && frontier[m] == r;
    }
  }

  /** One frontier point claims every neighbour nobody has seen yet. */
  method Spread(point: Point, neighbours: seq<Point>, seen0: set<Point>, feed0: map<Point, Point>, nxt0: seq<Point>)
    returns (seen: set<Point>, feed: map<Point, Point>, nxt: seq<Point>)
    ensures forall q :: q in seen <==> q in seen0 || q in neighbours
    ensures forall q :: q in feed <==> q in feed0 || (q in neighbours && q !in seen0)
    ensures forall q :: q in feed ==> feed[q] == if q in neighbours && q !in seen0 then point else feed0[q]
    ensures forall q :: q in nxt <==> q in nxt0 || (q in neighbours && q !in seen0)
  {
    seen, feed, nxt := seen0, feed0, nxt0;
    for j := 0 to |neighbours|
      invariant forall q :: q in seen <==> q in seen0 || q in neighbours[..j]
      invariant forall q :: q in feed <==> q in feed0 || (q in neighbours[..j] && q !in seen0)
      invariant forall q :: q in feed ==> feed[q] == if q in neighbours[..j] && q !in seen0 then point else feed0[q]
      invariant forall q :: q in nxt <==> q in nxt0 || (q in neighbours[..j] && q !in seen0)
    {
      var other := neighbours[j];
      assert forall q :: q in neighbours[..j+1] <==> q in neighbours[..j] || q == other;
      if other !in seen {
        seen := seen + {other};
        feed := feed[other := point];
        nxt := nxt + [other];
      }
    }
    assert neighbours[..|neighbours|] == neighbours;
  }

  lemma WaveStep(edges: seq<Edge>, done: set<Point>, was: map<Point, Point>, s: set<Point>, d: nat,
                 frontier: seq<Point>, i: nat, neighbours: seq<Point>,
                 seen0: set<Point>, feed0: map<Point, Point>, nxt0: seq<Point>,
                 seen: set<Point>, feed: map<Point, Point>, nxt: seq<Point>)
    requires i < |frontier| && Wave(edges, done, was, s, d, frontier, i, seen0, feed0, nxt0)
    requires forall q :: q in neighbours <==> Linked(edges, frontier[i], q)
    requires Closed(edges, done) && frontier[i] !in done
    requires forall q :: q in seen <==> q in seen0 || q in neighbours
    requires forall q :: q in feed <==> q in feed0 || (q in neighbours && q !in seen0)
    requires forall q :: q in feed ==> feed[q] == if q in neighbours && q !in seen0 then frontier[i] else feed0[q]
    requires forall q :: q in nxt <==> q in nxt0 || (q in neighbours && q !in seen0)
    ensures Wave(edges, done, was, s, d, frontier, i + 1, seen, feed, nxt)
  {
    forall q | q in neighbours ensures q !in done {
      assert Linked(edges, q, frontier[i]);
    }
    forall q
      ensures Claimed(edges, s, d, frontier, i + 1, q)
              <==> Claimed(edges, s, d, frontier, i, q) || (q in neighbours && !Within(edges, s, d, q))
      ensures Claimed(edges, s, d, frontier, i, q) || Within(edges, s, d, q) ==> q in seen0
    {
    }
    forall q | Claimed(edges, s, d, frontier, i + 1, q) ensures FirstClaim(edges, frontier, i + 1, q, feed[q]) {
      if Claimed(edges, s, d, frontier, i, q) {
        assert FirstClaim(edges, frontier, i, q, feed0[q]);
      } else {
        assert feed[q] == frontier[i];
      }
    }
  }

  /** Past an empty layer there is nothing further out. */
  lemma {:induction false} NothingFurther(edges: seq<Edge>, s: set<Point>, d: nat, n: nat, p: Point)
    requires forall q :: !Away(edges, s, d, q)
    requires Within(edges, s, n, p)
    ensures Within(edges, s, d, p)
    decreases n
  {
    if n <= d {
      WithinGrows(edges, s, n, d, p);
    } else if Within(edges, s, n - 1, p) {
      NothingFurther(edges, s, d, n - 1, p);
    } else {
      var q :| Within(edges, s, n - 1, q) && Linked(edges, q, p);
      NothingFurther(edges, s, d, n - 1, q);
      assert !Away(edges, s, d, q);
    }
  }

  /** What one level's flood adds to what was already fed. */
  ghost predicate FloodedFrom(edges: seq<Edge>, done: set<Point>, was: map<Point, Point>, s: set<Point>,
                              seen: set<Point>, feed: map<Point, Point>)
  {
    && (forall p :: p in seen <==> p in done || Flooded(edges, s, p))
    && (forall p :: p in feed <==> p in was || (Flooded(edges, s, p) && p !in s))
    && (forall p :: p in was ==> feed[p] == was[p])
    && (forall n: nat, p :: 0 < n && Away(edges, s, n, p) ==> p in feed && FedBy(edges, s, n, p, feed[p]))
  }

  lemma FrontIsFlood(edges: seq<Edge>, done: set<Point>, was: map<Point, Point>, s: set<Point>, d: nat,
                     seen: set<Point>, feed: map<Point, Point>)
    requires Front(edges, done, was, s, d, seen, feed) && forall p :: !Away(edges, s, d, p)
    ensures FloodedFrom(edges, done, was, s, seen, feed)
  {
    forall p ensures Flooded(edges, s, p) <==> Within(edges, s, d, p) {
      if n: nat :| Within(edges, s, n, p) { NothingFurther(edges, s, d, n, p); }
    }
    forall n: nat, p | 0 < n && Away(edges, s, n, p) ensures n <= d {
      NothingFurther(edges, s, d, n, p);
      if d < n { WithinGrows(edges, s, d, n - 1, p); }
    }
  }

  method ClaimFrom(ghost edges: seq<Edge>, adjacency: Adjacency, ghost done: set<Point>, ghost was: map<Point, Point>,
                   ghost s: set<Point>, ghost d: nat, frontier: seq<Point>, i: nat,
                   seen0: set<Point>, feed0: map<Point, Point>, nxt0: seq<Point>)
    returns (seen: set<Point>, feed: map<Point, Point>, nxt: seq<Point>)
    requires Adjoins(edges, adjacency) && Closed(edges, done) && Apart(s, done)
    requires i < |frontier| && Wave(edges, done, was, s, d, frontier, i, seen0, feed0, nxt0)
    requires frontier[i] in adjacency && Away(edges, s, d, frontier[i])
    ensures Wave(edges, done, was, s, d, frontier, i + 1, seen, feed, nxt)
  {
    var point := frontier[i];
    WithinStaysOut(edges, s, done, d, point);
    seen, feed, nxt := Spread(point, adjacency[point], seen0, feed0, nxt0);
    WaveStep(edges, done, was, s, d, frontier, i, adjacency[point], seen0, feed0, nxt0, seen, feed, nxt);
  }

  lemma WaveStarts(edges: seq<Edge>, done: set<Point>, was: map<Point, Point>, s: set<Point>, d: nat,
                   frontier: seq<Point>, seen: set<Point>, feed: map<Point, Point>)
    requires Front(edges, done, was, s, d, seen, feed)
    ensures Wave(edges, done, was, s, d, frontier, 0, seen, feed, [])
  {
  }

  /** One wave: the whole frontier claims in turn, and the front moves a hop on. */
  method Advance(ghost edges: seq<Edge>, adjacency: Adjacency, ghost done: set<Point>, ghost was: map<Point, Point>,
                 ghost s: set<Point>, ghost d: nat, frontier: seq<Point>, seen0: set<Point>, feed0: map<Point, Point>)
    returns (seen: set<Point>, feed: map<Point, Point>, nxt: seq<Point>)
    requires Adjoins(edges, adjacency) && Closed(edges, done) && Apart(s, done)
    requires Front(edges, done, was, s, d, seen0, feed0)
    requires Sorted(frontier) && forall p :: p in frontier <==> Away(edges, s, d, p)
    requires forall p :: p in frontier ==> p in adjacency
    ensures Front(edges, done, was, s, d + 1, seen, feed)
    ensures forall p :: p in nxt <==> Away(edges, s, d + 1, p)
  {
    seen, feed, nxt := seen0, feed0, [];
    WaveStarts(edges, done, was, s, d, frontier, seen, feed);
    hide Wave, Front;
    for i := 0 to |frontier|
      invariant Wave(edges, done, was, s, d, frontier, i, seen, feed, nxt)
    {
      assert frontier[i] in frontier;
      seen, feed, nxt := ClaimFrom(edges, adjacency, done, was, s, d, frontier, i, seen, feed, nxt);
    }
    WavePassed(edges, done, was, s, d, frontier, seen, feed, nxt);
  }

  /** The wave only ever adds, and a point in its new frontier is one it has added. */
  lemma FrontGrows(edges: seq<Edge>, adjacency: Adjacency, done: set<Point>, was: map<Point, Point>, s: set<Point>,
                   d: nat, seen0: set<Point>, feed0: map<Point, Point>, seen: set<Point>, feed: map<Point, Point>,
                   nxt: seq<Point>)
    requires Adjoins(edges, adjacency) && Closed(edges, done) && Apart(s, done)
    requires Front(edges, done, was, s, d, seen0, feed0) && Front(edges, done, was, s, d + 1, seen, feed)
    requires forall p :: p in nxt <==> Away(edges, s, d + 1, p)
    ensures forall p :: p in nxt ==> p in adjacency
    ensures adjacency.Keys - seen <= adjacency.Keys - seen0
    ensures nxt != [] ==> adjacency.Keys - seen < adjacency.Keys - seen0
  {
    forall p | p in nxt ensures p in adjacency && p in seen && p !in seen0 {
      NewFrontier(edges, done, s, d, p);
    }
    if nxt != [] {
      assert nxt[0] in nxt;
      assert nxt[0] in (adjacency.Keys - seen0) && nxt[0] !in adjacency.Keys - seen;
    }
  }

  method Flood(ghost edges: seq<Edge>, adjacency: Adjacency, done: set<Point>, was: map<Point, Point>, start: seq<Point>)
    returns (seen: set<Point>, feed: map<Point, Point>)
    requires Adjoins(edges, adjacency) && Closed(edges, done)
    requires forall p :: p in was ==> p in done
    requires Sorted(start) && forall p :: p in start ==> p in adjacency && p !in done
    ensures FloodedFrom(edges, done, was, (set p | p in start), seen, feed)
  {
    ghost var s := set p | p in start;
    ghost var d := 0;
    var frontier := start;
    seen := done + set p | p in start;
    feed := was;
    while frontier != []
      invariant Front(edges, done, was, s, d, seen, feed)
      invariant Sorted(frontier) && forall p :: p in frontier <==> Away(edges, s, d, p)
      invariant forall p :: p in frontier ==> p in adjacency
      decreases adjacency.Keys - seen, |frontier|
    {
      ghost var seen0, feed0 := seen, feed;
      var nxt;
      seen, feed, nxt := Advance(edges, adjacency, done, was, s, d, frontier, seen, feed);
      FrontGrows(edges, adjacency, done, was, s, d, seen0, feed0, seen, feed, nxt);
      frontier := Sort(nxt);
      d := d + 1;
    }
    forall p ensures !Away(edges, s, d, p) { assert p !in frontier; }
    FrontIsFlood(edges, done, was, s, d, seen, feed);
  }

  lemma {:induction false} NewFrontier(edges: seq<Edge>, done: set<Point>, s: set<Point>, d: nat, p: Point)
    requires Closed(edges, done) && Apart(s, done) && Away(edges, s, d + 1, p)
    ensures p !in done && !Within(edges, s, d, p) && exists q :: Linked(edges, p, q)
  {
    WithinStaysOut(edges, s, done, d + 1, p);
    var q :| Within(edges, s, d, q) && Linked(edges, q, p);
    assert Linked(edges, p, q);
  }

  // ------------------------------------------------------- level upon level

  /** Two forests over components that do not touch are one forest. */
  lemma ForestUnion(edges: seq<Edge>, lead: set<Point>, done: set<Point>, was: map<Point, Point>, s: set<Point>,
                    seen: set<Point>, feed: map<Point, Point>)
    requires Forest(edges, lead, was) && (forall p :: p in done <==> Flooded(edges, lead, p))
    requires Closed(edges, done) && Apart(s, done) && FloodedFrom(edges, done, was, s, seen, feed)
    ensures Forest(edges, lead + s, feed)
    ensures forall p :: p in seen <==> Flooded(edges, lead + s, p)
  {
    var u := lead + s;
    forall n: nat, p ensures Within(edges, u, n, p) <==> Within(edges, lead, n, p) || Within(edges, s, n, p) {
      WithinUnion(edges, lead, s, n, p);
    }
    forall n: nat, p | Within(edges, s, n, p) ensures p !in done { WithinStaysOut(edges, s, done, n, p); }
    forall n: nat, p | Within(edges, lead, n, p) ensures p in done { assert Flooded(edges, lead, p); }
    forall n: nat, p ensures Away(edges, u, n, p) <==> Away(edges, lead, n, p) || Away(edges, s, n, p) {
    }
    forall p ensures Flooded(edges, u, p) <==> Flooded(edges, lead, p) || Flooded(edges, s, p) {
      if n: nat :| Within(edges, u, n, p) { assert Within(edges, lead, n, p) || Within(edges, s, n, p); }
      if n: nat :| Within(edges, lead, n, p) { assert Within(edges, u, n, p); }
      if n: nat :| Within(edges, s, n, p) { assert Within(edges, u, n, p); }
    }
    forall p | p in lead ensures p in done { assert Within(edges, lead, 0, p); }
    forall n: nat, p | n > 0 && Away(edges, u, n, p) ensures p in feed && FedBy(edges, u, n, p, feed[p]) {
      ForestUnionAt(edges, lead, done, s, n, p, feed[p]);
    }
  }

  lemma ForestUnionAt(edges: seq<Edge>, lead: set<Point>, done: set<Point>, s: set<Point>, n: nat, p: Point, q: Point)
    requires n > 0 && Closed(edges, done)
    requires forall m: nat, r :: Away(edges, lead + s, m, r) <==> Away(edges, lead, m, r) || Away(edges, s, m, r)
    requires forall m: nat, r :: Away(edges, lead, m, r) ==> r in done
    requires forall m: nat, r :: Away(edges, s, m, r) ==> r !in done
    requires (Away(edges, lead, n, p) && FedBy(edges, lead, n, p, q)) || (Away(edges, s, n, p) && FedBy(edges, s, n, p, q))
    ensures FedBy(edges, lead + s, n, p, q)
  {
    var u := lead + s;
    forall r | Away(edges, u, n - 1, r) && Linked(edges, r, p) ensures q <= r {
      assert Linked(edges, p, r);
    }
  }

  /** The seeds a level starts from are its leaders not met before. */
  lemma LevelLeads(edges: seq<Edge>, roots: set<Point>, rank: map<Point, int>, before: set<int>, level: int,
                   lead: set<Point>, done: set<Point>, s: set<Point>)
    requires forall b :: b in before ==> b <= level
    requires forall r :: Seeds(edges, roots, r) && RankOf(rank, r) < level ==> RankOf(rank, r) in before
    requires forall r :: r in lead <==> Leads(edges, roots, rank, r) && RankOf(rank, r) in before
    requires forall p :: p in done <==> Flooded(edges, lead, p)
    requires forall r :: Seeds(edges, roots, r) && RankOf(rank, r) in before ==> r in done
    requires Closed(edges, done)
    requires forall r :: r in s <==> Seeds(edges, roots, r) && RankOf(rank, r) == level && r !in done
    ensures forall r :: r in lead + s <==> Leads(edges, roots, rank, r) && RankOf(rank, r) in before + {level}
  {
    forall r | r in s ensures Leads(edges, roots, rank, r) {
      forall o | Seeds(edges, roots, o) && Connected(edges, o, r) ensures level <= RankOf(rank, o) {
        if RankOf(rank, o) < level {
          var n: nat :| Within(edges, {o}, n, r);
          WithinStaysIn(edges, {o}, done, n, r);
        }
      }
    }
    forall r | Leads(edges, roots, rank, r) && RankOf(rank, r) == level && r in done ensures r in lead {
      var n: nat :| Within(edges, lead, n, r);
      var o := WithinOfOne(edges, lead, n, r);
      assert Connected(edges, o, r);
    }
  }

  method ByRank(roots: set<Point>, adjacency: Adjacency, rank: map<Point, int>) returns (levels: map<int, set<Point>>)
    ensures forall l :: l in levels <==> exists r :: r in roots && r in adjacency && RankOf(rank, r) == l
    ensures forall l, r :: l in levels ==> (r in levels[l] <==> r in roots && r in adjacency && RankOf(rank, r) == l)
  {
    levels := map[];
    var left := roots;
    while left != {}
      invariant left <= roots
      invariant forall r :: r in roots && r !in left && r in adjacency ==> RankOf(rank, r) in levels
      invariant forall l :: l in levels ==> exists r :: r in levels[l]
      invariant forall l, r :: l in levels ==>
        (r in levels[l] <==> r in roots && r !in left && r in adjacency && RankOf(rank, r) == l)
      decreases left
    {
      var r := Sets.Any(left);
      left := left - {r};
      if r in adjacency {
        var l := RankOf(rank, r);
        var level := (if l in levels then levels[l] else {}) + {r};
        assert r in level;
        levels := levels[l := level];
      }
    }
    forall l | l in levels ensures exists r :: r in roots && r in adjacency && RankOf(rank, r) == l {
      var r :| r in levels[l];
      assert r in roots && r in adjacency && RankOf(rank, r) == l;
    }
  }

  /** Every root of a rank in `ranks` is fed or leads; `lead` are the leaders among them. */
  ghost predicate Leveled(edges: seq<Edge>, roots: set<Point>, rank: map<Point, int>, ranks: set<int>,
                          lead: set<Point>, seen: set<Point>, feed: map<Point, Point>)
  {
    && (forall p :: p in seen <==> Flooded(edges, lead, p))
    && Closed(edges, seen)
    && Forest(edges, lead, feed)
    && (forall r :: r in lead <==> Leads(edges, roots, rank, r) && RankOf(rank, r) in ranks)
    && (forall r :: Seeds(edges, roots, r) && RankOf(rank, r) in ranks ==> r in seen)
  }

  lemma NothingYet(edges: seq<Edge>, roots: set<Point>, rank: map<Point, int>)
    ensures Leveled(edges, roots, rank, {}, {}, {}, map[])
  {
    forall n: nat, p ensures !Within(edges, {}, n, p) {
      if Within(edges, {}, n, p) { var r := WithinOfOne(edges, {}, n, p); }
    }
  }

  lemma LevelDone(edges: seq<Edge>, roots: set<Point>, rank: map<Point, int>, ranks: set<int>, level: int,
                  lead: set<Point>, done: set<Point>, was: map<Point, Point>, s: set<Point>,
                  seen: set<Point>, feed: map<Point, Point>)
    requires Leveled(edges, roots, rank, ranks, lead, done, was)
    requires forall b :: b in ranks ==> b <= level
    requires forall r :: Seeds(edges, roots, r) && RankOf(rank, r) < level ==> RankOf(rank, r) in ranks
    requires forall r :: r in s <==> Seeds(edges, roots, r) && RankOf(rank, r) == level && r !in done
    requires FloodedFrom(edges, done, was, s, seen, feed)
    ensures Leveled(edges, roots, rank, ranks + {level}, lead + s, seen, feed)
  {
    LevelLeads(edges, roots, rank, ranks, level, lead, done, s);
    ForestUnion(edges, lead, done, was, s, seen, feed);
    SeenClosed(edges, lead + s, seen);
    forall r | Seeds(edges, roots, r) && RankOf(rank, r) == level ensures r in seen {
      if r !in done { assert Within(edges, s, 0, r); }
    }
  }

  method FloodLevel(ghost edges: seq<Edge>, ghost roots: set<Point>, ghost rank: map<Point, int>, ghost ranks: set<int>,
                    ghost level: int, adjacency: Adjacency, atLevel: set<Point>, ghost lead: set<Point>,
                    seen0: set<Point>, feed0: map<Point, Point>)
    returns (seen: set<Point>, feed: map<Point, Point>, ghost lead': set<Point>)
    requires Adjoins(edges, adjacency)
    requires Leveled(edges, roots, rank, ranks, lead, seen0, feed0)
    requires forall b :: b in ranks ==> b <= level
    requires forall r :: Seeds(edges, roots, r) && RankOf(rank, r) < level ==> RankOf(rank, r) in ranks
    requires forall r :: r in atLevel <==> r in roots && r in adjacency && RankOf(rank, r) == level
    ensures Leveled(edges, roots, rank, ranks + {level}, lead', seen, feed)
  {
    var start := SortSet(set r | r in atLevel && r !in seen0);
    ghost var s := set p | p in start;
    FedAreSeen(edges, lead, seen0, feed0);
    seen, feed := Flood(edges, adjacency, seen0, feed0, start);
    LevelDone(edges, roots, rank, ranks, level, lead, seen0, feed0, s, seen, feed);
    lead' := lead + s;
  }

  lemma FedAreSeen(edges: seq<Edge>, lead: set<Point>, seen: set<Point>, feed: map<Point, Point>)
    requires Forest(edges, lead, feed) && forall p :: p in seen <==> Flooded(edges, lead, p)
    ensures forall p :: p in feed ==> p in seen
  {
  }

  method FeedMap(edges: seq<Edge>, roots: set<Point>, rank: map<Point, int>) returns (feed: map<Point, Point>)
    ensures Forest(edges, Leaders(edges, roots, rank), feed)
  {
    hide Leveled, Forest, Adjoins, Seeds, Leaders, Linked;
    var adjacency := BuildAdjacency(edges);
    var levels := ByRank(roots, adjacency, rank);
    feed := map[];
    var seen: set<Point> := {};
    ghost var lead: set<Point> := {};
    var order := SortSet(levels.Keys);
    SeedsOrdered(edges, roots, rank, adjacency, levels, order);
    NothingYet(edges, roots, rank);
    assert Before(order, 0) == {};
    for i := 0 to |order|
      invariant Leveled(edges, roots, rank, Before(order, i), lead, seen, feed)
    {
      assert order[i] in order;
      RanksBefore(edges, roots, rank, order, i);
      seen, feed, lead := FloodLevel(edges, roots, rank, Before(order, i), order[i], adjacency, levels[order[i]],
                                     lead, seen, feed);
      assert Before(order, i + 1) == Before(order, i) + {order[i]};
    }
    AllBefore(edges, roots, rank, order);
    AllLeaders(edges, roots, rank, Before(order, |order|), lead, seen, feed);
  }

  lemma SeedsOrdered(edges: seq<Edge>, roots: set<Point>, rank: map<Point, int>, adjacency: Adjacency,
                     levels: map<int, set<Point>>, order: seq<int>)
    requires Adjoins(edges, adjacency)
    requires forall l :: l in levels <==> exists r :: r in roots && r in adjacency && RankOf(rank, r) == l
    requires forall l :: l in order <==> l in levels.Keys
    ensures forall r :: Seeds(edges, roots, r) ==> RankOf(rank, r) in order
  {
    forall r | Seeds(edges, roots, r) ensures RankOf(rank, r) in order {
      assert RankOf(rank, r) in levels;
    }
  }

  lemma AllBefore(edges: seq<Edge>, roots: set<Point>, rank: map<Point, int>, order: seq<int>)
    requires forall r :: Seeds(edges, roots, r) ==> RankOf(rank, r) in order
    ensures forall r :: Seeds(edges, roots, r) ==> RankOf(rank, r) in Before(order, |order|)
  {
    forall r | Seeds(edges, roots, r) ensures RankOf(rank, r) in Before(order, |order|) {
      var k :| 0 <= k < |order| && order[k] == RankOf(rank, r);
    }
  }

  lemma AllLeaders(edges: seq<Edge>, roots: set<Point>, rank: map<Point, int>, ranks: set<int>,
                   lead: set<Point>, seen: set<Point>, feed: map<Point, Point>)
    requires Leveled(edges, roots, rank, ranks, lead, seen, feed)
    requires forall r :: Seeds(edges, roots, r) ==> RankOf(rank, r) in ranks
    ensures lead == Leaders(edges, roots, rank) && Forest(edges, lead, feed)
  {
    assert forall r :: r in lead <==> r in Leaders(edges, roots, rank);
  }

  function Before(order: seq<int>, i: nat): set<int>
    requires i <= |order|
  {
    set k | 0 <= k < i :: order[k]
  }

  lemma RanksBefore(edges: seq<Edge>, roots: set<Point>, rank: map<Point, int>, order: seq<int>, i: nat)
    requires i < |order| && Sorted(order)
    requires forall r :: Seeds(edges, roots, r) ==> RankOf(rank, r) in order
    ensures forall b :: b in Before(order, i) ==> b <= order[i]
    ensures forall r :: Seeds(edges, roots, r) && RankOf(rank, r) < order[i] ==> RankOf(rank, r) in Before(order, i)
  {
    forall r | Seeds(edges, roots, r) && RankOf(rank, r) < order[i] ensures RankOf(rank, r) in Before(order, i) {
      var k :| 0 <= k < |order| && order[k] == RankOf(rank, r);
      assert k < i;
    }
  }

  lemma SeenClosed(edges: seq<Edge>, lead: set<Point>, seen: set<Point>)
    requires forall p :: p in seen <==> Flooded(edges, lead, p)
    ensures Closed(edges, seen)
  {
    forall p, q | p in seen && Linked(edges, p, q) ensures q in seen {
      var n: nat :| Within(edges, lead, n, p);
      StepOut(edges, lead, n, p, q);
    }
  }

  // ----------------------------------------------- what the forest promises

  /** A chain of feeds down to a point of `s`, each step over a link. */
  ghost predicate FeedPath(edges: seq<Edge>, s: set<Point>, feed: map<Point, Point>, chain: seq<Point>) {
    && |chain| > 0 && chain[|chain|-1] in s
    && forall i :: 0 <= i < |chain| - 1 ==> chain[i] !in s && chain[i] in feed && chain[i+1] == feed[chain[i]]
                                            && Linked(edges, chain[i+1], chain[i])
  }

  /** Following the feed from a point ends at a leader, in as many steps as the point is hops away. */
  lemma {:induction false} FeedChain(edges: seq<Edge>, s: set<Point>, feed: map<Point, Point>, n: nat, p: Point)
    returns (chain: seq<Point>)
    requires Forest(edges, s, feed) && Away(edges, s, n, p)
    ensures |chain| == n + 1 && chain[0] == p && FeedPath(edges, s, feed, chain)
    ensures forall m: nat :: Away(edges, s, m, p) <==> |chain| == m + 1
  {
    forall m: nat | Away(edges, s, m, p) ensures m == n { AwayOnce(edges, s, m, n, p); }
    if n == 0 {
      chain := [p];
    } else {
      assert p in feed && FedBy(edges, s, n, p, feed[p]);
      var rest := FeedChain(edges, s, feed, n - 1, feed[p]);
      chain := PrependFeed(edges, s, feed, p, rest);
    }
  }

  lemma PrependFeed(edges: seq<Edge>, s: set<Point>, feed: map<Point, Point>, p: Point, rest: seq<Point>)
    returns (chain: seq<Point>)
    requires FeedPath(edges, s, feed, rest) && p !in s && p in feed && rest[0] == feed[p] && Linked(edges, feed[p], p)
    ensures chain == [p] + rest && FeedPath(edges, s, feed, chain)
  {
    chain := [p] + rest;
    forall i | 0 <= i < |chain| - 1
      ensures chain[i] !in s && chain[i] in feed && chain[i+1] == feed[chain[i]] && Linked(edges, chain[i+1], chain[i])
    {
      if i > 0 { assert chain[i] == rest[i-1] && chain[i+1] == rest[i]; }
    }
  }

  /** Only the links count: reordering, doubling or turning round edges changes nothing. */
  lemma FeedIsUnique(edges: seq<Edge>, other: seq<Edge>, roots: set<Point>, rank: map<Point, int>,
                     feed: map<Point, Point>, feed': map<Point, Point>)
    requires forall p, q :: Linked(edges, p, q) <==> Linked(other, p, q)
    requires Forest(edges, Leaders(edges, roots, rank), feed)
    requires Forest(other, Leaders(other, roots, rank), feed')
    ensures feed == feed'
  {
    forall s, n: nat, p ensures Within(edges, s, n, p) <==> Within(other, s, n, p) {
      SameReach(edges, other, s, n, p);
    }
    forall s, p ensures Flooded(edges, s, p) <==> Flooded(other, s, p) {}
    forall r ensures Leads(edges, roots, rank, r) <==> Leads(other, roots, rank, r) {
      forall o ensures Connected(edges, o, r) <==> Connected(other, o, r) {}
    }
    var lead := Leaders(edges, roots, rank);
    assert lead == Leaders(other, roots, rank);
    forall p | p in feed ensures p in feed' && feed[p] == feed'[p] {
      var n: nat :| Within(edges, lead, n, p);
      var d := HowFar(edges, lead, n, p);
      FedOnce(edges, other, lead, d, p, feed[p], feed'[p]);
    }
    assert forall p :: p in feed <==> p in feed';
  }

  lemma {:induction false} FedOnce(edges: seq<Edge>, other: seq<Edge>, s: set<Point>, n: nat, p: Point, q: Point, r: Point)
    requires forall a, b :: Linked(edges, a, b) <==> Linked(other, a, b)
    requires forall m: nat, a :: Within(edges, s, m, a) <==> Within(other, s, m, a)
    requires n > 0 && FedBy(edges, s, n, p, q) && FedBy(other, s, n, p, r)
    ensures q == r
  {
  }

  lemma {:induction false} SameReach(edges: seq<Edge>, other: seq<Edge>, s: set<Point>, n: nat, p: Point)
    requires forall a, b :: Linked(edges, a, b) <==> Linked(other, a, b)
    ensures Within(edges, s, n, p) <==> Within(other, s, n, p)
    decreases n
  {
    if n > 0 {
      var m := n - 1;
      forall q ensures Within(edges, s, m, q) <==> Within(other, s, m, q) {
        SameReach(edges, other, s, m, q);
      }
    }
  }

  lemma {:induction false} ReachOn(edges: seq<Edge>, s: set<Point>, m: nat, r: Point, n: nat, p: Point)
    requires Within(edges, s, m, r) && Within(edges, {r}, n, p)
    ensures Within(edges, s, m + n, p)
    decreases n
  {
    if n > 0 {
      if Within(edges, {r}, n - 1, p) {
        ReachOn(edges, s, m, r, n - 1, p);
      } else {
        var q :| Within(edges, {r}, n - 1, q) && Linked(edges, q, p);
        ReachOn(edges, s, m, r, n - 1, q);
      }
    }
  }

  /** Of the roots that reach `p`, one of least rank leads its component. */
  lemma {:induction false} SomeoneLeads(edges: seq<Edge>, roots: set<Point>, rank: map<Point, int>,
                                        pool: set<Point>, o: Point, p: Point) returns (r: Point)
    requires pool <= roots && o in pool && Seeds(edges, roots, o) && Connected(edges, o, p)
    requires forall x :: Seeds(edges, roots, x) && Connected(edges, x, p) && x !in pool
                         ==> RankOf(rank, o) <= RankOf(rank, x)
    ensures Leads(edges, roots, rank, r) && Connected(edges, r, p)
    decreases |pool|
  {
    if x :| x in pool && Seeds(edges, roots, x) && Connected(edges, x, p) && RankOf(rank, x) < RankOf(rank, o) {
      r := SomeoneLeads(edges, roots, rank, pool - {o}, x, p);
    } else {
      r := o;
      forall x | Seeds(edges, roots, x) && Connected(edges, x, r) ensures RankOf(rank, r) <= RankOf(rank, x) {
        var m: nat :| Within(edges, {x}, m, r);
        var n: nat :| Within(edges, {r}, n, p);
        ReachOn(edges, {x}, m, r, n, p);
        assert Connected(edges, x, p);
      }
    }
  }

  /** A point is fed exactly when some root's glass reaches it and it does not lead. */
  lemma FedWhereRooted(edges: seq<Edge>, roots: set<Point>, rank: map<Point, int>, feed: map<Point, Point>, p: Point)
    requires Forest(edges, Leaders(edges, roots, rank), feed)
    ensures p in feed <==> p !in Leaders(edges, roots, rank)
                           && exists o :: Seeds(edges, roots, o) && Connected(edges, o, p)
  {
    var lead := Leaders(edges, roots, rank);
    if Flooded(edges, lead, p) {
      var n: nat :| Within(edges, lead, n, p);
      var r := WithinOfOne(edges, lead, n, p);
      assert Seeds(edges, roots, r) && Connected(edges, r, p);
    }
    if o :| Seeds(edges, roots, o) && Connected(edges, o, p) {
      var r := SomeoneLeads(edges, roots, rank, roots, o, p);
      var n: nat :| Within(edges, {r}, n, p);
      assert r in lead && Within(edges, lead, 0, r);
      ReachOn(edges, lead, 0, r, n, p);
    }
  }

  /** The leaders that reach a point all share the least rank of the roots that do. */
  lemma LeadersShareRank(edges: seq<Edge>, roots: set<Point>, rank: map<Point, int>, r: Point, o: Point, p: Point)
    requires Leads(edges, roots, rank, r) && Connected(edges, r, p)
    requires Seeds(edges, roots, o) && Connected(edges, o, p)
    ensures (if r in rank then rank[r] else 0) <= (if o in rank then rank[o] else 0)
  {
    var m: nat :| Within(edges, {r}, m, p);
    var n: nat :| Within(edges, {o}, n, p);
    WayBack(edges, r, m, p);
    ReachOn(edges, {o}, n, p, m, r);
    assert Connected(edges, o, r);
  }

  lemma {:induction false} WayBack(edges: seq<Edge>, r: Point, n: nat, p: Point)
    requires Within(edges, {r}, n, p)
    ensures Within(edges, {p}, n, r)
    decreases n
  {
    if n > 0 {
      if Within(edges, {r}, n - 1, p) {
        WayBack(edges, r, n - 1, p);
      } else {
        var q :| Within(edges, {r}, n - 1, q) && Linked(edges, q, p);
        WayBack(edges, r, n - 1, q);
        assert Within(edges, {p}, 0, p) && Linked(edges, p, q);
        assert Within(edges, {p}, 1, q);
        ReachOn(edges, {p}, 1, q, n - 1, r);
      }
    }
  }
}
