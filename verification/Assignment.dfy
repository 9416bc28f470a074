/**
 assignment.py: who is paged for a box (upwards, along parent links) and which boxes a
 user may see (downwards). The two walks are dual on every parent map, cyclic or not.
 */
module Assignment {
  import opened Options
  import opened Parents
  import Sets

  type Assignments = map<int, set<int>>

  predicate Assigned(assignments: Assignments, d: int, u: int) {
    d in assignments && u in assignments[d]
  }

  /** A walk down parent links from `a` to `d`. */
  ghost predicate Descent(parents: Parents, path: seq<int>, a: int, d: int) {
    && |path| > 0 && path[0] == a && path[|path|-1] == d
    && forall i :: 0 < i < |path| ==> Up(parents, path[i]) == Some(path[i-1])
  }

  ghost predicate Descends(parents: Parents, a: int, d: int) {
    exists path :: Descent(parents, path, a, d)
  }

  method ResponsibleUsers(d: int, parents: Parents, assignments: Assignments) returns (out: set<int>)
    ensures forall u :: u in out <==> Paged(parents, assignments, d, u)
  {
    var cur := Some(d);
    var seen: set<int> := {};
    out := {};
    ReachesSelf(parents, d);
    while cur.Some? && cur.value !in seen
      invariant forall u :: u in out <==> exists a :: a in seen && Assigned(assignments, a, u)
      invariant forall a :: a in seen ==> Reaches(parents, d, a)
      invariant cur.Some? ==> Reaches(parents, d, cur.value) && cur.value in Known(parents, d)
      invariant forall a :: a in seen && Up(parents, a).Some? ==> Up(parents, a).value in seen || Up(parents, a) == cur
      invariant d in seen || cur == Some(d)
      decreases Known(parents, d) - seen
    {
      var at := cur.value;
      seen := seen + {at};
      out := out + if at in assignments then assignments[at] else {};
      if Up(parents, at).Some? { ReachesUp(parents, d, at); }
      cur := Up(parents, at);
    }
    forall a ensures a in seen <==> Reaches(parents, d, a) {
      if n: nat :| Climb(parents, d, n) == Some(a) { ClimbStaysIn(parents, d, seen, n); }
    }
  }

  /** The boxes below each box, as the source collects them. */
  method Children(parents: Parents) returns (children: map<int, set<int>>)
    ensures forall p, k :: p in children && k in children[p] <==> Up(parents, k) == Some(p)
    ensures forall p :: p in children ==> children[p] <= parents.Keys
  {
    children := map[];
    var left := parents.Keys;
    while left != {}
      invariant left <= parents.Keys
      invariant forall p, k :: p in children && k in children[p] <==> k !in left && Up(parents, k) == Some(p)
      invariant forall p :: p in children ==> children[p] <= parents.Keys
      decreases left
    {
      var k := Sets.Any(left);
      left := left - {k};
      if parents[k].Some? {
        var p := parents[k].value;
        var kids := (if p in children then children[p] else {}) + {k};
        children := children[p := kids];
      }
    }
  }

  method ScopeOf(u: int, parents: Parents, assignments: Assignments) returns (out: set<int>)
    ensures forall d :: d in out <==> InScope(parents, assignments, u, d)
  {
    hide Descends, InScope;
    var roots := set a | a in assignments && u in assignments[a];
    var children := Children(parents);
    out := roots;
    var stack := roots;
    RootsAreBelow(parents, roots);
    while stack != {}
      invariant roots <= out && stack <= out <= roots + parents.Keys
      invariant forall d :: d in out ==> Below(parents, roots, d)
      invariant forall p, k :: p in out && p !in stack && Up(parents, k) == Some(p) ==> k in out
      decreases roots + parents.Keys - out, stack
    {
      var cur := Sets.Any(stack);
      var kids := if cur in children then children[cur] else {};
      assert forall k :: k in kids <==> Up(parents, k) == Some(cur);
      DescendAll(parents, roots, out, cur, kids);
      Sets.TakingIn(out, kids, roots + parents.Keys);
      stack := stack - {cur} + (kids - out);
      out := out + kids;
    }
    ScopeIsDone(u, parents, assignments, roots, out);
  }

  /** `d` is one of `roots` or under one. */
  ghost predicate Below(parents: Parents, roots: set<int>, d: int) {
    exists a :: a in roots && Descends(parents, a, d)
  }

  lemma RootsAreBelow(parents: Parents, roots: set<int>)
    ensures forall a :: a in roots ==> Below(parents, roots, a)
  {
    forall a | a in roots ensures Below(parents, roots, a) {
      assert Descent(parents, [a], a, a);
    }
  }

  lemma ScopeIsDone(u: int, parents: Parents, assignments: Assignments, roots: set<int>, out: set<int>)
    requires forall a :: a in roots <==> Assigned(assignments, a, u)
    requires roots <= out && forall d :: d in out ==> Below(parents, roots, d)
    requires forall p, k :: p in out && Up(parents, k) == Some(p) ==> k in out
    ensures forall d :: d in out <==> InScope(parents, assignments, u, d)
  {
    forall d ensures d in out <==> InScope(parents, assignments, u, d) {
      if a :| Assigned(assignments, a, u) && Descends(parents, a, d) {
        var path :| Descent(parents, path, a, d);
        DescentStaysIn(parents, out, path, a, d);
      }
    }
  }

  lemma DescendAll(parents: Parents, roots: set<int>, out: set<int>, cur: int, kids: set<int>)
    requires cur in out && forall d :: d in out ==> Below(parents, roots, d)
    requires forall k :: k in kids ==> Up(parents, k) == Some(cur)
    ensures forall k :: k in kids ==> Below(parents, roots, k)
  {
    var a :| a in roots && Descends(parents, a, cur);
    forall k | k in kids ensures Descends(parents, a, k) { StepDown(parents, a, cur, k); }
  }

  lemma StepDown(parents: Parents, a: int, p: int, k: int)
    requires Descends(parents, a, p) && Up(parents, k) == Some(p)
    ensures Descends(parents, a, k)
  {
    var path :| Descent(parents, path, a, p);
    assert Descent(parents, path + [k], a, k);
  }

  lemma {:induction false} DescentStaysIn(parents: Parents, s: set<int>, path: seq<int>, a: int, d: int)
    requires a in s && Descent(parents, path, a, d)
    requires forall p, k :: p in s && Up(parents, k) == Some(p) ==> k in s
    ensures d in s
    decreases |path|
  {
    if |path| > 1 {
      assert Descent(parents, path[..|path|-1], a, path[|path|-2]);
      DescentStaysIn(parents, s, path[..|path|-1], a, path[|path|-2]);
    }
  }

  lemma {:induction false} DescentIsClimb(parents: Parents, path: seq<int>, a: int, d: int)
    requires Descent(parents, path, a, d)
    ensures Climb(parents, d, |path| - 1) == Some(a)
    decreases |path|
  {
    if |path| > 1 {
      var p := path[|path|-2];
      assert Descent(parents, path[..|path|-1], a, p);
      DescentIsClimb(parents, path[..|path|-1], a, p);
      assert Climb(parents, d, 0) == Some(d);
      assert Climb(parents, d, 1) == Some(p);
      ClimbOn(parents, d, 1, p, |path| - 2);
    }
  }

  lemma {:induction false} ClimbIsDescent(parents: Parents, d: int, n: nat, a: int) returns (path: seq<int>)
    requires Climb(parents, d, n) == Some(a)
    ensures Descent(parents, path, a, d)
    decreases n
  {
    if n == 0 {
      path := [d];
    } else {
      var p := Climb(parents, d, n - 1).value;
      var rest := ClimbIsDescent(parents, d, n - 1, p);
      path := [a] + rest;
    }
  }

  /** Up and down are one relation. */
  lemma UpIsDown(parents: Parents, a: int, d: int)
    ensures Descends(parents, a, d) <==> Reaches(parents, d, a)
  {
    if path :| Descent(parents, path, a, d) {
      DescentIsClimb(parents, path, a, d);
    }
    if n: nat :| Climb(parents, d, n) == Some(a) {
      var path := ClimbIsDescent(parents, d, n, a);
    }
  }

  /** `u` is responsible for `d`: assigned to it or to a box above it. */
  ghost predicate Paged(parents: Parents, assignments: Assignments, d: int, u: int) {
    exists a :: Reaches(parents, d, a) && Assigned(assignments, a, u)
  }

  /** `d` is in the scope of `u`: at or below a box `u` is assigned to. */
  ghost predicate InScope(parents: Parents, assignments: Assignments, u: int, d: int) {
    exists a :: Assigned(assignments, a, u) && Descends(parents, a, d)
  }

  /** A user is paged for a box exactly when the box is in that user's scope. */
  lemma PagedIsInScope(parents: Parents, assignments: Assignments, d: int, u: int)
    ensures Paged(parents, assignments, d, u) <==> InScope(parents, assignments, u, d)
    ensures Paged(parents, assignments, d, u) <==> exists a :: Reaches(parents, d, a) && a in assignments && u in assignments[a]
  {
    forall a ensures Descends(parents, a, d) <==> Reaches(parents, d, a) {
      UpIsDown(parents, a, d);
    }
  }
}
