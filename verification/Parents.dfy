/** Parent maps: each box has at most one parent, and nothing rules a cycle out. */
module Parents {
  import opened Options

  type Parents = map<int, Option<int>>

  function Up(parents: Parents, d: int): Option<int> {
    if d in parents then parents[d] else None
  }

  /** Where `n` parent links lead from `d`, if that far. */
  function Climb(parents: Parents, d: int, n: nat): Option<int> {
    if n == 0 then Some(d)
    else
      var below := Climb(parents, d, n - 1);
      if below.None? then None else Up(parents, below.value)
  }

  ghost predicate Reaches(parents: Parents, d: int, a: int) {
    exists n: nat :: Climb(parents, d, n) == Some(a)
  }

  lemma {:induction false} ClimbOn(parents: Parents, d: int, m: nat, a: int, n: nat)
    requires Climb(parents, d, m) == Some(a)
    ensures Climb(parents, d, m + n) == Climb(parents, a, n)
  {
    if n > 0 { ClimbOn(parents, d, m, a, n - 1); }
  }

  lemma ReachesSelf(parents: Parents, d: int)
    ensures Reaches(parents, d, d)
  {
    assert Climb(parents, d, 0) == Some(d);
  }

  lemma ReachesUp(parents: Parents, d: int, a: int)
    requires Reaches(parents, d, a) && Up(parents, a).Some?
    ensures Reaches(parents, d, Up(parents, a).value)
  {
    var n: nat :| Climb(parents, d, n) == Some(a);
    assert Climb(parents, d, n + 1) == Up(parents, a);
  }

  lemma ReachesOn(parents: Parents, d: int, a: int, b: int)
    requires Reaches(parents, d, a) && Reaches(parents, a, b)
    ensures Reaches(parents, d, b)
  {
    var m: nat :| Climb(parents, d, m) == Some(a);
    var n: nat :| Climb(parents, a, n) == Some(b);
    ClimbOn(parents, d, m, a, n);
  }

  /** Whatever else `d` reaches, it reaches through its parent. */
  lemma ReachesThroughParent(parents: Parents, d: int, a: int)
    requires Reaches(parents, d, a) && d != a
    ensures Up(parents, d).Some? && Reaches(parents, Up(parents, d).value, a)
  {
    var n: nat :| Climb(parents, d, n) == Some(a);
    FirstLink(parents, d, n);
    assert Climb(parents, Up(parents, d).value, n - 1) == Some(a);
  }

  lemma {:induction false} FirstLink(parents: Parents, d: int, n: nat)
    requires n > 0 && Climb(parents, d, n).Some?
    ensures Up(parents, d).Some? && Climb(parents, Up(parents, d).value, n - 1) == Climb(parents, d, n)
  {
    assert Climb(parents, d, 0) == Some(d);
    assert Climb(parents, d, 1) == Up(parents, d);
    if n > 1 { FirstLink(parents, d, n - 1); }
  }

  /** Two boxes above one box lie on one line: one of them is above the other. */
  lemma OneLine(parents: Parents, d: int, a: int, b: int)
    requires Reaches(parents, d, a) && Reaches(parents, d, b)
    ensures Reaches(parents, a, b) || Reaches(parents, b, a)
  {
    var m: nat :| Climb(parents, d, m) == Some(a);
    var n: nat :| Climb(parents, d, n) == Some(b);
    if m <= n {
      ClimbOn(parents, d, m, a, n - m);
      assert Climb(parents, a, n - m) == Some(b);
    } else {
      ClimbOn(parents, d, n, b, m - n);
      assert Climb(parents, b, m - n) == Some(a);
    }
  }

  /** A set holding `d` and every parent of its own members holds all that `d` reaches. */
  lemma {:induction false} ClimbStaysIn(parents: Parents, d: int, s: set<int>, n: nat)
    requires d in s && forall x :: x in s && Up(parents, x).Some? ==> Up(parents, x).value in s
    ensures Climb(parents, d, n).Some? ==> Climb(parents, d, n).value in s
  {
    if n > 0 { ClimbStaysIn(parents, d, s, n - 1); }
  }

  /** Every box a climb from `d` can meet. */
  function Known(parents: Parents, d: int): set<int> {
    {d} + (set x | x in parents && parents[x].Some? :: parents[x].value)
  }

  /** The loop both walks share: up the links until a box repeats or has no parent. */
  method Chain(parents: Parents, d: int) returns (chain: seq<int>)
    ensures forall a :: a in chain <==> Reaches(parents, d, a)
    ensures forall i, k :: 0 <= i < k < |chain| ==> chain[i] != chain[k]
  {
    var cur := Some(d);
    var seen: set<int> := {};
    chain := [];
    ReachesSelf(parents, d);
    while cur.Some? && cur.value !in seen
      invariant forall a :: a in chain <==> a in seen
      invariant forall i, k :: 0 <= i < k < |chain| ==> chain[i] != chain[k]
      invariant forall a :: a in seen ==> Reaches(parents, d, a)
      invariant cur.Some? ==> Reaches(parents, d, cur.value) && cur.value in Known(parents, d)
      invariant forall a :: a in seen && Up(parents, a).Some? ==> Up(parents, a).value in seen || Up(parents, a) == cur
      invariant d in seen || cur == Some(d)
      decreases Known(parents, d) - seen
    {
      var at := cur.value;
      seen := seen + {at};
      chain := chain + [at];
      if Up(parents, at).Some? { ReachesUp(parents, d, at); }
      cur := Up(parents, at);
    }
    forall a | Reaches(parents, d, a) ensures a in chain {
      var n: nat :| Climb(parents, d, n) == Some(a);
      ClimbStaysIn(parents, d, seen, n);
    }
  }
}
