/** Visiting a Python set or dictionary in no particular order. */
module Sets {
  /** Any element at all. */
  method Any<T>(s: set<T>) returns (x: T)
    requires s != {}
    ensures x in s
  {
    x :| x in s;
  }

  lemma Some<T>(s: set<T>) returns (x: T)
    requires s != {}
    ensures x in s
  {
    x :| x in s;
  }

  lemma Outside<T>(a: set<T>, b: set<T>) returns (x: T)
    requires !(a <= b)
    ensures x in a && x !in b
  {
    x :| x in a && x !in b;
  }

  /** Taking in what is already there changes nothing; taking in more leaves less to take. */
  lemma TakingIn<T>(have: set<T>, more: set<T>, all: set<T>)
    requires more <= all
    ensures more <= have ==> have + more == have
    ensures all - (have + more) <= all - have
    ensures !(more <= have) ==> all - (have + more) < all - have
  {
    if !(more <= have) {
      var x := Outside(more, have);
      assert x in all - have && x !in all - (have + more);
    }
  }

  /** A visit half way: what is done and what is left make up the whole, and do not overlap. */
  predicate Split<T>(all: set<T>, done: set<T>, left: set<T>) {
    done * left == {} && done + left == all
  }

  lemma VisitOne<T>(all: set<T>, done: set<T>, left: set<T>, x: T)
    requires Split(all, done, left) && x in left
    ensures Split(all, done + {x}, left - {x}) && x !in done && x in all
  {
    assert x in done ==> x in done * left;
    assert forall y :: y in left && y in done ==> y in done * left;
    assert (done + {x}) * (left - {x}) == {};
    assert done + {x} + (left - {x}) == all;
  }

  lemma Only<T>(s: set<T>, x: T)
    requires |s| == 1 && x in s
    ensures forall y :: y in s ==> y == x
  {
    var rest := s - {x};
    assert |rest| == 0;
    assert forall y :: y in s ==> y == x || y in rest;
  }

  lemma Single<T>(s: set<T>, x: T)
    requires x in s && forall y :: y in s ==> y == x
    ensures |s| == 1
  {
    assert s == {x};
  }

  lemma SameSize<T>(a: set<T>, b: set<T>)
    requires forall x :: x in a <==> x in b
    ensures |a| == |b|
  {
    assert a == b;
  }

  /** Two sets of positions that two maps carry onto each other are of one size. */
  lemma {:induction false} PairedSize(a: set<nat>, b: set<nat>, there: seq<nat>, back: seq<nat>)
    requires forall i :: i in a ==> i < |there| && there[i] in b && there[i] < |back| && back[there[i]] == i
    requires forall k :: k in b ==> k < |back| && back[k] in a && back[k] < |there| && there[back[k]] == k
    ensures |a| == |b|
  {
    if a == {} {
      if b != {} { var k := Some(b); }
    } else {
      var i := Some(a);
      PairedSize(a - {i}, b - {there[i]}, there, back);
    }
  }

  lemma SmallerSize<T>(a: set<T>, b: set<T>)
    requires a < b
    ensures |a| < |b|
  {
    var x := Outside(b, a);
    assert b == a + (b - a);
    assert x in b - a && |b - a| > 0;
    assert a * (b - a) == {};
  }

  lemma NoLarger<T>(a: set<T>, b: set<T>)
    requires a <= b
    ensures |a| <= |b|
  {
    if a < b { SmallerSize(a, b); } else { assert a == b; }
  }
}
