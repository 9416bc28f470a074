/** Adding up a measure of the values of a dictionary. */
module MapSums {
  ghost function Total<K, R>(m: map<K, R>, f: R -> int): int
    decreases |m|
  {
    if m == map[] then 0
    else
      var k :| k in m;
      f(m[k]) + Total(m - {k}, f)
  }

  /** The order of adding up does not matter. */
  lemma {:induction false} TotalPick<K, R>(m: map<K, R>, f: R -> int, k: K)
    requires k in m
    ensures Total(m, f) == f(m[k]) + Total(m - {k}, f)
    decreases |m|
  {
    var j :| j in m && Total(m, f) == f(m[j]) + Total(m - {j}, f);
    if j != k {
      TotalPick(m - {j}, f, k);
      TotalPick(m - {k}, f, j);
      assert m - {j} - {k} == m - {k} - {j};
    }
  }

  lemma TotalPut<K, R>(m: map<K, R>, f: R -> int, k: K, v: R)
    ensures Total(m[k := v], f) == Total(m, f) - (if k in m then f(m[k]) else 0) + f(v)
  {
    TotalPick(m[k := v], f, k);
    assert m[k := v] - {k} == m - {k};
    if k in m { TotalPick(m, f, k); } else { assert m - {k} == m; }
  }

  function ListTotal<K, R>(m: map<K, R>, keys: seq<K>, f: R -> int): int
    requires forall i :: 0 <= i < |keys| ==> keys[i] in m
  {
    if keys == [] then 0 else ListTotal(m, keys[..|keys|-1], f) + f(m[keys[|keys|-1]])
  }

  /** Listing every key once adds up to the whole. */
  lemma {:induction false} ListIsTotal<K, R>(m: map<K, R>, keys: seq<K>, f: R -> int)
    requires |keys| == |m| && forall i :: 0 <= i < |keys| ==> keys[i] in m
    requires forall i, j :: 0 <= i < j < |keys| ==> keys[i] != keys[j]
    ensures ListTotal(m, keys, f) == Total(m, f)
  {
    if keys == [] {
      assert m == map[];
    } else {
      var n := |keys| - 1;
      var rest := m - {keys[n]};
      assert rest.Keys == m.Keys - {keys[n]};
      ListIsTotal(rest, keys[..n], f);
      ListSame(m, rest, keys[..n], f);
      TotalPick(m, f, keys[n]);
    }
  }

  lemma {:induction false} ListSame<K, R>(m: map<K, R>, n: map<K, R>, keys: seq<K>, f: R -> int)
    requires forall i :: 0 <= i < |keys| ==> keys[i] in m && keys[i] in n && m[keys[i]] == n[keys[i]]
    ensures ListTotal(m, keys, f) == ListTotal(n, keys, f)
  {
    if keys != [] { ListSame(m, n, keys[..|keys|-1], f); }
  }
}
