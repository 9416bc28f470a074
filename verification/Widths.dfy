/**
 `_solve_widths` of pdf.py: sharing out the width of a page among a table's columns. Widths
 are real numbers; the measured widths of titles and cells are given.
 */
module Widths {
  import Sets

  const PAD := 6.0

  datatype Column = Column(weight: real, title: real)

  function Max(a: real, b: real): real {
    if a >= b then a else b
  }

  /** The widest of a column's cells in the first `n` rows, its title counting a little extra. */
  function Widest(columns: seq<Column>, rows: seq<seq<real>>, c: nat, n: nat): real
    requires c < |columns| && n <= |rows| && forall r :: 0 <= r < |rows| ==> |rows[r]| == |columns|
  {
    if n == 0 then columns[c].title * 1.06 else Max(Widest(columns, rows, c, n - 1), rows[n-1][c])
  }

  /** It covers the title and every cell of the column, and one of them is that wide. */
  lemma {:induction false} WidestIs(columns: seq<Column>, rows: seq<seq<real>>, c: nat, n: nat)
    requires c < |columns| && n <= |rows| && forall r :: 0 <= r < |rows| ==> |rows[r]| == |columns|
    ensures columns[c].title * 1.06 <= Widest(columns, rows, c, n)
    ensures forall r :: 0 <= r < n ==> rows[r][c] <= Widest(columns, rows, c, n)
    ensures Widest(columns, rows, c, n) == columns[c].title * 1.06 || exists r :: 0 <= r < n && rows[r][c] == Widest(columns, rows, c, n)
  {
    if n > 0 { WidestIs(columns, rows, c, n - 1); }
  }

  /** What each column needs: its widest text and the padding. */
  function NeedsOf(columns: seq<Column>, rows: seq<seq<real>>): (need: seq<real>)
    requires forall r :: 0 <= r < |rows| ==> |rows[r]| == |columns|
    ensures |need| == |columns| && forall c :: 0 <= c < |columns| ==> need[c] == Widest(columns, rows, c, |rows|) + PAD
  {
    seq(|columns|, c requires 0 <= c < |columns| => Widest(columns, rows, c, |rows|) + PAD)
  }

  function SumAll(xs: seq<real>): real {
    if xs == [] then 0.0 else SumAll(xs[..|xs|-1]) + xs[|xs|-1]
  }

  /** The sum of the entries at the positions in `s`. */
  function SumIn(xs: seq<real>, s: set<nat>): real {
    if xs == [] then 0.0 else SumIn(xs[..|xs|-1], s) + (if |xs| - 1 in s then xs[|xs|-1] else 0.0)
  }

  function CountIn(n: nat, s: set<nat>): nat {
    if n == 0 then 0 else CountIn(n - 1, s) + (if n - 1 in s then 1 else 0)
  }

  function Weights(columns: seq<Column>): (ws: seq<real>)
    ensures |ws| == |columns| && forall i :: 0 <= i < |columns| ==> ws[i] == columns[i].weight
  {
    seq(|columns|, i requires 0 <= i < |columns| => columns[i].weight)
  }

  lemma {:induction false} CountIsSize(n: nat, s: set<nat>)
    requires forall i :: i in s ==> i < n
    ensures |s| == CountIn(n, s)
  {
    if n == 0 {
      if s != {} { var i := Sets.Some(s); }
    } else if n - 1 in s {
      CountIsSize(n - 1, s - {n - 1});
      CountSame(n - 1, s, s - {n - 1});
    } else {
      CountIsSize(n - 1, s);
    }
  }

  lemma {:induction false} CountSame(n: nat, s: set<nat>, t: set<nat>)
    requires forall i :: 0 <= i < n ==> (i in s <==> i in t)
    ensures CountIn(n, s) == CountIn(n, t)
  {
    if n > 0 { CountSame(n - 1, s, t); }
  }

  // ------------------------------------------------------- the two outcomes

  /** Room to spare: everyone gets what they need and the rest in proportion to it. */
  ghost predicate Spared(need: seq<real>, avail: real, widths: seq<real>) {
    |widths| == |need| && 0.0 < SumAll(need) <= avail
    && forall i :: 0 <= i < |need| ==> widths[i] == need[i] + (avail - SumAll(need)) * need[i] / SumAll(need)
  }

  /** What `l` even shares of `fair` come to. */
  function Shares(fair: real, l: nat): real {
    fair * l as real
  }

  /** `x` is no more than one of `l` even shares of `rest`. */
  predicate Modest(x: real, l: nat, rest: real) {
    Shares(x, l) <= rest
  }

  /** A share of `rest` by weight. */
  function Portion(rest: real, weight: real, total: real): real
    requires total != 0.0
  {
    rest * (weight / total)
  }

  /**
   Too little room: the columns in `split` share what is left by weight, every other column
   gets what it needs, and `split` is exactly the columns that need more than an even share
   of what is left.
   */
  ghost predicate Shared(columns: seq<Column>, need: seq<real>, avail: real, widths: seq<real>, split: set<nat>) {
    && |widths| == |need| == |columns| && SumAll(need) > avail
    && split != {} && (forall i :: i in split ==> i < |need|)
    && var rest := avail - (SumAll(need) - SumIn(need, split));
       var wsum := SumIn(Weights(columns), split);
       && (avail >= 0.0 ==> rest >= 0.0)
       && (forall i :: 0 <= i < |need| ==> (i in split <==> !Modest(need[i], |split|, rest)))
       && (forall i :: 0 <= i < |need| && i !in split ==> widths[i] == need[i])
       && (forall i :: 0 <= i < |need| && i in split ==>
             widths[i] == Portion(rest, columns[i].weight, if wsum == 0.0 then |split| as real else wsum))
  }

  /** The needs, none counted for more than `cap`. */
  function Capped(need: seq<real>, cap: real): (xs: seq<real>)
    ensures |xs| == |need| && forall i :: 0 <= i < |need| ==> xs[i] == if need[i] <= cap then need[i] else cap
  {
    seq(|need|, i requires 0 <= i < |need| => if need[i] <= cap then need[i] else cap)
  }

  /** The columns whose own need, given to every column that needs as much, is more than the page has. */
  function Sharers(need: seq<real>, avail: real): set<nat> {
    set i: nat | i < |need| && SumAll(Capped(need, need[i])) > avail
  }

  /** What `_solve_widths` makes of the needs. */
  ghost predicate Solved(columns: seq<Column>, need: seq<real>, avail: real, widths: seq<real>) {
    && |widths| == |need| == |columns|
    && (need != [] ==> if SumAll(need) <= avail then Spared(need, avail, widths)
                       else Shared(columns, need, avail, widths, Sharers(need, avail)))
  }

  /** The columns still waiting, the width still to give, and what has been given. */
  ghost predicate Waiting(need: seq<real>, avail: real, left: set<nat>, remaining: real, widths: seq<real>) {
    && |widths| == |need| && (forall i :: i in left ==> i < |need|)
    && remaining == avail - (SumAll(need) - SumIn(need, left))
    && (forall i :: 0 <= i < |need| && i !in left ==> widths[i] == need[i] && Modest(need[i], CountIn(|need|, left), remaining))
    && (if avail >= 0.0 then remaining >= 0.0 else forall i :: 0 <= i < |need| ==> i in left)
  }

  lemma {:induction false} SumEverything(xs: seq<real>, s: set<nat>)
    requires forall i :: 0 <= i < |xs| ==> i in s
    ensures SumIn(xs, s) == SumAll(xs)
  {
    if xs != [] { SumEverything(xs[..|xs|-1], s); }
  }

  /** Taking the positions of `small` out of `left`. */
  lemma {:induction false} SumLess(xs: seq<real>, left: set<nat>, small: set<nat>)
    requires forall i :: i in small ==> i in left
    ensures SumIn(xs, left - small) == SumIn(xs, left) - SumIn(xs, small)
  {
    if xs != [] { SumLess(xs[..|xs|-1], left, small); }
  }

  lemma {:induction false} CountLess(n: nat, left: set<nat>, small: set<nat>)
    requires forall i :: i in small ==> i in left
    ensures CountIn(n, left - small) == CountIn(n, left) - CountIn(n, small)
  {
    if n > 0 { CountLess(n - 1, left, small); }
  }

  lemma SharesMore(fair: real, l: nat)
    ensures Shares(fair, l + 1) == Shares(fair, l) + fair && Shares(fair, 0) == 0.0
  {
    assert (l + 1) as real == l as real + 1.0;
  }

  /** Positions that hold at most `fair` each hold at most `fair` a piece in all. */
  lemma {:induction false} SumBelow(xs: seq<real>, s: set<nat>, fair: real)
    requires forall i :: 0 <= i < |xs| && i in s ==> xs[i] <= fair
    ensures SumIn(xs, s) <= Shares(fair, CountIn(|xs|, s))
  {
    hide Shares;
    SharesMore(fair, 0);
    if xs != [] {
      SumBelow(xs[..|xs|-1], s, fair);
      SharesMore(fair, CountIn(|xs| - 1, s));
    }
  }

  /** Positions that hold more than `fair` each hold more than `fair` a piece in all. */
  lemma {:induction false} SumAbove(xs: seq<real>, s: set<nat>, fair: real)
    requires forall i :: 0 <= i < |xs| && i in s ==> xs[i] > fair
    ensures SumIn(xs, s) >= Shares(fair, CountIn(|xs|, s))
    ensures CountIn(|xs|, s) > 0 ==> SumIn(xs, s) > Shares(fair, CountIn(|xs|, s))
  {
    hide Shares;
    SharesMore(fair, 0);
    if xs != [] {
      SumAbove(xs[..|xs|-1], s, fair);
      SharesMore(fair, CountIn(|xs| - 1, s));
    }
  }

  lemma {:induction false} SumNone(xs: seq<real>, s: set<nat>)
    requires forall i :: 0 <= i < |xs| ==> i !in s
    ensures SumIn(xs, s) == 0.0 && CountIn(|xs|, s) == 0
  {
    if xs != [] { SumNone(xs[..|xs|-1], s); }
  }

  lemma {:induction false} SumPositive(xs: seq<real>)
    requires forall i :: 0 <= i < |xs| ==> xs[i] > 0.0
    ensures SumAll(xs) >= 0.0 && (xs != [] ==> SumAll(xs) > 0.0)
  {
    if xs != [] { SumPositive(xs[..|xs|-1]); }
  }

  /** While the needs overflow, somebody is always left waiting. */
  lemma {:induction false} SomeoneWaits(need: seq<real>, avail: real, left: set<nat>, remaining: real, widths: seq<real>)
    requires Waiting(need, avail, left, remaining, widths) && SumAll(need) > avail && need != []
    ensures left != {} && CountIn(|need|, left) == |left| > 0
  {
    CountIsSize(|need|, left);
    if left == {} { SumNone(need, left); }
  }

  /** Giving at most an even share each leaves at least an even share each. */
  lemma FairLeft(remaining: real, l: real, k: real, given: real, fair: real)
    requires l > 0.0 && fair == remaining / l && given <= fair * k
    ensures remaining - given >= fair * (l - k)
  {
    assert fair * l == remaining;
    assert fair * (l - k) == fair * l - fair * k;
  }

  lemma Product(a: real, b: real, c: real)
    requires a <= b && c >= 0.0
    ensures a * c <= b * c
  {}

  /** One round: the columns that need no more than an even share get it and leave. */
  lemma {:induction false} Round(need: seq<real>, avail: real, left: set<nat>, remaining: real, widths: seq<real>, fair: real, small: set<nat>, after: seq<real>)
    requires Waiting(need, avail, left, remaining, widths) && need != [] && CountIn(|need|, left) > 0
    requires forall i :: 0 <= i < |need| ==> need[i] > 0.0
    requires fair == remaining / CountIn(|need|, left) as real && small != {}
    requires forall i :: i in small <==> i in left && need[i] <= fair
    requires |after| == |widths| && forall i :: 0 <= i < |need| ==> after[i] == if i in small then need[i] else widths[i]
    ensures Waiting(need, avail, left - small, remaining - SumIn(need, small), after)
  {
    hide *;
    var rest := RoundNumbers(need, avail, left, remaining, widths, fair, small);
    RoundGiven(need, avail, left, remaining, widths, fair, small, rest);
    RoundDone(need, avail, left, remaining, widths, small, after, rest);
  }

  lemma {:induction false} RoundDone(need: seq<real>, avail: real, left: set<nat>, remaining: real, widths: seq<real>, small: set<nat>, after: seq<real>, rest: real)
    requires Waiting(need, avail, left, remaining, widths) && remaining > 0.0 && rest >= 0.0
    requires rest == avail - (SumAll(need) - SumIn(need, left - small))
    requires forall i :: 0 <= i < |need| && i !in left - small ==> Modest(need[i], CountIn(|need|, left - small), rest)
    requires |after| == |widths| && forall i :: 0 <= i < |need| ==> after[i] == if i in small then need[i] else widths[i]
    ensures Waiting(need, avail, left - small, rest, after)
  {
    hide SumIn, SumAll, CountIn, Modest;
    if avail < 0.0 { SumEverything(need, left); }
  }

  lemma RoundNumbers(need: seq<real>, avail: real, left: set<nat>, remaining: real, widths: seq<real>, fair: real, small: set<nat>)
    returns (rest: real)
    requires Waiting(need, avail, left, remaining, widths) && need != [] && CountIn(|need|, left) > 0
    requires forall i :: 0 <= i < |need| ==> need[i] > 0.0
    requires fair == remaining / CountIn(|need|, left) as real && small != {}
    requires forall i :: i in small <==> i in left && need[i] <= fair
    ensures rest == remaining - SumIn(need, small) && rest == avail - (SumAll(need) - SumIn(need, left - small))
    ensures remaining > 0.0 && rest >= 0.0
    ensures CountIn(|need|, left - small) == CountIn(|need|, left) - CountIn(|need|, small)
    ensures rest >= fair * CountIn(|need|, left - small) as real
  {
    hide SumIn, SumAll, CountIn, Modest;
    var n := |need|;
    rest := remaining - SumIn(need, small);
    SumBelow(need, small, fair);
    SumLess(need, left, small);
    CountLess(n, left, small);
    var some := Sets.Some(small);
    RoundTotal(remaining, CountIn(n, left), CountIn(n, small), SumIn(need, small), fair, need[some]);
  }

  lemma {:induction false} RoundGiven(need: seq<real>, avail: real, left: set<nat>, remaining: real, widths: seq<real>, fair: real, small: set<nat>, rest: real)
    requires Waiting(need, avail, left, remaining, widths) && CountIn(|need|, left) > 0
    requires fair == remaining / CountIn(|need|, left) as real && forall i :: i in small <==> i in left && need[i] <= fair
    requires CountIn(|need|, left - small) == CountIn(|need|, left) - CountIn(|need|, small)
    requires rest >= fair * CountIn(|need|, left - small) as real
    ensures forall i :: 0 <= i < |need| && i !in left - small ==> Modest(need[i], CountIn(|need|, left - small), rest)
  {
    hide SumIn, SumAll, CountIn, Modest;
    forall i | 0 <= i < |need| && i !in left - small ensures Modest(need[i], CountIn(|need|, left - small), rest) {
      RoundOne(need[i], remaining, CountIn(|need|, left), CountIn(|need|, small), rest, fair);
    }
  }

  lemma RoundTotal(remaining: real, l: nat, k: nat, given: real, fair: real, need: real)
    requires 0 < l && k <= l && fair == remaining / l as real && given <= fair * k as real && 0.0 < need <= fair
    ensures remaining > 0.0 && remaining - given >= fair * (l - k) as real >= 0.0
  {
    FairPositive(remaining, l as real, fair, need);
    FairLeft(remaining, l as real, k as real, given, fair);
    Product(0.0, fair, (l - k) as real);
  }

  lemma RoundOne(x: real, remaining: real, l: nat, k: nat, rest: real, fair: real)
    requires 0 < l && k <= l && fair == remaining / l as real && (x <= fair || Modest(x, l, remaining))
    requires rest >= fair * (l - k) as real
    ensures Modest(x, l - k, rest)
  {
    OverFair(x, remaining, l as real, fair);
    Product(x, fair, (l - k) as real);
  }

  lemma FairPositive(remaining: real, l: real, fair: real, need: real)
    requires l > 0.0 && fair == remaining / l && 0.0 < need <= fair
    ensures remaining > 0.0
  {
    assert fair * l == remaining;
    Product(need, fair, l);
  }

  lemma OverFair(need: real, remaining: real, l: real, fair: real)
    requires l > 0.0 && fair == remaining / l
    ensures need > fair <==> need * l > remaining
  {
    assert fair * l == remaining;
    if need <= fair { Product(need, fair, l); } else { assert (need - fair) * l > 0.0; }
  }

  // ------------------------------------------------------------- the method

  /** The loops that measure the columns. */
  method Needs(columns: seq<Column>, rows: seq<seq<real>>) returns (need: seq<real>)
    requires forall r :: 0 <= r < |rows| ==> |rows[r]| == |columns|
    ensures need == NeedsOf(columns, rows)
  {
    need := [];
    for c := 0 to |columns|
      invariant |need| == c && forall j :: 0 <= j < c ==> need[j] == Widest(columns, rows, j, |rows|) + PAD
    {
      var widest := columns[c].title * 1.06;
      for r := 0 to |rows|
        invariant widest == Widest(columns, rows, c, r)
      {
        widest := Max(widest, rows[r][c]);
      }
      need := need + [widest + PAD];
    }
  }

  method Total(xs: seq<real>) returns (t: real)
    ensures t == SumAll(xs)
  {
    t := 0.0;
    for i := 0 to |xs|
      invariant t == SumAll(xs[..i])
    {
      assert xs[..i+1][..i] == xs[..i];
      t := t + xs[i];
    }
    assert xs[..|xs|] == xs;
  }

  /** `sum(... for i in s)`. */
  method TotalIn(xs: seq<real>, s: set<nat>) returns (t: real)
    ensures t == SumIn(xs, s)
  {
    t := 0.0;
    for i := 0 to |xs|
      invariant t == SumIn(xs[..i], s)
    {
      assert xs[..i+1][..i] == xs[..i];
      if i in s {
        t := t + xs[i];
      }
    }
    assert xs[..|xs|] == xs;
  }

  /** `set(range(n))`. */
  method Positions(n: nat) returns (s: set<nat>)
    ensures forall i :: i in s <==> 0 <= i < n
  {
    s := {};
    for i := 0 to n
      invariant forall j :: j in s <==> 0 <= j < i
    {
      s := s + {i};
    }
  }

  /** The rounds: everyone who needs no more than an even share gets it, until nobody does. */
  method Settle(need: seq<real>, avail: real) returns (left: set<nat>, remaining: real, widths: seq<real>)
    requires need != [] && SumAll(need) > avail && forall i :: 0 <= i < |need| ==> need[i] > 0.0
    ensures Waiting(need, avail, left, remaining, widths)
    ensures left != {} && |left| > 0 && forall i :: i in left ==> i < |need| && need[i] > remaining / |left| as real
  {
    left := Positions(|need|);
    remaining := avail;
    widths := seq(|need|, i => 0.0);
    SumEverything(need, left);
    hide SumIn, SumAll, CountIn, Waiting;
    StartWaiting(need, avail, left, widths);
    SomeoneWaits(need, avail, left, remaining, widths);
    while true
      invariant Waiting(need, avail, left, remaining, widths)
      invariant left != {} && CountIn(|need|, left) == |left| > 0
      decreases |left|
    {
      var fair := remaining / |left| as real;
      InRange(need, avail, left, remaining, widths);
      var small := set i | i in left && need[i] <= fair;
      if small == {} {
        NoneSmall(need, left, small, fair);
        return;
      }
      var after := Grant(need, widths, small);
      var given := TotalIn(need, small);
      Round(need, avail, left, remaining, widths, fair, small, after);
      Fewer(left, small);
      left, remaining, widths := left - small, remaining - given, after;
      SomeoneWaits(need, avail, left, remaining, widths);
    }
  }

  lemma InRange(need: seq<real>, avail: real, left: set<nat>, remaining: real, widths: seq<real>)
    requires Waiting(need, avail, left, remaining, widths)
    ensures |widths| == |need| && forall i :: i in left ==> i < |need|
  {}

  lemma {:induction false} StartWaiting(need: seq<real>, avail: real, left: set<nat>, widths: seq<real>)
    requires |widths| == |need| && (forall i :: i in left <==> 0 <= i < |need|) && SumIn(need, left) == SumAll(need)
    ensures Waiting(need, avail, left, avail, widths)
  {}

  lemma NoneSmall(need: seq<real>, left: set<nat>, small: set<nat>, fair: real)
    requires (forall i :: i in left ==> i < |need|) && small == {} && forall i :: i in small <==> i in left && need[i] <= fair
    ensures forall i :: i in left ==> need[i] > fair
  {
    forall i | i in left ensures need[i] > fair { assert i in small <==> need[i] <= fair; }
  }

  lemma Fewer(left: set<nat>, small: set<nat>)
    requires small != {} && forall i :: i in small ==> i in left
    ensures |left - small| < |left|
  {
    var x := Sets.Some(small);
    assert left - small < left by { assert x in left && x !in left - small; }
    Sets.SmallerSize(left - small, left);
  }

  method Grant(need: seq<real>, widths: seq<real>, small: set<nat>) returns (after: seq<real>)
    requires |widths| == |need| && forall i :: i in small ==> i < |need|
    ensures |after| == |widths| && forall i :: 0 <= i < |need| ==> after[i] == if i in small then need[i] else widths[i]
  {
    after := seq(|widths|, i requires 0 <= i < |widths| => if i in small then need[i] else widths[i]);
  }

  /** `_solve_widths`. */
  method SolveWidths(columns: seq<Column>, rows: seq<seq<real>>, avail: real) returns (widths: seq<real>)
    requires forall c :: 0 <= c < |columns| ==> columns[c].title >= 0.0
    requires forall r :: 0 <= r < |rows| ==> |rows[r]| == |columns|
    ensures Solved(columns, NeedsOf(columns, rows), avail, widths)
  {
    hide SumAll, SumIn, CountIn, Waiting, Spared, Shared, Widest, Sharers;
    var need := Needs(columns, rows);
    forall c | 0 <= c < |columns| ensures need[c] >= PAD { WidestIs(columns, rows, c, |rows|); }
    SumPositive(need);
    var total := Total(need);
    if total <= 0.0 {
      return seq(|columns|, i => avail / (if |columns| > 1 then |columns| else 1) as real);
    }
    if total <= avail {
      widths := Spare(need, avail, total);
      return;
    }
    if columns == [] {
      NothingTotals(need);
      return [];
    }
    var left, remaining;
    left, remaining, widths := Settle(need, avail);
    widths := Share(columns, need, avail, left, remaining, widths);
    SplitIs(columns, need, avail, widths, left);
  }

  lemma {:induction false} NothingTotals(need: seq<real>)
    ensures need == [] ==> SumAll(need) == 0.0
  {}

  method Spare(need: seq<real>, avail: real, total: real) returns (widths: seq<real>)
    requires total == SumAll(need) && 0.0 < total <= avail
    ensures Spared(need, avail, widths) && |widths| == |need|
  {
    hide SumAll;
    var extra := avail - total;
    widths := seq(|need|, i requires 0 <= i < |need| => need[i] + extra * need[i] / total);
  }

  /** The split: what is left over goes by weight, or evenly if there is no weight at all. */
  method Share(columns: seq<Column>, need: seq<real>, avail: real, left: set<nat>, remaining: real, given: seq<real>)
    returns (widths: seq<real>)
    requires |need| == |columns| && SumAll(need) > avail && Waiting(need, avail, left, remaining, given)
    requires left != {} && |left| > 0 && forall i :: i in left ==> i < |need| && need[i] > remaining / |left| as real
    ensures Shared(columns, need, avail, widths, left) && |widths| == |columns|
  {
    hide SumAll, SumIn, CountIn, Weights;
    var wsum := TotalIn(Weights(columns), left);
    var by_ := if wsum == 0.0 then |left| as real else wsum;
    widths := seq(|given|, i requires 0 <= i < |given| => if i in left then Portion(remaining, columns[i].weight, by_) else given[i]);
    CountIsSize(|need|, left);
    forall i | 0 <= i < |need| ensures i in left <==> !Modest(need[i], |left|, remaining) {
      OverFair(need[i], remaining, |left| as real, remaining / |left| as real);
    }
  }

  // ---------------------------------------------------------- who has to share

  lemma {:induction false} SumAtMost(xs: seq<real>, ys: seq<real>, s: set<nat>)
    requires |xs| == |ys| && forall i :: 0 <= i < |xs| && i !in s ==> ys[i] <= xs[i]
    ensures SumAll(ys) <= SumAll(xs) - SumIn(xs, s) + SumIn(ys, s)
  {
    if xs != [] { SumAtMost(xs[..|xs|-1], ys[..|ys|-1], s); }
  }

  /** A column that shares: capping everyone at its need still overflows the page. */
  lemma SharerOverflows(columns: seq<Column>, need: seq<real>, avail: real, widths: seq<real>, split: set<nat>, i: nat)
    requires Shared(columns, need, avail, widths, split) && i in split
    ensures SumAll(Capped(need, need[i])) > avail
  {
    hide SumAll, SumIn, CountIn, Weights, Portion;
    CountIsSize(|need|, split);
    var rest, l := avail - (SumAll(need) - SumIn(need, split)), |split| as real;
    assert |split| > 0 by { assert i in split; }
    var fair, caps := rest / l, Capped(need, need[i]);
    forall j | 0 <= j < |need| ensures need[j] > fair <==> j in split { OverFair(need[j], rest, l, fair); }
    SumSplit(need, caps, split);
    SumAbove(caps, split, fair);
    Again(rest, l);
  }

  /** A column that does not share: with everyone capped at its need, the page is enough. */
  lemma OthersFit(columns: seq<Column>, need: seq<real>, avail: real, widths: seq<real>, split: set<nat>, i: nat)
    requires Shared(columns, need, avail, widths, split) && i < |need| && i !in split
    ensures SumAll(Capped(need, need[i])) <= avail
  {
    hide SumAll, SumIn, CountIn, Weights, Portion;
    CountIsSize(|need|, split);
    var caps := Capped(need, need[i]);
    SumAtMost(need, caps, split);
    SumBelow(caps, split, need[i]);
  }

  /** Who shares is settled by the needs and the page, whatever order the rounds went in. */
  lemma SplitIs(columns: seq<Column>, need: seq<real>, avail: real, widths: seq<real>, split: set<nat>)
    requires Shared(columns, need, avail, widths, split)
    ensures split == Sharers(need, avail)
  {
    forall i | i in split ensures i in Sharers(need, avail) { SharerOverflows(columns, need, avail, widths, split, i); }
    forall i | i in Sharers(need, avail) ensures i in split {
      if i !in split { OthersFit(columns, need, avail, widths, split, i); }
    }
  }

  /** The widths are settled too. */
  lemma SolvedOnce(columns: seq<Column>, need: seq<real>, avail: real, widths: seq<real>, other: seq<real>)
    requires Solved(columns, need, avail, widths) && Solved(columns, need, avail, other)
    ensures widths == other
  {
    hide SumAll, SumIn, Sharers, Portion, Modest;
  }

  // --------------------------------------------------------- what is given out

  lemma {:induction false} SumScaled(xs: seq<real>, ys: seq<real>, s: set<nat>, f: real)
    requires |xs| == |ys| && forall i :: 0 <= i < |xs| && i in s ==> ys[i] == f * xs[i]
    ensures SumIn(ys, s) == f * SumIn(xs, s)
  {
    if xs != [] {
      var n := |xs| - 1;
      SumScaled(xs[..n], ys[..n], s, f);
      Spreads(f, SumIn(xs[..n], s), if n in s then xs[n] else 0.0);
    }
  }

  lemma Spreads(f: real, a: real, b: real)
    ensures f * (a + b) == f * a + f * b
  {}

  lemma {:induction false} SumSplit(xs: seq<real>, ys: seq<real>, s: set<nat>)
    requires |xs| == |ys| && forall i :: 0 <= i < |xs| && i !in s ==> ys[i] == xs[i]
    ensures SumAll(ys) == SumAll(xs) - SumIn(xs, s) + SumIn(ys, s)
  {
    if xs != [] { SumSplit(xs[..|xs|-1], ys[..|ys|-1], s); }
  }

  lemma {:induction false} SumTwice(xs: seq<real>, ys: seq<real>, f: real)
    requires |xs| == |ys| && forall i :: 0 <= i < |xs| ==> ys[i] == xs[i] + f * xs[i]
    ensures SumAll(ys) == SumAll(xs) + f * SumAll(xs)
  {
    if xs != [] {
      var n := |xs| - 1;
      SumTwice(xs[..n], ys[..n], f);
      Spreads(f, SumAll(xs[..n]), xs[n]);
    }
  }

  /** With room to spare the widths fill the page exactly, and nobody gets less than it needs. */
  lemma {:induction false} SparedFills(need: seq<real>, avail: real, widths: seq<real>)
    requires Spared(need, avail, widths) && forall i :: 0 <= i < |need| ==> need[i] > 0.0
    ensures SumAll(widths) == avail
    ensures forall i :: 0 <= i < |need| ==> widths[i] >= need[i]
  {
    hide SumAll;
    var total, extra := SumAll(need), avail - SumAll(need);
    var f := extra / total;
    forall i | 0 <= i < |need| ensures widths[i] == need[i] + f * need[i] >= need[i] {
      Fraction(extra, need[i], total);
    }
    SumTwice(need, widths, f);
    Whole(extra, total);
  }

  lemma Fraction(extra: real, x: real, total: real)
    requires extra >= 0.0 && x > 0.0 && total > 0.0
    ensures extra * x / total == extra / total * x >= 0.0
  {}

  lemma Whole(extra: real, total: real)
    requires total > 0.0
    ensures extra / total * total == extra
  {}

  /** What the columns that share get between them. */
  lemma {:induction false} SplitGets(columns: seq<Column>, need: seq<real>, avail: real, widths: seq<real>, split: set<nat>)
    requires Shared(columns, need, avail, widths, split)
    ensures
      var rest := avail - (SumAll(need) - SumIn(need, split));
      SumIn(widths, split) == if SumIn(Weights(columns), split) == 0.0 then 0.0 else rest
  {
    hide SumAll, SumIn, Modest, Portion;
    var ws := Weights(columns);
    var rest, wsum := avail - (SumAll(need) - SumIn(need, split)), SumIn(ws, split);
    var by_ := if wsum == 0.0 then |split| as real else wsum;
    forall i | 0 <= i < |need| && i in split ensures widths[i] == rest / by_ * ws[i] {
      Regroup(rest, ws[i], by_);
    }
    SumScaled(ws, widths, split, rest / by_);
    if wsum != 0.0 { Again(rest, wsum); }
  }

  lemma Regroup(a: real, b: real, c: real)
    requires c != 0.0
    ensures Portion(a, b, c) == a / c * b
  {}

  lemma Again(a: real, b: real)
    requires b != 0.0
    ensures a / b * b == a
  {}

  /**
   When the needs overflow, the widths fill the page exactly when those who share carry some
   weight, or there is nothing left to share.
   */
  lemma {:induction false} SharedFills(columns: seq<Column>, need: seq<real>, avail: real, widths: seq<real>, split: set<nat>)
    requires Shared(columns, need, avail, widths, split)
    ensures
      var rest := avail - (SumAll(need) - SumIn(need, split));
      SumAll(widths) == avail <==> SumIn(Weights(columns), split) != 0.0 || rest == 0.0
  {
    hide SumAll, SumIn, Weights, Modest, Portion;
    SplitGets(columns, need, avail, widths, split);
    SumSplit(need, widths, split);
  }

  /** There is nothing left to share exactly when the page has no width at all. */
  lemma {:induction false} NothingLeft(columns: seq<Column>, need: seq<real>, avail: real, widths: seq<real>, split: set<nat>)
    requires Shared(columns, need, avail, widths, split) && forall i :: 0 <= i < |need| ==> need[i] > 0.0
    ensures avail - (SumAll(need) - SumIn(need, split)) == 0.0 <==> avail == 0.0
  {
    hide SumAll, SumIn, Weights, Portion;
    var rest := avail - (SumAll(need) - SumIn(need, split));
    var some := Sets.Some(split);
    if avail == 0.0 {
      forall i | 0 <= i < |need| ensures i in split {
        if i !in split {
          OthersFit(columns, need, avail, widths, split, i);
          SumPositive(Capped(need, need[i]));
        }
      }
      SumEverything(need, split);
    } else if rest == 0.0 {
      forall i | 0 <= i < |need| ensures i in split { Grows(need[i], |split|); }
      SumEverything(need, split);
    }
  }

  lemma Grows(x: real, l: nat)
    requires x > 0.0 && l > 0
    ensures !Modest(x, l, 0.0)
  {}

  /**
   The widths fill the page exactly when there is room for every need, or the columns that
   have to share weigh something together, or the page has no width.
   */
  lemma {:induction false} FillsExactly(columns: seq<Column>, need: seq<real>, avail: real, widths: seq<real>)
    requires Solved(columns, need, avail, widths) && need != [] && forall i :: 0 <= i < |need| ==> need[i] > 0.0
    ensures SumAll(widths) == avail
            <==> SumAll(need) <= avail || SumIn(Weights(columns), Sharers(need, avail)) != 0.0 || avail == 0.0
  {
    hide SumAll, SumIn, Weights, Sharers, Shared, Spared;
    if SumAll(need) <= avail {
      SparedFills(need, avail, widths);
    } else {
      SharedFills(columns, need, avail, widths, Sharers(need, avail));
      NothingLeft(columns, need, avail, widths, Sharers(need, avail));
    }
  }

  /** One column without weight on a page too narrow for its title gets no width at all. */
  lemma {:induction false} WeightlessGetsNothing(avail: real, widths: seq<real>)
    requires avail < 11.3 && Solved([Column(0.0, 5.0)], NeedsOf([Column(0.0, 5.0)], []), avail, widths)
    ensures NeedsOf([Column(0.0, 5.0)], []) == [11.3] && widths == [0.0]
    ensures SumAll(widths) == avail <==> avail == 0.0
  {
    var columns := [Column(0.0, 5.0)];
    var need := NeedsOf(columns, []);
    assert need[..0] == [] && widths[..0] == [] && Weights(columns)[..0] == [];
    var i := Sets.Some(Sharers(need, avail));
    assert i == 0;
    assert SumIn(Weights(columns), Sharers(need, avail)) == 0.0;
  }

  lemma {:induction false} SumIsPositive(xs: seq<real>, s: set<nat>, k: nat)
    requires k < |xs| && k in s && forall i :: 0 <= i < |xs| ==> xs[i] > 0.0
    ensures SumIn(xs, s) > 0.0
  {
    var n := |xs| - 1;
    if k < n { SumIsPositive(xs[..n], s, k); }
    else { SumNotNegative(xs[..n], s); }
  }

  lemma {:induction false} SumNotNegative(xs: seq<real>, s: set<nat>)
    requires forall i :: 0 <= i < |xs| ==> xs[i] > 0.0
    ensures SumIn(xs, s) >= 0.0
  {
    if xs != [] { SumNotNegative(xs[..|xs|-1], s); }
  }

  /** With weights above zero and a page to fill, the widths fill it exactly and none is negative. */
  lemma {:induction false} WidthsFill(columns: seq<Column>, need: seq<real>, avail: real, widths: seq<real>)
    requires Solved(columns, need, avail, widths) && need != [] && avail >= 0.0
    requires forall i :: 0 <= i < |columns| ==> columns[i].weight > 0.0 && need[i] > 0.0
    ensures SumAll(widths) == avail && forall i :: 0 <= i < |widths| ==> widths[i] >= 0.0
  {
    hide SumAll, SumIn, Modest, Portion, Sharers;
    FillsExactly(columns, need, avail, widths);
    if SumAll(need) <= avail {
      SparedFills(need, avail, widths);
    } else {
      var split := Sharers(need, avail);
      var some := Sets.Some(split);
      SumIsPositive(Weights(columns), split, some);
      var rest, wsum := avail - (SumAll(need) - SumIn(need, split)), SumIn(Weights(columns), split);
      forall i | 0 <= i < |widths| ensures widths[i] >= 0.0 {
        if i in split { ShareNotNegative(rest, columns[i].weight, wsum); }
      }
    }
  }

  /** With room to spare the widths are in proportion to the needs. */
  lemma NeedsInProportion(need: seq<real>, avail: real, widths: seq<real>, i: nat, k: nat)
    requires Spared(need, avail, widths) && i < |need| && k < |need| && need[i] > 0.0 && need[k] > 0.0
    ensures widths[i] * need[k] == widths[k] * need[i]
  {
    hide SumAll;
    var total, extra := SumAll(need), avail - SumAll(need);
    var x, y, f := need[i], need[k], extra / total;
    Fraction(extra, x, total);
    Fraction(extra, y, total);
    assert widths[i] == x + f * x && widths[k] == y + f * y;
    hide *;
    Crossed(x, y, f);
  }

  lemma Crossed(x: real, y: real, f: real)
    ensures (x + f * x) * y == (y + f * y) * x
  {}

  /** Of the columns that share, the widths are in proportion to the weights. */
  lemma WeightsInProportion(columns: seq<Column>, need: seq<real>, avail: real, widths: seq<real>, split: set<nat>, i: nat, k: nat)
    requires Shared(columns, need, avail, widths, split) && i in split && k in split
    ensures i < |columns| && k < |columns| && |widths| == |columns|
    ensures widths[i] * columns[k].weight == widths[k] * columns[i].weight
  {
    hide SumAll, SumIn, Modest, Weights;
    var rest, wsum := avail - (SumAll(need) - SumIn(need, split)), SumIn(Weights(columns), split);
    var by_ := if wsum == 0.0 then |split| as real else wsum;
    assert |split| > 0;
    var x, y := columns[i].weight, columns[k].weight;
    assert widths[i] == Portion(rest, x, by_) && widths[k] == Portion(rest, y, by_);
    hide *;
    Regroup(rest, x, by_);
    Regroup(rest, y, by_);
    Swapped(x, y, rest / by_);
  }

  lemma Swapped(x: real, y: real, f: real)
    ensures f * x * y == f * y * x
  {}

  lemma ShareNotNegative(rest: real, weight: real, wsum: real)
    requires rest >= 0.0 && weight > 0.0 && wsum > 0.0
    ensures Portion(rest, weight, wsum) >= 0.0
  {}
}
