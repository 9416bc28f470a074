/**
 `branch_faults` of drops.py: counting lit and dark customer drops up the passive tree, and
 naming the branches that went dark under a parent that still has light.
 */
module Drops {
  import opened Options
  import opened Parents
  import FeedMap
  import Sets

  // `backed` is the witness flag: a power-backed reference ONU.
  datatype State = Online | Offline | Los | DyingGasp | Unknown

  datatype Drop = Drop(passive: int, olt: Option<int>, port: Option<string>, state: State, backed: bool)

  datatype Fault = Fault(passive: int, parent: int, olt: Option<int>, ports: set<string>, dark: nat,
                         litSiblings: nat, power: bool, witnessDark: nat, suspected: bool, passives: seq<int>)

  const MIN_BRANCH_DARK := 2

  predicate Dark(d: Drop) {
    d.olt.Some? && (d.state.Offline? || d.state.Los? || d.state.DyingGasp?)
  }

  // What is counted about a set of drops.
  datatype Aspect = DarkOnes | LitOnes | Gasps | WitnessDark | All

  predicate Is(a: Aspect, d: Drop) {
    match a
    case DarkOnes => Dark(d)
    case LitOnes => d.state.Online?
    case Gasps => d.state.DyingGasp?
    case WitnessDark => Dark(d) && d.backed && !d.state.DyingGasp?
    case All => true
  }

  function Count(ds: seq<Drop>, a: Aspect): nat {
    if ds == [] then 0 else Count(ds[..|ds|-1], a) + (if Is(a, ds[|ds|-1]) then 1 else 0)
  }

  /** The live drops whose passive is among `done` and reaches `p`, counted. */
  ghost function Tally(parents: Parents, live: seq<Drop>, done: set<int>, p: int, a: Aspect): nat {
    if live == [] then 0
    else
      var d := live[|live|-1];
      Tally(parents, live[..|live|-1], done, p, a)
      + (if d.passive in done && Reaches(parents, d.passive, p) && Is(a, d) then 1 else 0)
  }

  function Passives(live: seq<Drop>): set<int> {
    set d | d in live :: d.passive
  }

  /** The live drops below `p`, counted. */
  ghost function Under(parents: Parents, live: seq<Drop>, p: int, a: Aspect): nat {
    Tally(parents, live, Passives(live), p, a)
  }

  predicate Live(d: Drop, freshOlts: Option<set<int>>) {
    d.olt.Some? && (freshOlts.None? || d.olt.value in freshOlts.value)
  }

  function LiveOf(drops: seq<Drop>, freshOlts: Option<set<int>>): seq<Drop> {
    if drops == [] then []
    else
      LiveOf(drops[..|drops|-1], freshOlts)
      + (if Live(drops[|drops|-1], freshOlts) then [drops[|drops|-1]] else [])
  }

  // ------------------------------------------------------------ the verdict

  /** A branch fault: nothing lit below, two or more dark, and light still under its parent. */
  ghost predicate IsFault(parents: Parents, live: seq<Drop>, asked: Option<set<int>>, p: int) {
    && (asked.None? || p in asked.value)
    && Under(parents, live, p, LitOnes) == 0
    && Under(parents, live, p, DarkOnes) >= MIN_BRANCH_DARK
    && Up(parents, p).Some?
    && Under(parents, live, Up(parents, p).value, LitOnes) > 0
  }

  /** What the fault at `p` says of the drops below it. */
  ghost predicate Tells(parents: Parents, live: seq<Drop>, f: Fault) {
    && Up(parents, f.passive) == Some(f.parent)
    && f.dark == Under(parents, live, f.passive, DarkOnes)
    && f.litSiblings == Under(parents, live, f.parent, LitOnes)
    && f.witnessDark == Under(parents, live, f.passive, WitnessDark)
    && f.suspected == (f.witnessDark == 0)
    && f.power == (f.witnessDark == 0
                   && Under(parents, live, f.passive, Gasps) * 2 > Under(parents, live, f.passive, All))
    && FeedMap.Strict(f.passives)
    && (forall x :: x in f.passives <==> exists d :: d in live && Reaches(parents, d.passive, f.passive) && d.passive == x)
    && (forall x :: x in f.ports <==> exists d :: d in live && Reaches(parents, d.passive, f.passive) && d.port == Some(x) && x != "")
    && (forall x :: f.olt == Some(x) <==>
          (exists d :: d in live && Reaches(parents, d.passive, f.passive) && d.olt == Some(x))
          && forall d :: d in live && Reaches(parents, d.passive, f.passive) && d.olt.Some? ==> d.olt == Some(x))
  }

  // -------------------------------------------------------- tallies, stepwise

  lemma {:induction false} TallyMore(parents: Parents, live: seq<Drop>, done: set<int>, pid: int, ds: seq<Drop>, p: int, a: Aspect)
    requires pid !in done && ds == Of(live, pid)
    ensures Tally(parents, live, done + {pid}, p, a)
            == Tally(parents, live, done, p, a) + (if Reaches(parents, pid, p) then Count(ds, a) else 0)
  {
    if live != [] {
      var init, d := live[..|live|-1], live[|live|-1];
      TallyMore(parents, init, done, pid, Of(init, pid), p, a);
      if d.passive == pid {
        assert ds == Of(init, pid) + [d];
        assert ds[..|ds|-1] == Of(init, pid) && ds[|ds|-1] == d;
        assert d.passive in done + {pid} && d.passive !in done;
      } else {
        assert ds == Of(init, pid);
        assert d.passive in done + {pid} <==> d.passive in done;
      }
    }
  }

  function Of(live: seq<Drop>, pid: int): seq<Drop> {
    if live == [] then []
    else Of(live[..|live|-1], pid) + (if live[|live|-1].passive == pid then [live[|live|-1]] else [])
  }

  lemma {:induction false} OfHas(live: seq<Drop>, pid: int)
    ensures forall d :: d in Of(live, pid) <==> d in live && d.passive == pid
  {
    if live != [] {
      OfHas(live[..|live|-1], pid);
      assert live == live[..|live|-1] + [live[|live|-1]];
    }
  }

  lemma {:induction false} CountJoin(xs: seq<Drop>, ys: seq<Drop>, a: Aspect)
    ensures Count(xs + ys, a) == Count(xs, a) + Count(ys, a)
  {
    if ys == [] {
      assert xs + ys == xs;
    } else {
      var n := |ys| - 1;
      assert (xs + ys)[..|xs|+n] == xs + ys[..n];
      CountJoin(xs, ys[..n], a);
    }
  }

  lemma {:induction false} TallyNone(parents: Parents, live: seq<Drop>, p: int, a: Aspect)
    ensures Tally(parents, live, {}, p, a) == 0
  {
    if live != [] { TallyNone(parents, live[..|live|-1], p, a); }
  }

  // --------------------------------------------------------------- the tree

  /** Every box some passive reaches, with its own parent, and no other box. */
  ghost predicate TreeOf(parents: Parents, passives: set<int>, tree: Parents) {
    && (forall a :: a in tree <==> exists p :: p in passives && Reaches(parents, p, a))
    && (forall a :: a in tree ==> tree[a] == Up(parents, a))
  }

  /** `_tree`: every box the passives reach, with its parent. */
  method Tree(passives: set<int>, parents: Parents) returns (tree: Parents)
    ensures TreeOf(parents, passives, tree)
  {
    tree := map[];
    var left := passives;
    while left != {}
      invariant left <= passives
      invariant forall a :: a in tree <==> exists p :: p in passives && p !in left && Reaches(parents, p, a)
      invariant forall a :: a in tree ==> tree[a] == Up(parents, a)
      decreases left
    {
      var pid := Sets.Any(left);
      left := left - {pid};
      var chain := Chain(parents, pid);
      ghost var was := tree;
      for i := 0 to |chain|
        invariant forall a :: a in tree <==> a in was || a in chain[..i]
        invariant forall a :: a in tree ==> tree[a] == Up(parents, a)
      {
        assert forall a :: a in chain[..i+1] <==> a in chain[..i] || a == chain[i];
        if chain[i] !in tree {
          tree := tree[chain[i] := Up(parents, chain[i])];
        }
      }
      assert chain[..|chain|] == chain;
    }
  }

  /** The tree climbs as the parent map does. */
  lemma {:induction false} TreeClimbs(parents: Parents, tree: Parents, passives: set<int>, pid: int, n: nat)
    requires TreeOf(parents, passives, tree) && pid in passives
    ensures Climb(tree, pid, n) == Climb(parents, pid, n)
  {
    if n > 0 {
      TreeClimbs(parents, tree, passives, pid, n - 1);
      var at := Climb(parents, pid, n - 1);
      if at.Some? {
        assert Reaches(parents, pid, at.value);
      }
    }
  }

  // ------------------------------------------------------------- the counts

  function GetNat(m: map<int, nat>, p: int): nat {
    if p in m then m[p] else 0
  }

  function GetDrops(m: map<int, seq<Drop>>, p: int): seq<Drop> {
    if p in m then m[p] else []
  }

  /** The three dictionaries hold what the drops of the passives in `done` say. */
  ghost predicate Counted(parents: Parents, live: seq<Drop>, done: set<int>, dark: map<int, nat>, lit: map<int, nat>,
                          members: map<int, seq<Drop>>)
  {
    forall p :: CountedAt(parents, live, done, p, GetNat(dark, p), GetNat(lit, p), GetDrops(members, p))
  }

  ghost predicate CountedAt(parents: Parents, live: seq<Drop>, done: set<int>, p: int, dark: nat, lit: nat, ds: seq<Drop>) {
    && dark == Tally(parents, live, done, p, DarkOnes)
    && lit == Tally(parents, live, done, p, LitOnes)
    && (forall a :: Count(ds, a) == Tally(parents, live, done, p, a))
    && (forall d :: d in ds <==> d in live && d.passive in done && Reaches(parents, d.passive, p))
  }

  lemma {:induction false} CountMore(parents: Parents, live: seq<Drop>, done: set<int>, pid: int, p: int, dark: nat, lit: nat, ms: seq<Drop>)
    requires pid !in done && CountedAt(parents, live, done, p, dark, lit, ms)
    ensures
      var ds := Of(live, pid);
      && (Reaches(parents, pid, p) ==>
            CountedAt(parents, live, done + {pid}, p, dark + Count(ds, DarkOnes), lit + Count(ds, LitOnes), ms + ds))
      && (!Reaches(parents, pid, p) ==> CountedAt(parents, live, done + {pid}, p, dark, lit, ms))
  {
    var ds := Of(live, pid);
    OfHas(live, pid);
    forall a ensures Tally(parents, live, done + {pid}, p, a)
                     == Tally(parents, live, done, p, a) + (if Reaches(parents, pid, p) then Count(ds, a) else 0)
    {
      TallyMore(parents, live, done, pid, ds, p, a);
    }
    forall a ensures Count(ms + ds, a) == Count(ms, a) + Count(ds, a) { CountJoin(ms, ds, a); }
  }

  ghost predicate Raised(m0: map<int, nat>, m: map<int, nat>, boxes: seq<int>, n: nat) {
    forall p :: GetNat(m, p) == GetNat(m0, p) + (if p in boxes then n else 0)
  }

  ghost predicate Extended(m0: map<int, seq<Drop>>, m: map<int, seq<Drop>>, boxes: seq<int>, ds: seq<Drop>) {
    forall p :: GetDrops(m, p) == GetDrops(m0, p) + (if p in boxes then ds else [])
  }

  lemma RaiseOne(m0: map<int, nat>, m: map<int, nat>, boxes: seq<int>, box: int, n: nat)
    requires Raised(m0, m, boxes, n) && box !in boxes
    ensures Raised(m0, m[box := GetNat(m, box) + n], boxes + [box], n)
  {
    forall p ensures GetNat(m[box := GetNat(m, box) + n], p) == GetNat(m0, p) + (if p in boxes + [box] then n else 0) {
      assert p in boxes + [box] <==> p in boxes || p == box;
    }
  }

  lemma ExtendOne(m0: map<int, seq<Drop>>, m: map<int, seq<Drop>>, boxes: seq<int>, box: int, ds: seq<Drop>)
    requires Extended(m0, m, boxes, ds) && box !in boxes
    ensures Extended(m0, m[box := GetDrops(m, box) + ds], boxes + [box], ds)
  {
    forall p ensures GetDrops(m[box := GetDrops(m, box) + ds], p)
                     == GetDrops(m0, p) + (if p in boxes + [box] then ds else [])
    {
      assert p in boxes + [box] <==> p in boxes || p == box;
    }
  }

  lemma {:induction false} AddNothing(dark: map<int, nat>, lit: map<int, nat>, members: map<int, seq<Drop>>, ds: seq<Drop>)
    ensures Raised(dark, dark, [], Count(ds, DarkOnes)) && Raised(lit, lit, [], Count(ds, LitOnes))
    ensures Extended(members, members, [], ds)
  {}

  /** One passive's drops, added to every box on its way up. */
  method AddUp(chain: seq<int>, ds: seq<Drop>, dark0: map<int, nat>, lit0: map<int, nat>, members0: map<int, seq<Drop>>)
    returns (dark: map<int, nat>, lit: map<int, nat>, members: map<int, seq<Drop>>)
    requires forall i, k :: 0 <= i < k < |chain| ==> chain[i] != chain[k]
    ensures Raised(dark0, dark, chain, Count(ds, DarkOnes)) && Raised(lit0, lit, chain, Count(ds, LitOnes))
    ensures Extended(members0, members, chain, ds)
  {
    dark, lit, members := dark0, lit0, members0;
    hide *;
    AddNothing(dark0, lit0, members0, ds);
    for i := 0 to |chain|
      invariant Raised(dark0, dark, chain[..i], Count(ds, DarkOnes)) && Raised(lit0, lit, chain[..i], Count(ds, LitOnes))
      invariant Extended(members0, members, chain[..i], ds)
    {
      var anc := chain[i];
      assert chain[..i+1] == chain[..i] + [anc];
      RaiseOne(dark0, dark, chain[..i], anc, Count(ds, DarkOnes));
      RaiseOne(lit0, lit, chain[..i], anc, Count(ds, LitOnes));
      ExtendOne(members0, members, chain[..i], anc, ds);
      dark := dark[anc := GetNat(dark, anc) + Count(ds, DarkOnes)];
      lit := lit[anc := GetNat(lit, anc) + Count(ds, LitOnes)];
      members := members[anc := GetDrops(members, anc) + ds];
    }
    assert chain[..|chain|] == chain;
  }

  lemma {:induction false} CountAll(parents: Parents, live: seq<Drop>, done: set<int>, pid: int, chain: seq<int>,
                 dark0: map<int, nat>, lit0: map<int, nat>, members0: map<int, seq<Drop>>,
                 dark: map<int, nat>, lit: map<int, nat>, members: map<int, seq<Drop>>)
    requires pid !in done && Counted(parents, live, done, dark0, lit0, members0)
    requires forall p :: p in chain <==> Reaches(parents, pid, p)
    requires Raised(dark0, dark, chain, Count(Of(live, pid), DarkOnes)) && Raised(lit0, lit, chain, Count(Of(live, pid), LitOnes))
    requires Extended(members0, members, chain, Of(live, pid))
    ensures Counted(parents, live, done + {pid}, dark, lit, members)
  {
    hide CountedAt, Reaches, Count, Of;
    forall p ensures CountedAt(parents, live, done + {pid}, p, GetNat(dark, p), GetNat(lit, p), GetDrops(members, p)) {
      assert CountedAt(parents, live, done, p, GetNat(dark0, p), GetNat(lit0, p), GetDrops(members0, p));
      CountMore(parents, live, done, pid, p, GetNat(dark0, p), GetNat(lit0, p), GetDrops(members0, p));
      assert GetDrops(members0, p) + [] == GetDrops(members0, p);
      assert p in chain <==> Reaches(parents, pid, p);
    }
  }

  lemma CountNone(parents: Parents, live: seq<Drop>)
    ensures Counted(parents, live, {}, map[], map[], map[])
  {
    forall p, a ensures Tally(parents, live, {}, p, a) == 0 { TallyNone(parents, live, p, a); }
  }

  method Totals(parents: Parents, tree: Parents, live: seq<Drop>)
    returns (dark: map<int, nat>, lit: map<int, nat>, members: map<int, seq<Drop>>)
    requires TreeOf(parents, Passives(live), tree)
    ensures Counted(parents, live, Passives(live), dark, lit, members)
  {
    hide Counted, TreeOf, Raised, Extended, Reaches, Count, Of;
    dark, lit, members := map[], map[], map[];
    var left := Passives(live);
    ghost var done: set<int> := {};
    CountNone(parents, live);
    while left != {}
      invariant Sets.Split(Passives(live), done, left)
      invariant Counted(parents, live, done, dark, lit, members)
      decreases left
    {
      var pid := Sets.Any(left);
      Sets.VisitOne(Passives(live), done, left, pid);
      left := left - {pid};
      var chain := Chain(tree, pid);
      ghost var dark0, lit0, members0 := dark, lit, members;
      dark, lit, members := AddUp(chain, Of(live, pid), dark, lit, members);
      SameReach(parents, tree, Passives(live), pid);
      CountAll(parents, live, done, pid, chain, dark0, lit0, members0, dark, lit, members);
      done := done + {pid};
    }
  }

  lemma SameReach(parents: Parents, tree: Parents, passives: set<int>, pid: int)
    requires TreeOf(parents, passives, tree) && pid in passives
    ensures forall p :: Reaches(tree, pid, p) <==> Reaches(parents, pid, p)
  {
    forall n: nat ensures Climb(tree, pid, n) == Climb(parents, pid, n) {
      TreeClimbs(parents, tree, passives, pid, n);
    }
  }

  // ------------------------------------------------------------- the faults

  lemma {:induction false} TallyFinds(parents: Parents, live: seq<Drop>, done: set<int>, p: int, a: Aspect)
    ensures Tally(parents, live, done, p, a) > 0
            <==> exists d :: d in live && d.passive in done && Reaches(parents, d.passive, p) && Is(a, d)
  {
    if live != [] {
      var init, last := live[..|live|-1], live[|live|-1];
      TallyFinds(parents, init, done, p, a);
      assert forall d :: d in live <==> d in init || d == last;
    }
  }

  /** Some drop below `p` is counted exactly when there is one. */
  lemma UnderFinds(parents: Parents, live: seq<Drop>, p: int, a: Aspect)
    ensures Under(parents, live, p, a) > 0 <==> exists d :: d in live && Reaches(parents, d.passive, p) && Is(a, d)
  {
    TallyFinds(parents, live, Passives(live), p, a);
  }

  lemma {:induction false} CountAllIsLength(ds: seq<Drop>)
    ensures Count(ds, All) == |ds|
  {
    if ds != [] { CountAllIsLength(ds[..|ds|-1]); }
  }

  ghost predicate Sole(ds: seq<Drop>, olt: Option<int>) {
    forall x :: olt == Some(x) <==>
      (exists d :: d in ds && d.olt == Some(x)) && forall d :: d in ds && d.olt.Some? ==> d.olt == Some(x)
  }

  /** The one OLT the drops share, if there is one. */
  method SoleOlt(ds: seq<Drop>) returns (olt: Option<int>)
    ensures Sole(ds, olt)
  {
    var olts := set d | d in ds && d.olt.Some? :: d.olt.value;
    if |olts| == 1 {
      var x := Sets.Any(olts);
      olt := Some(x);
      Sets.Only(olts, x);
      assert forall d :: d in ds && d.olt.Some? ==> d.olt.value in olts;
    } else {
      olt := None;
      forall x ensures !((exists d :: d in ds && d.olt == Some(x)) && forall d :: d in ds && d.olt.Some? ==> d.olt == Some(x)) {
        if (forall y :: y in olts ==> y == x) && x in olts { Sets.Single(olts, x); }
        assert forall d :: d in ds && d.olt.Some? ==> d.olt.value in olts;
        assert forall y :: y in olts ==> exists d :: d in ds && d.olt == Some(y);
      }
    }
  }

  /** What the report says, read off the drops gathered at the box. */
  ghost predicate Summed(ds: seq<Drop>, f: Fault) {
    && f.witnessDark == Count(ds, WitnessDark)
    && f.suspected == (f.witnessDark == 0)
    && f.power == (f.witnessDark == 0 && Count(ds, Gasps) * 2 > Count(ds, All))
    && FeedMap.Strict(f.passives)
    && (forall x :: x in f.passives <==> exists d :: d in ds && d.passive == x)
    && (forall x :: x in f.ports <==> exists d :: d in ds && d.port == Some(x) && x != "")
    && Sole(ds, f.olt)
  }

  method Report(pid: int, parent: int, dark: nat, litSiblings: nat, ds: seq<Drop>) returns (f: Fault)
    ensures f.passive == pid && f.parent == parent && f.dark == dark && f.litSiblings == litSiblings
    ensures Summed(ds, f)
  {
    hide Sole, Is, Count;
    var gasps := Count(ds, Gasps);
    var witnessDark := Count(ds, WitnessDark);
    var power := witnessDark == 0 && gasps * 2 > |ds|;
    CountAllIsLength(ds);
    var olt := SoleOlt(ds);
    var ports := set d | d in ds && d.port.Some? && d.port.value != "" :: d.port.value;
    var all := set d | d in ds :: d.passive;
    var passives := FeedMap.SortSet(all);
    assert forall x :: x in all <==> exists d :: d in ds && d.passive == x;
    f := Fault(pid, parent, olt, ports, dark, litSiblings, power, witnessDark, witnessDark == 0, passives);
  }

  lemma SummedTells(parents: Parents, live: seq<Drop>, ds: seq<Drop>, f: Fault, lit: nat)
    requires CountedAt(parents, live, Passives(live), f.passive, f.dark, lit, ds) && Summed(ds, f)
    requires Up(parents, f.passive) == Some(f.parent) && f.litSiblings == Under(parents, live, f.parent, LitOnes)
    ensures Tells(parents, live, f)
  {
    hide Reaches, Count, Tally, Up;
    assert forall d :: d in ds <==> d in live && Reaches(parents, d.passive, f.passive);
  }

  /** The body of the reporting loop: is the box at `pid` a fault, and what is said of it? */
  method FaultAt(parents: Parents, tree: Parents, live: seq<Drop>, asked: Option<set<int>>, pid: int,
                 dark: map<int, nat>, lit: map<int, nat>, members: map<int, seq<Drop>>) returns (f: Option<Fault>)
    requires TreeOf(parents, Passives(live), tree) && pid in tree
    requires Counted(parents, live, Passives(live), dark, lit, members)
    ensures f.Some? <==> IsFault(parents, live, asked, pid)
    ensures f.Some? ==> f.value.passive == pid && Tells(parents, live, f.value)
  {
    CountsSay(parents, live, dark, lit, members);
    TreeClosed(parents, live, tree, pid);
    hide Counted, CountedAt, TreeOf, Tells, Summed, Under, Passives;
    f := None;
    if asked.Some? && pid !in asked.value {
      return;
    }
    if GetNat(lit, pid) != 0 || GetNat(dark, pid) < MIN_BRANCH_DARK {
      return;
    }
    if tree[pid].None? || tree[pid].value !in tree {
      return;
    }
    var parent := tree[pid].value;
    var litSiblings := GetNat(lit, parent);
    if litSiblings <= 0 {
      return;
    }
    var fault := Report(pid, parent, GetNat(dark, pid), litSiblings, GetDrops(members, pid));
    SummedTells(parents, live, GetDrops(members, pid), fault, GetNat(lit, pid));
    f := Some(fault);
  }

  lemma CountsSay(parents: Parents, live: seq<Drop>, dark: map<int, nat>, lit: map<int, nat>, members: map<int, seq<Drop>>)
    requires Counted(parents, live, Passives(live), dark, lit, members)
    ensures forall p :: GetNat(dark, p) == Under(parents, live, p, DarkOnes) && GetNat(lit, p) == Under(parents, live, p, LitOnes)
    ensures forall p :: CountedAt(parents, live, Passives(live), p, GetNat(dark, p), GetNat(lit, p), GetDrops(members, p))
  {
    hide Passives, Tally;
  }

  lemma TreeClosed(parents: Parents, live: seq<Drop>, tree: Parents, pid: int)
    requires TreeOf(parents, Passives(live), tree) && pid in tree
    ensures tree[pid] == Up(parents, pid) && (tree[pid].Some? ==> tree[pid].value in tree)
  {
    var p :| p in Passives(live) && Reaches(parents, p, pid);
    if tree[pid].Some? { ReachesUp(parents, p, pid); }
  }

  // ------------------------------------------------------------- the report

  /** The reporting order: most dark drops first, then by box. */
  predicate Before(f: Fault, g: Fault) {
    f.dark > g.dark || (f.dark == g.dark && f.passive < g.passive)
  }

  predicate Ordered(fs: seq<Fault>) {
    forall i, k :: 0 <= i < k < |fs| ==> Before(fs[i], fs[k])
  }

  function Insert(f: Fault, fs: seq<Fault>): (r: seq<Fault>)
    ensures forall g :: g in r <==> g == f || g in fs
  {
    if fs == [] || Before(f, fs[0]) then [f] + fs else [fs[0]] + Insert(f, fs[1..])
  }

  lemma {:induction false} InsertOrders(f: Fault, fs: seq<Fault>)
    requires Ordered(fs) && forall g :: g in fs ==> g.passive != f.passive
    ensures Ordered(Insert(f, fs))
  {
    if fs == [] {
    } else if Before(f, fs[0]) {
      forall k | 0 <= k < |fs| ensures Before(f, fs[k]) { assert k > 0 ==> Before(fs[0], fs[k]); }
    } else {
      InsertOrders(f, fs[1..]);
      var rest := Insert(f, fs[1..]);
      forall k | 0 <= k < |rest| ensures Before(fs[0], rest[k]) {
        assert rest[k] == f || rest[k] in fs[1..];
        assert fs[0] in fs;
      }
    }
  }

  function Ranked(fs: seq<Fault>): (r: seq<Fault>)
    ensures forall g :: g in r <==> g in fs
  {
    if fs == [] then [] else Insert(fs[|fs|-1], Ranked(fs[..|fs|-1]))
  }

  predicate Apart(fs: seq<Fault>) {
    forall i, k :: 0 <= i < k < |fs| ==> fs[i].passive != fs[k].passive
  }

  lemma {:induction false} RankedOrders(fs: seq<Fault>)
    requires Apart(fs)
    ensures Ordered(Ranked(fs))
  {
    if fs != [] {
      var init, f := fs[..|fs|-1], fs[|fs|-1];
      RankedOrders(init);
      forall g | g in Ranked(init) ensures g.passive != f.passive {
        assert g in init;
        var i :| 0 <= i < |init| && init[i] == g;
        assert fs[i] == g;
      }
      InsertOrders(f, Ranked(init));
    }
  }

  /** Exactly the faults are reported, each once and with the truth about it. */
  ghost predicate Reported(parents: Parents, live: seq<Drop>, asked: Option<set<int>>, faults: seq<Fault>) {
    && (forall f :: f in faults ==> IsFault(parents, live, asked, f.passive) && Tells(parents, live, f))
    && (forall p :: IsFault(parents, live, asked, p) ==> exists f :: f in faults && f.passive == p)
    && Ordered(faults)
  }

  /** As `Reported`, for the boxes visited so far and in the order of the visit. */
  ghost predicate Visited(parents: Parents, live: seq<Drop>, asked: Option<set<int>>, done: set<int>, faults: seq<Fault>) {
    && (forall f :: f in faults ==> f.passive in done && IsFault(parents, live, asked, f.passive) && Tells(parents, live, f))
    && (forall p :: p in done && IsFault(parents, live, asked, p) ==> exists f :: f in faults && f.passive == p)
    && Apart(faults)
  }

  lemma VisitFault(parents: Parents, live: seq<Drop>, asked: Option<set<int>>, done: set<int>, faults: seq<Fault>,
                   pid: int, f: Option<Fault>)
    requires Visited(parents, live, asked, done, faults) && pid !in done
    requires f.Some? <==> IsFault(parents, live, asked, pid)
    requires f.Some? ==> f.value.passive == pid && Tells(parents, live, f.value)
    ensures Visited(parents, live, asked, done + {pid}, faults + if f.Some? then [f.value] else [])
  {
    hide IsFault, Tells;
    var after := faults + if f.Some? then [f.value] else [];
    assert forall g :: g in after <==> g in faults || f == Some(g);
    assert forall i :: 0 <= i < |faults| ==> faults[i] in faults;
  }

  /** A fault has dark drops below it, so the tree holds it. */
  lemma FaultInTree(parents: Parents, live: seq<Drop>, asked: Option<set<int>>, tree: Parents, p: int)
    requires TreeOf(parents, Passives(live), tree) && IsFault(parents, live, asked, p)
    ensures p in tree
  {
    UnderFinds(parents, live, p, DarkOnes);
  }

  method BranchFaults(drops: seq<Drop>, parents: Parents, freshOlts: Option<set<int>>, asked: Option<set<int>>)
    returns (faults: seq<Fault>)
    ensures Reported(parents, LiveOf(drops, freshOlts), asked, faults)
  {
    hide IsFault, Tells, Counted, TreeOf, LiveOf, Passives;
    var live := LiveOf(drops, freshOlts);
    if live == [] {
      NoFaults(parents, asked);
      return [];
    }
    var tree := Tree(Passives(live), parents);
    var dark, lit, members := Totals(parents, tree, live);
    faults := [];
    var left := tree.Keys;
    ghost var done: set<int> := {};
    while left != {}
      invariant Sets.Split(tree.Keys, done, left)
      invariant Visited(parents, live, asked, done, faults)
      decreases left
    {
      var pid := Sets.Any(left);
      Sets.VisitOne(tree.Keys, done, left, pid);
      left := left - {pid};
      var f := FaultAt(parents, tree, live, asked, pid, dark, lit, members);
      VisitFault(parents, live, asked, done, faults, pid, f);
      done := done + {pid};
      faults := faults + if f.Some? then [f.value] else [];
    }
    forall p | IsFault(parents, live, asked, p) ensures p in done { FaultInTree(parents, live, asked, tree, p); }
    RankedOrders(faults);
    faults := Ranked(faults);
  }

  lemma NoFaults(parents: Parents, asked: Option<set<int>>)
    ensures Reported(parents, [], asked, [])
  {}

  // ------------------------------------------------ what the faults amount to

  /** No fault lies above another: the reported branches form an antichain. */
  lemma FaultsAntichain(parents: Parents, live: seq<Drop>, asked: Option<set<int>>, p: int, q: int)
    requires IsFault(parents, live, asked, p) && IsFault(parents, live, asked, q) && p != q
    ensures !Reaches(parents, p, q)
  {
    hide Reaches, Under, Is;
    var above := Up(parents, p).value;
    UnderFinds(parents, live, above, LitOnes);
    UnderFinds(parents, live, q, LitOnes);
    if Reaches(parents, p, q) {
      ReachesThroughParent(parents, p, q);
      var d :| d in live && Reaches(parents, d.passive, above) && Is(LitOnes, d);
      ReachesOn(parents, d.passive, above, q);
    }
  }

  /** So no drop is under two of them. */
  lemma FaultsDisjoint(parents: Parents, live: seq<Drop>, asked: Option<set<int>>, d: int, p: int, q: int)
    requires IsFault(parents, live, asked, p) && IsFault(parents, live, asked, q)
    requires Reaches(parents, d, p) && Reaches(parents, d, q)
    ensures p == q
  {
    hide Reaches, Under;
    OneLine(parents, d, p, q);
    if p != q {
      FaultsAntichain(parents, live, asked, p, q);
      FaultsAntichain(parents, live, asked, q, p);
    }
  }

  function SumDark(fs: seq<Fault>): nat {
    if fs == [] then 0 else SumDark(fs[..|fs|-1]) + fs[|fs|-1].dark
  }

  /** The dark drops of `live` under the boxes of `fs`, box by box. */
  ghost function SumTally(parents: Parents, live: seq<Drop>, done: set<int>, fs: seq<Fault>): nat {
    if fs == [] then 0
    else SumTally(parents, live, done, fs[..|fs|-1]) + Tally(parents, live, done, fs[|fs|-1].passive, DarkOnes)
  }

  /** The boxes of `fs` share no passive of a live drop. */
  ghost predicate Sharing(parents: Parents, fs: seq<Fault>, d: int) {
    exists i, k :: 0 <= i < k < |fs| && Reaches(parents, d, fs[i].passive) && Reaches(parents, d, fs[k].passive)
  }

  lemma SharingGrows(parents: Parents, fs: seq<Fault>, n: nat, d: int)
    requires n <= |fs|
    ensures Sharing(parents, fs[..n], d) ==> Sharing(parents, fs, d)
  {
    if i, k :| 0 <= i < k < n && Reaches(parents, d, fs[..n][i].passive) && Reaches(parents, d, fs[..n][k].passive) {
      assert Reaches(parents, d, fs[i].passive) && Reaches(parents, d, fs[k].passive);
    }
  }

  /** One more drop adds to at most one box. */
  lemma {:induction false} SumTallySnoc(parents: Parents, live: seq<Drop>, done: set<int>, fs: seq<Fault>)
    requires live != [] && !Sharing(parents, fs, live[|live|-1].passive)
    ensures
      var init, d := live[..|live|-1], live[|live|-1];
      var under := exists i :: 0 <= i < |fs| && Reaches(parents, d.passive, fs[i].passive);
      SumTally(parents, live, done, fs) == SumTally(parents, init, done, fs)
                                           + (if d.passive in done && Is(DarkOnes, d) && under then 1 else 0)
  {
    hide Reaches, Is;
    var init, d := live[..|live|-1], live[|live|-1];
    if fs != [] {
      var n := |fs| - 1;
      var front := fs[..n];
      SharingGrows(parents, fs, n, d.passive);
      SumTallySnoc(parents, live, done, front);
      if Reaches(parents, d.passive, fs[n].passive) {
        forall i | 0 <= i < n ensures !Reaches(parents, d.passive, front[i].passive) {
          assert front[i] == fs[i];
        }
      } else {
        forall i | 0 <= i < |fs| ensures Reaches(parents, d.passive, fs[i].passive) ==> i < n && front[i] == fs[i] {}
      }
    }
  }

  lemma {:induction false} SumTallyBound(parents: Parents, live: seq<Drop>, done: set<int>, fs: seq<Fault>)
    requires forall d :: d in live ==> !Sharing(parents, fs, d.passive)
    ensures SumTally(parents, live, done, fs) <= Count(live, DarkOnes)
  {
    hide Sharing, Is;
    if live == [] {
      SumTallyNone(parents, done, fs);
    } else {
      var init, d := live[..|live|-1], live[|live|-1];
      assert forall e :: e in init ==> e in live;
      SumTallyBound(parents, init, done, fs);
      SumTallySnoc(parents, live, done, fs);
    }
  }

  lemma {:induction false} SumTallyNone(parents: Parents, done: set<int>, fs: seq<Fault>)
    ensures SumTally(parents, [], done, fs) == 0
  {
    if fs != [] { SumTallyNone(parents, done, fs[..|fs|-1]); }
  }

  lemma {:induction false} SumDarkIsTally(parents: Parents, live: seq<Drop>, fs: seq<Fault>)
    requires forall f :: f in fs ==> Tells(parents, live, f)
    ensures SumDark(fs) == SumTally(parents, live, Passives(live), fs)
  {
    if fs != [] {
      assert fs[|fs|-1] in fs;
      SumDarkIsTally(parents, live, fs[..|fs|-1]);
    }
  }

  /** The faults never claim more dark drops than there are. */
  lemma {:induction false} FaultsClaimOnce(parents: Parents, live: seq<Drop>, asked: Option<set<int>>, faults: seq<Fault>)
    requires Reported(parents, live, asked, faults)
    ensures SumDark(faults) <= Count(live, DarkOnes)
  {
    hide Tells, IsFault, Reaches, Count, SumDark;
    SumDarkIsTally(parents, live, faults);
    forall d | d in live ensures !Sharing(parents, faults, d.passive) {
      if i, k :| 0 <= i < k < |faults| && Reaches(parents, d.passive, faults[i].passive)
                 && Reaches(parents, d.passive, faults[k].passive) {
        FaultsDisjoint(parents, live, asked, d.passive, faults[i].passive, faults[k].passive);
        OneFaultEach(parents, live, asked, faults, i, k);
      }
    }
    SumTallyBound(parents, live, Passives(live), faults);
  }

  lemma OneFaultEach(parents: Parents, live: seq<Drop>, asked: Option<set<int>>, faults: seq<Fault>, i: nat, k: nat)
    requires Reported(parents, live, asked, faults) && i < k < |faults|
    ensures faults[i].passive != faults[k].passive
  {
    hide IsFault;
    assert faults[i] in faults && faults[k] in faults && Before(faults[i], faults[k]);
  }

  // ------------------------------------------------ told of the drops as listed

  /** What is counted of a drop that is matched to an OLT. */
  predicate Shows(a: Aspect, d: Drop) {
    match a
    case DarkOnes => d.state == Offline || d.state == Los || d.state == DyingGasp
    case LitOnes => d.state == Online
    case Gasps => d.state == DyingGasp
    case WitnessDark => d.backed && (d.state == Offline || d.state == Los)
    case All => true
  }

  /** The listed drops below `p`, among those whose OLT is known and, if only fresh ones count, fresh. */
  ghost function Below(parents: Parents, drops: seq<Drop>, freshOlts: Option<set<int>>, p: int, a: Aspect): set<nat> {
    set i: nat | i < |drops| && Matched(drops[i], freshOlts) && Reaches(parents, drops[i].passive, p) && Shows(a, drops[i])
  }

  predicate Matched(d: Drop, freshOlts: Option<set<int>>) {
    d.olt.Some? && (freshOlts.Some? ==> d.olt.value in freshOlts.value)
  }

  lemma {:induction false} TallySnoc(parents: Parents, live: seq<Drop>, d: Drop, done: set<int>, p: int, a: Aspect)
    ensures Tally(parents, live + [d], done, p, a)
            == Tally(parents, live, done, p, a) + (if d.passive in done && Reaches(parents, d.passive, p) && Is(a, d) then 1 else 0)
  {
    assert (live + [d])[..|live|] == live;
  }

  ghost predicate Fits(parents: Parents, d: Drop, freshOlts: Option<set<int>>, done: set<int>, p: int, a: Aspect) {
    d.passive in done && Matched(d, freshOlts) && Reaches(parents, d.passive, p) && Shows(a, d)
  }

  ghost function FitIn(parents: Parents, drops: seq<Drop>, freshOlts: Option<set<int>>, done: set<int>, p: int, a: Aspect): set<nat> {
    set i: nat | i < |drops| && Fits(parents, drops[i], freshOlts, done, p, a)
  }

  lemma {:induction false} TallyIs(parents: Parents, drops: seq<Drop>, freshOlts: Option<set<int>>, done: set<int>, p: int, a: Aspect)
    ensures Tally(parents, LiveOf(drops, freshOlts), done, p, a) == |FitIn(parents, drops, freshOlts, done, p, a)|
  {
    if drops == [] {
      TallyOfNone(parents, done, p, a);
    } else {
      hide *;
      var n := |drops| - 1;
      var init, d := drops[..n], drops[n];
      TallyIs(parents, init, freshOlts, done, p, a);
      FitMore(parents, drops, freshOlts, done, p, a);
      LiveLast(drops, freshOlts);
      TallySnoc(parents, LiveOf(init, freshOlts), d, done, p, a);
      FitsIs(parents, d, freshOlts, done, p, a);
    }
  }

  lemma FitsIs(parents: Parents, d: Drop, freshOlts: Option<set<int>>, done: set<int>, p: int, a: Aspect)
    ensures Fits(parents, d, freshOlts, done, p, a) <==> Matched(d, freshOlts) && d.passive in done && Reaches(parents, d.passive, p) && Is(a, d)
  {
    hide Reaches;
    if Matched(d, freshOlts) { ShowsIs(a, d, freshOlts); }
  }

  lemma FitMore(parents: Parents, drops: seq<Drop>, freshOlts: Option<set<int>>, done: set<int>, p: int, a: Aspect)
    requires drops != []
    ensures
      var n := |drops| - 1;
      |FitIn(parents, drops, freshOlts, done, p, a)|
      == |FitIn(parents, drops[..n], freshOlts, done, p, a)| + (if Fits(parents, drops[n], freshOlts, done, p, a) then 1 else 0)
  {
    hide Fits;
    var n := |drops| - 1;
    var whole, part := FitIn(parents, drops, freshOlts, done, p, a), FitIn(parents, drops[..n], freshOlts, done, p, a);
    var last := Fits(parents, drops[n], freshOlts, done, p, a);
    forall i: nat ensures i in whole <==> i in part || (i == n && last) {
      assert i < n ==> drops[..n][i] == drops[i];
    }
    assert whole == part + if last then {n} else {};
  }

  lemma {:induction false} TallyOfNone(parents: Parents, done: set<int>, p: int, a: Aspect)
    ensures Tally(parents, [], done, p, a) == 0
  {}

  lemma {:induction false} LiveLast(drops: seq<Drop>, freshOlts: Option<set<int>>)
    requires drops != []
    ensures
      var n := |drops| - 1;
      LiveOf(drops, freshOlts) == if Matched(drops[n], freshOlts) then LiveOf(drops[..n], freshOlts) + [drops[n]] else LiveOf(drops[..n], freshOlts)
  {}

  lemma ShowsIs(a: Aspect, d: Drop, freshOlts: Option<set<int>>)
    requires Matched(d, freshOlts)
    ensures Is(a, d) <==> Shows(a, d)
  {}

  lemma {:induction false} LiveHas(drops: seq<Drop>, freshOlts: Option<set<int>>)
    ensures forall d :: d in LiveOf(drops, freshOlts) <==> d in drops && Matched(d, freshOlts)
  {
    if drops != [] {
      var n := |drops| - 1;
      LiveHas(drops[..n], freshOlts);
      LiveLast(drops, freshOlts);
      assert drops == drops[..n] + [drops[n]];
    }
  }

  lemma {:induction false} UnderIs(parents: Parents, drops: seq<Drop>, freshOlts: Option<set<int>>, p: int, a: Aspect)
    ensures Under(parents, LiveOf(drops, freshOlts), p, a) == |Below(parents, drops, freshOlts, p, a)|
  {
    hide Reaches, Tally, LiveOf, Shows;
    var live := LiveOf(drops, freshOlts);
    TallyIs(parents, drops, freshOlts, Passives(live), p, a);
    LiveHas(drops, freshOlts);
    forall i | i in Below(parents, drops, freshOlts, p, a) ensures drops[i].passive in Passives(live) {
      assert drops[i] in live;
    }
    assert FitIn(parents, drops, freshOlts, Passives(live), p, a) == Below(parents, drops, freshOlts, p, a);
  }

  /** A branch fault, in plain counts of the drops as listed. */
  ghost predicate WentDark(parents: Parents, drops: seq<Drop>, freshOlts: Option<set<int>>, asked: Option<set<int>>, p: int) {
    && (asked.Some? ==> p in asked.value)
    && |Below(parents, drops, freshOlts, p, LitOnes)| == 0 && |Below(parents, drops, freshOlts, p, DarkOnes)| >= 2
    && p in parents && parents[p].Some? && |Below(parents, drops, freshOlts, parents[p].value, LitOnes)| > 0
  }

  lemma {:induction false} FaultIs(parents: Parents, drops: seq<Drop>, freshOlts: Option<set<int>>, asked: Option<set<int>>, p: int)
    ensures IsFault(parents, LiveOf(drops, freshOlts), asked, p) <==> WentDark(parents, drops, freshOlts, asked, p)
  {
    hide Under, Below, LiveOf;
    forall q, a ensures Under(parents, LiveOf(drops, freshOlts), q, a) == |Below(parents, drops, freshOlts, q, a)| {
      UnderIs(parents, drops, freshOlts, q, a);
    }
  }

  /**
   A box is reported, once, exactly when it is asked for, no drop below it is online, two or
   more are dark, and its parent has one online below it; and the report counts the drops as
   they are listed. Most dark drops come first, and then the lower box.
   */
  lemma {:induction false} FaultsAre(parents: Parents, drops: seq<Drop>, freshOlts: Option<set<int>>, asked: Option<set<int>>, faults: seq<Fault>)
    requires Reported(parents, LiveOf(drops, freshOlts), asked, faults)
    ensures forall p :: (exists f :: f in faults && f.passive == p) <==> WentDark(parents, drops, freshOlts, asked, p)
    ensures forall i, k :: 0 <= i < k < |faults| ==>
              faults[i].dark > faults[k].dark || (faults[i].dark == faults[k].dark && faults[i].passive < faults[k].passive)
    ensures forall f :: f in faults ==>
              && f.passive in parents && parents[f.passive] == Some(f.parent)
              && f.dark == |Below(parents, drops, freshOlts, f.passive, DarkOnes)|
              && f.litSiblings == |Below(parents, drops, freshOlts, f.parent, LitOnes)|
              && f.witnessDark == |Below(parents, drops, freshOlts, f.passive, WitnessDark)|
              && (f.suspected <==> f.witnessDark == 0)
              && (f.power <==> f.witnessDark == 0 && 2 * |Below(parents, drops, freshOlts, f.passive, Gasps)| > |Below(parents, drops, freshOlts, f.passive, All)|)
  {
    hide Under, Below, LiveOf, IsFault, WentDark;
    var live := LiveOf(drops, freshOlts);
    forall p ensures IsFault(parents, live, asked, p) <==> WentDark(parents, drops, freshOlts, asked, p) {
      FaultIs(parents, drops, freshOlts, asked, p);
    }
    forall f | f in faults ensures Tells(parents, live, f) {}
    forall q, a ensures Under(parents, live, q, a) == |Below(parents, drops, freshOlts, q, a)| {
      UnderIs(parents, drops, freshOlts, q, a);
    }
  }
}
