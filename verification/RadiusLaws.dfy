/**
 What the links of `link_customers` amount to: nobody and nothing is linked twice, every
 customer is accounted for once, and the order of the inputs does not matter.
 */
module RadiusLaws {
  import opened Options
  import opened Radius
  import opened RadiusLink
  import Sets

  // ------------------------------------------------------------ conservation

  /** Every customer is counted exactly once. */
  lemma EveryoneCounted(b: Book, res: LinkResult, fates: seq<Fate>)
    requires Tells(b, res, fates)
    ensures res.byMac + res.byName + res.ambiguousName + res.unmatched == |b.customers|
  {
    hide Count, IsLink, Fates, SlotsApart, ReachedCount, Crowded, Crossing, RowsAt;
    CountsAddUp(fates);
  }

  /** No slot is given twice and no customer is given two slots. */
  lemma LinksInjective(b: Book, res: LinkResult, fates: seq<Fate>, j: nat, k: nat)
    requires WellListed(b.customers) && Tells(b, res, fates) && j < k < |res.links|
    ensures res.links[j].slot != res.links[k].slot
    ensures (res.links[j].account, res.links[j].username) != (res.links[k].account, res.links[k].username)
  {
    hide Count, Fates, ReachedCount, Crowded, Crossing, RowsAt;
    var l, m := res.links[j], res.links[k];
    assert IsLink(b, fates, l) && IsLink(b, fates, m);
    var i :| 0 <= i < |fates|
             && ((fates[i] == WonByMac(l.slot) && l == LinkFor(b.customers[i], l.slot, ByMac))
                 || (fates[i] == WonByName(l.slot) && l == LinkFor(b.customers[i], l.slot, ByName)));
    var n :| 0 <= n < |fates|
             && ((fates[n] == WonByMac(m.slot) && m == LinkFor(b.customers[n], m.slot, ByMac))
                 || (fates[n] == WonByName(m.slot) && m == LinkFor(b.customers[n], m.slot, ByName)));
    assert l.slot != m.slot;
    assert i != n;
  }

  /**
   A link by MAC stands on a MAC learned on that slot and no other uncrowded one, whose
   holders in the first panel listing it all go by the linked username, and which no
   other customer is a candidate for.
   */
  lemma MacLinkStands(b: Book, res: LinkResult, fates: seq<Fate>, l: Link)
    requires Tells(b, res, fates) && l in res.links && l.match_ == ByMac
    ensures exists i :: 0 <= i < |b.customers| && b.customers[i].mac.Some? && l == LinkFor(b.customers[i], l.slot, ByMac)
                        && LearnedOnly(b, b.customers[i].mac.value, l.slot)
                        && Claimed(b.customers, b.customers[i].mac.value, l.username)
                        && forall k :: Candidate(b, k, l.slot) ==> k == i
  {
    hide LearnedOnly, Claimed, Count;
    assert IsLink(b, fates, l);
    var i :| 0 <= i < |fates| && fates[i] == WonByMac(l.slot) && l == LinkFor(b.customers[i], l.slot, ByMac);
    assert Fated(b, i, fates[i]) && MacWins(b, i, l.slot);
  }

  /** A link by name stands on the one slot of that name, not given by MAC, and the one username of that key. */
  lemma NameLinkStands(b: Book, res: LinkResult, fates: seq<Fate>, l: Link)
    requires Tells(b, res, fates) && l in res.links && l.match_ == ByName
    ensures exists i :: 0 <= i < |b.customers| && b.customers[i].key.Some? && l == LinkFor(b.customers[i], l.slot, ByName)
                        && !MacLinked(b, i) && NamedOnly(b, b.customers[i].key.value, l.slot)
                        && OneUser(b.customers, b.customers[i].key.value)
    ensures !MacTaken(b, l.slot)
  {
    hide MacLinked, MacTaken, NamedOnly, OneUser, Count;
    assert IsLink(b, fates, l);
    var i :| 0 <= i < |fates| && fates[i] == WonByName(l.slot) && l == LinkFor(b.customers[i], l.slot, ByName);
    assert Fated(b, i, fates[i]) && NameCandidate(b, i, l.slot);
  }

  /**
   A customer whose MAC points at one slot and whose claim is heard gets that slot exactly
   when nobody else has both its MAC and its username, whichever panel lists them first, and
   no other MAC points a heard claim at the slot.
   */
  lemma CandidateLinked(b: Book, i: nat, slot: Slot)
    requires Candidate(b, i, slot)
    ensures MacLinked(b, i)
            <==> && (forall k :: 0 <= k < |b.customers| && SameHolder(b.customers[k], b.customers[i]) ==> k == i)
                 && (forall k :: Candidate(b, k, slot) ==> b.customers[k].mac == b.customers[i].mac)
  {
    hide LearnedOnly, Claimed;
    forall k | 0 <= k < |b.customers| && b.customers[k].mac == b.customers[i].mac
      ensures Candidate(b, k, slot) <==> SameHolder(b.customers[k], b.customers[i])
    {
      OneClaimant(b, i, k, slot);
    }
    if s :| MacWins(b, i, s) {
      OneSlot(b, b.customers[i].mac.value, s, slot);
    } else {
      assert !MacWins(b, i, slot);
      var k :| Candidate(b, k, slot) && k != i;
      assert SameHolder(b.customers[k], b.customers[i]) <==> b.customers[k].mac == b.customers[i].mac;
    }
  }

  predicate SameHolder(x: Customer, y: Customer) {
    x.mac == y.mac && x.username == y.username
  }

  /** Of the holders of a MAC, those whose claim is heard go by one username. */
  lemma OneClaimant(b: Book, i: nat, k: nat, slot: Slot)
    requires Candidate(b, i, slot) && k < |b.customers| && b.customers[k].mac == b.customers[i].mac
    ensures Candidate(b, k, slot) <==> b.customers[k].username == b.customers[i].username
  {
    hide LearnedOnly;
    var mac := b.customers[i].mac.value;
    assert Has(b.customers, FirstWith(b.customers, mac), mac);
  }

  lemma OneSlot(b: Book, mac: string, s: Slot, t: Slot)
    requires LearnedOnly(b, mac, s) && LearnedOnly(b, mac, t)
    ensures s == t
  {}

  /** Two customers of one username with one MAC are both refused by MAC, whichever panels they are of. */
  lemma SharedHolderRefused(b: Book, i: nat, k: nat)
    requires i < |b.customers| && k < |b.customers| && i != k && SameHolder(b.customers[i], b.customers[k])
    ensures !MacLinked(b, i) && !MacLinked(b, k)
  {
    hide LearnedOnly, Claimed;
    forall slot ensures Candidate(b, i, slot) <==> Candidate(b, k, slot) {}
  }

  /**
   The earlier panel does not always win: here its one holder of the MAC is heard, the MAC was
   learned on one slot, nobody else goes for it under another name, and it gets nothing.
   */
  lemma EarlierPanelLoses() returns (b: Book, slot: Slot)
    ensures WellListed(b.customers) && |b.customers| == 2 && b.customers[0].account != b.customers[1].account
    ensures SameHolder(b.customers[0], b.customers[1])
    ensures Candidate(b, 0, slot) && !MacLinked(b, 0) && !MacTaken(b, slot)
  {
    slot := Slot(7, "1/1");
    var first, second := Customer(Some(1), "u", Some("aa"), Some("u")), Customer(Some(2), "u", Some("aa"), Some("u"));
    b := Book([first, second], [MacRow(slot, Some("aa"))], [], 4);
    assert b.macRows[..0] == [] && RowsAt(b.macRows, slot) == 1;
    assert Learned(b, "aa", slot) && LearnedOnly(b, "aa", slot);
    assert FirstWith(b.customers, "aa") == 0;
    CandidateLinked(b, 0, slot);
    CandidateLinked(b, 1, slot);
    assert SameHolder(b.customers[1], b.customers[0]);
  }

  // ------------------------------------------------------- one fate for each

  /** A customer has one fate. */
  lemma FateUnique(b: Book, i: nat, f: Fate, g: Fate)
    requires i < |b.customers| && Fated(b, i, f) && Fated(b, i, g)
    ensures f == g
  {
    hide MacWins, MacTaken, EarlierCandidate, HasNamesake;
    if f.WonByMac? {
      assert MacLinked(b, i);
      WinsOne(b, i, f.slot, g.slot);
    } else if f.WonByName? && g.WonByName? {
      CandidateSlots(b, i, f.slot, g.slot);
    } else if f.WonByName? {
      assert HasNamesake(b, i) by { CandidateHasNamesake(b, i, f.slot); }
      forall s | NameCandidate(b, i, s) ensures s == f.slot { CandidateSlots(b, i, s, f.slot); }
    } else if g.WonByName? {
      assert HasNamesake(b, i) by { CandidateHasNamesake(b, i, g.slot); }
      forall s | NameCandidate(b, i, s) ensures s == g.slot { CandidateSlots(b, i, s, g.slot); }
    }
  }

  lemma CandidateHasNamesake(b: Book, i: nat, slot: Slot)
    requires NameCandidate(b, i, slot)
    ensures HasNamesake(b, i)
  {}

  // ---------------------------------------------------- order does not matter

  lemma {:induction false} RowsAtJoin(xs: seq<MacRow>, ys: seq<MacRow>, slot: Slot)
    ensures RowsAt(xs + ys, slot) == RowsAt(xs, slot) + RowsAt(ys, slot)
  {
    if ys == [] {
      assert xs + ys == xs;
    } else {
      var n := |ys| - 1;
      RowsAtJoin(xs, ys[..n], slot);
      assert (xs + ys)[..|xs + ys|-1] == xs + ys[..n];
    }
  }

  lemma {:induction false} RowsAtAnyOrder(xs: seq<MacRow>, ys: seq<MacRow>, slot: Slot)
    requires multiset(xs) == multiset(ys)
    ensures RowsAt(xs, slot) == RowsAt(ys, slot)
  {
    if xs == [] {
      assert ys == [] by { assert |multiset(ys)| == 0; }
    } else {
      var n := |xs| - 1;
      var r := xs[n];
      assert xs == xs[..n] + [r];
      assert r in multiset(ys);
      var j :| 0 <= j < |ys| && ys[j] == r;
      var p, q := ys[..j], ys[j+1..];
      assert ys == p + [r] + q;
      assert multiset(p + q) == multiset(ys) - multiset{r};
      assert multiset(xs[..n]) == multiset(xs) - multiset{r};
      RowsAtAnyOrder(xs[..n], p + q, slot);
      RowsAtJoin(p, q, slot);
      RowsAtJoin(p + [r], q, slot);
      RowsAtJoin(p, [r], slot);
      assert [r][..0] == [];
    }
  }

  /** The same learned MACs and named slots, in any order. */
  ghost predicate SameRows(b: Book, c: Book) {
    && multiset(b.macRows) == multiset(c.macRows)
    && (forall r :: r in b.onuRows <==> r in c.onuRows)
    && b.most == c.most
  }

  lemma SameLearned(b: Book, c: Book)
    requires SameRows(b, c)
    ensures forall mac, slot :: Learned(b, mac, slot) <==> Learned(c, mac, slot)
    ensures forall key, slot :: Named(b, key, slot) <==> Named(c, key, slot)
  {
    forall slot ensures Crowded(b, slot) <==> Crowded(c, slot) { RowsAtAnyOrder(b.macRows, c.macRows, slot); }
    forall r ensures r in b.macRows <==> r in c.macRows {
      assert r in multiset(b.macRows) <==> r in multiset(c.macRows);
    }
  }

  /**
   `there` says where each customer of the first list stands in the second, and `back` the
   other way: the lists hold the same customers, and customers of different panels come in
   the same order in both.
   */
  ghost predicate Reordered(xs: seq<Customer>, ys: seq<Customer>, there: seq<nat>, back: seq<nat>) {
    && |there| == |back| == |xs| == |ys|
    && (forall i :: 0 <= i < |there| ==> there[i] < |ys| && ys[there[i]] == xs[i] && back[there[i]] == i)
    && (forall k :: 0 <= k < |back| ==> back[k] < |xs| && xs[back[k]] == ys[k] && there[back[k]] == k)
    && (forall i, k :: 0 <= i < k < |xs| && xs[i].account != xs[k].account ==> there[i] < there[k])
    && (forall i, k :: 0 <= i < k < |ys| && ys[i].account != ys[k].account ==> back[i] < back[k])
  }

  /** The first panel listing a MAC is the same in both lists. */
  lemma {:induction false} SameFirstPanel(xs: seq<Customer>, ys: seq<Customer>, there: seq<nat>, back: seq<nat>, mac: string)
    requires Reordered(xs, ys, there, back) && FirstWith(xs, mac) < |xs|
    ensures FirstWith(ys, mac) < |ys| && xs[FirstWith(xs, mac)].account == ys[FirstWith(ys, mac)].account
  {
    var f, g := FirstWith(xs, mac), FirstWith(ys, mac);
    assert ys[there[f]].mac == Some(mac);
    assert g <= there[f];
    var i := back[g];
    assert xs[i].mac == Some(mac) && f <= i;
  }

  /** A claim on one list is a claim on the other. */
  lemma SameClaim(xs: seq<Customer>, ys: seq<Customer>, there: seq<nat>, back: seq<nat>, mac: string, user: string)
    requires Reordered(xs, ys, there, back) && Claimed(xs, mac, user)
    ensures Claimed(ys, mac, user)
  {
    SameFirstPanel(xs, ys, there, back, mac);
    var f, g := FirstWith(xs, mac), FirstWith(ys, mac);
    forall k | Has(ys, k, mac) && ys[k].account == ys[g].account ensures ys[k].username == user {
      assert Has(xs, back[k], mac);
    }
  }

  lemma SameUsers(xs: seq<Customer>, ys: seq<Customer>, there: seq<nat>, back: seq<nat>, key: string)
    requires Reordered(xs, ys, there, back) && OneUser(xs, key)
    ensures OneUser(ys, key)
  {
    forall i, k | Keyed(ys, i, key) && Keyed(ys, k, key) ensures ys[i].username == ys[k].username {
      assert Keyed(xs, back[i], key) && Keyed(xs, back[k], key);
    }
  }

  /** Two inputs that differ in order only. */
  ghost predicate Shuffled(b: Book, c: Book, there: seq<nat>, back: seq<nat>) {
    SameRows(b, c) && Reordered(b.customers, c.customers, there, back)
  }

  lemma ShuffledBack(b: Book, c: Book, there: seq<nat>, back: seq<nat>)
    requires Shuffled(b, c, there, back)
    ensures Shuffled(c, b, back, there)
  {}

  lemma SameCandidate(b: Book, c: Book, there: seq<nat>, back: seq<nat>, i: nat, slot: Slot)
    requires Shuffled(b, c, there, back) && i < |there| && Candidate(b, i, slot)
    ensures there[i] < |c.customers| && Candidate(c, there[i], slot)
  {
    hide Learned, Claimed, SameRows;
    SameLearned(b, c);
    SameClaim(b.customers, c.customers, there, back, b.customers[i].mac.value, b.customers[i].username);
  }

  lemma CandidateListed(b: Book, i: int, slot: Slot)
    ensures Candidate(b, i, slot) ==> 0 <= i < |b.customers|
  {}

  lemma SameWinner(b: Book, c: Book, there: seq<nat>, back: seq<nat>, i: nat, slot: Slot)
    requires Shuffled(b, c, there, back) && i < |there| && MacWins(b, i, slot)
    ensures there[i] < |c.customers| && MacWins(c, there[i], slot)
  {
    hide Candidate, SameRows;
    SameCandidate(b, c, there, back, i, slot);
    forall k | Candidate(c, k, slot) ensures k == there[i] {
      CandidateListed(c, k, slot);
      ShuffledBack(b, c, there, back);
      SameCandidate(c, b, back, there, k, slot);
    }
  }

  lemma SameMacLinked(b: Book, c: Book, there: seq<nat>, back: seq<nat>, i: nat)
    requires Shuffled(b, c, there, back) && i < |there|
    ensures there[i] < |c.customers| && (MacLinked(b, i) <==> MacLinked(c, there[i]))
  {
    hide MacWins, SameRows;
    ShuffledBack(b, c, there, back);
    if slot :| MacWins(b, i, slot) { SameWinner(b, c, there, back, i, slot); }
    if slot :| MacWins(c, there[i], slot) { SameWinner(c, b, back, there, there[i], slot); }
  }

  lemma SameMacTaken(b: Book, c: Book, there: seq<nat>, back: seq<nat>, slot: Slot)
    requires Shuffled(b, c, there, back) && MacTaken(b, slot)
    ensures MacTaken(c, slot)
  {
    hide SameRows, Candidate, Reordered;
    var i :| MacWins(b, i, slot);
    CandidateListed(b, i, slot);
    ShuffledSize(b, c, there, back);
    SameWinner(b, c, there, back, i, slot);
  }

  lemma ShuffledSize(b: Book, c: Book, there: seq<nat>, back: seq<nat>)
    requires Shuffled(b, c, there, back)
    ensures |there| == |back| == |b.customers| == |c.customers|
    ensures forall i :: 0 <= i < |there| ==> there[i] < |c.customers| && c.customers[there[i]] == b.customers[i]
    ensures forall i :: 0 <= i < |there| ==> there[i] < |back| && back[there[i]] == i
  {}

  lemma SameNameCandidate(b: Book, c: Book, there: seq<nat>, back: seq<nat>, i: nat, slot: Slot)
    requires Shuffled(b, c, there, back) && i < |there| && NameCandidate(b, i, slot)
    ensures there[i] < |c.customers| && NameCandidate(c, there[i], slot)
  {
    hide SameRows, MacLinked, Named, OneUser, Reordered;
    ShuffledSize(b, c, there, back);
    SameLearned(b, c);
    SameMacLinked(b, c, there, back, i);
    SameUsers(b.customers, c.customers, there, back, b.customers[i].key.value);
  }

  /** Each slot has one row in the ONU list, so at most one name. */
  ghost predicate OneRowEach(b: Book) {
    forall r, s :: r in b.onuRows && s in b.onuRows && r.slot == s.slot ==> r == s
  }

  /** Two name candidates for one slot share a username, so they are of different panels. */
  lemma RivalsByName(b: Book, i: nat, k: nat, slot: Slot)
    requires WellListed(b.customers) && OneRowEach(b) && i != k
    requires NameCandidate(b, i, slot) && NameCandidate(b, k, slot)
    ensures b.customers[i].account != b.customers[k].account
  {
    hide MacLinked;
    var x, y := b.customers[i], b.customers[k];
    assert OnuRow(slot, Some(x.key.value)) == OnuRow(slot, Some(y.key.value));
    assert Keyed(b.customers, i, x.key.value) && Keyed(b.customers, k, x.key.value);
  }

  lemma SameEarlier(b: Book, c: Book, there: seq<nat>, back: seq<nat>, i: nat, slot: Slot)
    requires WellListed(b.customers) && OneRowEach(b) && Shuffled(b, c, there, back) && i < |there|
    requires NameCandidate(b, i, slot) && EarlierCandidate(b, i, slot)
    ensures there[i] < |c.customers| && EarlierCandidate(c, there[i], slot)
  {
    hide NameCandidate, SameRows, OneRowEach, WellListed;
    var k :| 0 <= k < i && NameCandidate(b, k, slot);
    RivalsByName(b, i, k, slot);
    SameNameCandidate(b, c, there, back, k, slot);
    assert there[k] < there[i];
  }

  /** A customer's fate is the same wherever it is listed. */
  lemma SameFate(b: Book, c: Book, there: seq<nat>, back: seq<nat>, i: nat, f: Fate)
    requires WellListed(b.customers) && OneRowEach(b) && WellListed(c.customers) && OneRowEach(c)
    requires Shuffled(b, c, there, back) && i < |there| && |there| == |b.customers| && Fated(b, i, f)
    ensures there[i] < |c.customers| && Fated(c, there[i], f)
  {
    hide NameCandidate, MacWins, MacLinked, MacTaken, EarlierCandidate, Shuffled, OneRowEach, WellListed, Named;
    ShuffledSize(b, c, there, back);
    ShuffledBack(b, c, there, back);
    SameLearnedIn(b, c, there, back);
    SameMacLinked(b, c, there, back, i);
    var k := there[i];
    match f
    case WonByMac(slot) => SameWinner(b, c, there, back, i, slot);
    case WonByName(slot) =>
      SameNameCandidate(b, c, there, back, i, slot);
      if MacTaken(c, slot) { SameMacTaken(c, b, back, there, slot); }
      if EarlierCandidate(c, k, slot) { SameEarlier(c, b, back, there, k, slot); }
    case NameAmbiguous =>
      if slot :| NameCandidate(c, k, slot) { SameNameCandidate(c, b, back, there, k, slot); }
    case Unmatched =>
      if HasNamesake(b, i) {
        var slot :| NameCandidate(b, i, slot) && (MacTaken(b, slot) || EarlierCandidate(b, i, slot));
        SameNameCandidate(b, c, there, back, i, slot);
        if MacTaken(b, slot) { SameMacTaken(b, c, there, back, slot); }
        if EarlierCandidate(b, i, slot) { SameEarlier(b, c, there, back, i, slot); }
      }
  }

  lemma SameLearnedIn(b: Book, c: Book, there: seq<nat>, back: seq<nat>)
    requires Shuffled(b, c, there, back)
    ensures forall key, slot :: Named(b, key, slot) <==> Named(c, key, slot)
  {
    SameLearned(b, c);
  }

  /** A customer has the same fate in two runs that differ in the order of their inputs. */
  lemma FateCarries(b: Book, c: Book, there: seq<nat>, back: seq<nat>, fates: seq<Fate>, fates2: seq<Fate>, i: nat)
    requires WellListed(b.customers) && OneRowEach(b) && WellListed(c.customers) && OneRowEach(c)
    requires Shuffled(b, c, there, back) && |fates| == |b.customers| && |fates2| == |c.customers| && Fates(b, fates) && Fates(c, fates2)
    requires i < |fates|
    ensures i < |there| && there[i] < |fates2| && fates2[there[i]] == fates[i]
  {
    hide Fated, Shuffled, OneRowEach, WellListed;
    ShuffledSize(b, c, there, back);
    SameFate(b, c, there, back, i, fates[i]);
    FateUnique(c, there[i], fates[i], fates2[there[i]]);
  }

  lemma LinkCarries(b: Book, c: Book, there: seq<nat>, back: seq<nat>, fates: seq<Fate>, fates2: seq<Fate>, l: Link)
    requires WellListed(b.customers) && OneRowEach(b) && WellListed(c.customers) && OneRowEach(c)
    requires Shuffled(b, c, there, back) && |fates| == |b.customers| && |fates2| == |c.customers| && Fates(b, fates) && Fates(c, fates2)
    requires IsLink(b, fates, l)
    ensures IsLink(c, fates2, l)
  {
    hide Fated, Shuffled, OneRowEach, WellListed, LinkFor;
    ShuffledSize(b, c, there, back);
    var i :| 0 <= i < |fates|
             && ((fates[i] == WonByMac(l.slot) && l == LinkFor(b.customers[i], l.slot, ByMac))
                 || (fates[i] == WonByName(l.slot) && l == LinkFor(b.customers[i], l.slot, ByName)));
    FateCarries(b, c, there, back, fates, fates2, i);
  }

  // ------------------------------------------------------ the counters, too

  ghost function OfKind(fates: seq<Fate>, kind: Kind): set<nat> {
    set i: nat | i < |fates| && KindOf(fates[i]) == kind
  }

  lemma {:induction false} CountIsSize(fates: seq<Fate>, kind: Kind)
    ensures Count(fates, kind) == |OfKind(fates, kind)|
  {
    if fates != [] {
      var n := |fates| - 1;
      CountIsSize(fates[..n], kind);
      assert OfKind(fates, kind) == OfKind(fates[..n], kind) + (if KindOf(fates[n]) == kind then {n} else {});
    }
  }

  ghost function ReachedOnes(b: Book, n: nat): set<nat> {
    set i: nat | i < n && Reached(b, i)
  }

  lemma {:induction false} ReachedIsSize(b: Book, n: nat)
    ensures ReachedCount(b, n) == |ReachedOnes(b, n)|
  {
    hide Reached;
    if n > 0 {
      ReachedIsSize(b, n - 1);
      assert ReachedOnes(b, n) == ReachedOnes(b, n - 1) + (if Reached(b, n - 1) then {n - 1} else {});
    }
  }

  lemma SameReached(b: Book, c: Book, there: seq<nat>, back: seq<nat>, i: nat)
    requires Shuffled(b, c, there, back) && i < |there|
    ensures there[i] < |c.customers| && (Reached(b, i) <==> Reached(c, there[i]))
  {
    hide Learned, SameRows;
    SameLearned(b, c);
  }

  lemma {:induction false} SameReachedCount(b: Book, c: Book, there: seq<nat>, back: seq<nat>)
    requires Shuffled(b, c, there, back)
    ensures ReachedCount(b, |b.customers|) == ReachedCount(c, |c.customers|)
  {
    hide Shuffled, Reached;
    ShuffledBack(b, c, there, back);
    ShuffledSize(b, c, there, back);
    ShuffledSize(c, b, back, there);
    var n := |b.customers|;
    forall i | 0 <= i < n ensures Reached(b, i) <==> Reached(c, there[i]) { SameReached(b, c, there, back, i); }
    ReachedIsSize(b, n);
    ReachedIsSize(c, n);
    Sets.PairedSize(ReachedOnes(b, n), ReachedOnes(c, n), there, back);
  }

  lemma {:induction false} SameKindCount(b: Book, c: Book, there: seq<nat>, back: seq<nat>, fates: seq<Fate>, fates2: seq<Fate>, kind: Kind)
    requires WellListed(b.customers) && OneRowEach(b) && WellListed(c.customers) && OneRowEach(c)
    requires Shuffled(b, c, there, back) && |fates| == |b.customers| && |fates2| == |c.customers| && Fates(b, fates) && Fates(c, fates2)
    ensures Count(fates, kind) == Count(fates2, kind)
  {
    hide Shuffled, OneRowEach, WellListed, Fates, KindOf;
    ShuffledBack(b, c, there, back);
    ShuffledSize(b, c, there, back);
    ShuffledSize(c, b, back, there);
    forall i | 0 <= i < |fates| ensures fates2[there[i]] == fates[i] { FateCarries(b, c, there, back, fates, fates2, i); }
    CountIsSize(fates, kind);
    CountIsSize(fates2, kind);
    Sets.PairedSize(OfKind(fates, kind), OfKind(fates2, kind), there, back);
  }

  lemma SameCrossing(b: Book, c: Book, there: seq<nat>, back: seq<nat>, mac: string)
    requires Shuffled(b, c, there, back) && Crossing(b.customers, mac)
    ensures Crossing(c.customers, mac)
  {
    var xs, ys := b.customers, c.customers;
    var k :| Has(xs, k, mac) && xs[k].account != xs[FirstWith(xs, mac)].account;
    SameFirstPanel(xs, ys, there, back, mac);
    assert Has(ys, there[k], mac);
  }

  lemma SameCrossCount(b: Book, c: Book, there: seq<nat>, back: seq<nat>, res: LinkResult, res2: LinkResult)
    requires Shuffled(b, c, there, back)
    requires forall s: set<string> :: (forall mac :: mac in s <==> Crossing(b.customers, mac)) ==> res.crossPanel == |s|
    requires forall s: set<string> :: (forall mac :: mac in s <==> Crossing(c.customers, mac)) ==> res2.crossPanel == |s|
    ensures res.crossPanel == res2.crossPanel
  {
    hide Shuffled;
    ShuffledBack(b, c, there, back);
    forall mac ensures Crossing(b.customers, mac) <==> Crossing(c.customers, mac) {
      if Crossing(b.customers, mac) { SameCrossing(b, c, there, back, mac); }
      if Crossing(c.customers, mac) { SameCrossing(c, b, back, there, mac); }
    }
    var s := set x | x in b.customers && x.mac.Some? && Crossing(b.customers, x.mac.value) :: x.mac.value;
    forall mac ensures mac in s <==> Crossing(b.customers, mac) {
      if k :| Has(b.customers, k, mac) && b.customers[k].account != b.customers[FirstWith(b.customers, mac)].account {
        assert b.customers[k] in b.customers;
      }
    }
    assert forall mac :: mac in s <==> Crossing(c.customers, mac);
    assert res.crossPanel == |s| == res2.crossPanel;
  }

  lemma SameCrowdedCount(b: Book, c: Book, res: LinkResult, res2: LinkResult)
    requires SameRows(b, c)
    requires forall s: set<Slot> :: (forall slot :: slot in s <==> RowsAt(b.macRows, slot) > 0 && Crowded(b, slot)) ==> res.crowdedSlots == |s|
    requires forall s: set<Slot> :: (forall slot :: slot in s <==> RowsAt(c.macRows, slot) > 0 && Crowded(c, slot)) ==> res2.crowdedSlots == |s|
    ensures res.crowdedSlots == res2.crowdedSlots
  {
    forall slot ensures RowsAt(b.macRows, slot) == RowsAt(c.macRows, slot) { RowsAtAnyOrder(b.macRows, c.macRows, slot); }
    var s := set r | r in b.macRows && RowsAt(b.macRows, r.slot) > 0 && Crowded(b, r.slot) :: r.slot;
    forall slot ensures slot in s <==> RowsAt(b.macRows, slot) > 0 && Crowded(b, slot) {
      if RowsAt(b.macRows, slot) > 0 { var r := RowThere(b.macRows, slot); }
    }
    assert forall slot :: slot in s <==> RowsAt(c.macRows, slot) > 0 && Crowded(c, slot);
    assert res.crowdedSlots == |s| == res2.crowdedSlots;
  }

  lemma {:induction false} RowThere(rows: seq<MacRow>, slot: Slot) returns (r: MacRow)
    requires RowsAt(rows, slot) > 0
    ensures r in rows && r.slot == slot
  {
    var n := |rows| - 1;
    if rows[n].slot == slot { r := rows[n]; } else { r := RowThere(rows[..n], slot); }
  }

  /**
   Nothing in the result but the order of its links depends on the order of the MAC rows, of
   the ONU rows, or of the customers within a panel: the links are the same, and so is every
   counter.
   */
  lemma LinksOrderFree(b: Book, c: Book, there: seq<nat>, back: seq<nat>, res: LinkResult, fates: seq<Fate>,
                       res2: LinkResult, fates2: seq<Fate>)
    requires WellListed(b.customers) && OneRowEach(b) && WellListed(c.customers) && OneRowEach(c)
    requires Shuffled(b, c, there, back) && Tells(b, res, fates) && Tells(c, res2, fates2)
    ensures forall l :: l in res.links <==> l in res2.links
    ensures res2 == res.(links := res2.links)
  {
    hide Fated, Shuffled, OneRowEach, WellListed, LinkFor, IsLink, Count, RowsAt, Crowded, Crossing, ReachedCount, SlotsApart;
    ShuffledBack(b, c, there, back);
    forall l ensures l in res.links <==> l in res2.links {
      if l in res.links { LinkCarries(b, c, there, back, fates, fates2, l); }
      if l in res2.links { LinkCarries(c, b, back, there, fates2, fates, l); }
    }
    forall kind ensures Count(fates, kind) == Count(fates2, kind) { SameKindCount(b, c, there, back, fates, fates2, kind); }
    SameReachedCount(b, c, there, back);
    SameCrossCount(b, c, there, back, res, res2);
    ShuffledRows(b, c, there, back);
    SameCrowdedCount(b, c, res, res2);
  }

  lemma ShuffledRows(b: Book, c: Book, there: seq<nat>, back: seq<nat>)
    requires Shuffled(b, c, there, back)
    ensures SameRows(b, c)
  {}
}
