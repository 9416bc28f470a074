/**
 `link_customers` of radius.py, pass by pass, and what its links amount to.
 */
module RadiusLink {
  import opened Options
  import opened Radius
  import Sets

  // ------------------------------------------------- first pass: who wants what

  /** The customer's MAC was learned somewhere uncrowded. */
  ghost predicate Reached(b: Book, i: int) {
    0 <= i < |b.customers| && b.customers[i].mac.Some? && exists slot :: Learned(b, b.customers[i].mac.value, slot)
  }

  ghost function ReachedCount(b: Book, n: nat): nat {
    if n == 0 then 0 else ReachedCount(b, n - 1) + (if Reached(b, n - 1) then 1 else 0)
  }

  ghost function Candidates(b: Book, n: nat, slot: Slot): seq<nat> {
    if n == 0 then [] else Candidates(b, n - 1, slot) + (if Candidate(b, n - 1, slot) then [n - 1] else [])
  }

  type Wants = map<Slot, seq<nat>>

  function Listed(wanted: Wants, slot: Slot): seq<nat> {
    if slot in wanted then wanted[slot] else []
  }

  function Claimants(order: seq<Slot>, wanted: Wants): nat {
    if order == [] then 0 else Claimants(order[..|order|-1], wanted) + |Listed(wanted, order[|order|-1])|
  }

  predicate NoRepeats<T(==)>(s: seq<T>) {
    forall i, k :: 0 <= i < k < |s| ==> s[i] != s[k]
  }

  // Where a customer's MAC points.
  datatype Aim = Nowhere | Unclear | Aimed(slot: Slot)

  /** The two MAC dictionaries say what they should. */
  ghost predicate MacsTold(b: Book, slotsForMac: map<string, set<Slot>>, claims: map<string, Option<string>>) {
    && (forall mac, s :: s in Under(slotsForMac, mac) <==> Learned(b, mac, s))
    && (forall mac, u :: ClaimOn(claims, mac) == Some(u) <==> Claimed(b.customers, mac, u))
  }

  method AimOf(b: Book, i: nat, slotsForMac: map<string, set<Slot>>, claims: map<string, Option<string>>) returns (aim: Aim)
    requires i < |b.customers|
    requires MacsTold(b, slotsForMac, claims)
    ensures aim == Nowhere <==> !Reached(b, i)
    ensures forall s :: aim == Aimed(s) <==> Candidate(b, i, s)
  {
    hide Learned, Claimed, Under, ClaimOn;
    var c := b.customers[i];
    if c.mac.None? {
      return Nowhere;
    }
    var slots := Under(slotsForMac, c.mac.value);
    if slots == {} {
      assert forall s :: s !in slots;
      return Nowhere;
    }
    ghost var some := Sets.Some(slots);
    assert Learned(b, c.mac.value, some);
    var slot := Sole(slots);
    if slot.None? || ClaimOn(claims, c.mac.value) != Some(c.username) {
      return Unclear;
    }
    aim := Aimed(slot.value);
  }

  ghost predicate WantsUpTo(b: Book, n: nat, order: seq<Slot>, wanted: Wants, ambiguous: nat) {
    && (forall slot :: Listed(wanted, slot) == Candidates(b, n, slot))
    && (forall slot :: slot in order <==> Candidates(b, n, slot) != [])
    && NoRepeats(order)
    && ambiguous + Claimants(order, wanted) == ReachedCount(b, n)
  }

  lemma {:induction false} ClaimantsOther(order: seq<Slot>, wanted: Wants, slot: Slot, xs: seq<nat>)
    requires slot !in order
    ensures Claimants(order, wanted[slot := xs]) == Claimants(order, wanted)
  {
    if order != [] { ClaimantsOther(order[..|order|-1], wanted, slot, xs); }
  }

  lemma {:induction false} ClaimantsMore(order: seq<Slot>, wanted: Wants, slot: Slot, x: nat)
    requires slot in order && NoRepeats(order)
    ensures Claimants(order, wanted[slot := Listed(wanted, slot) + [x]]) == Claimants(order, wanted) + 1
  {
    var n := |order| - 1;
    if order[n] == slot {
      ClaimantsOther(order[..n], wanted, slot, Listed(wanted, slot) + [x]);
    } else {
      assert order == order[..n] + [order[n]];
      ClaimantsMore(order[..n], wanted, slot, x);
    }
  }

  lemma AimNone(b: Book, n: nat, order: seq<Slot>, wanted: Wants, ambiguous: nat, aim: Aim)
    requires n < |b.customers| && WantsUpTo(b, n, order, wanted, ambiguous) && !aim.Aimed?
    requires aim == Nowhere <==> !Reached(b, n)
    requires forall s :: aim == Aimed(s) <==> Candidate(b, n, s)
    ensures WantsUpTo(b, n + 1, order, wanted, if aim.Unclear? then ambiguous + 1 else ambiguous)
  {
    hide Candidate, Reached;
    forall slot ensures Candidates(b, n + 1, slot) == Candidates(b, n, slot) {}
  }

  lemma CandidatesMore(b: Book, n: nat, slot: Slot)
    requires n < |b.customers| && forall s :: s == slot <==> Candidate(b, n, s)
    ensures Candidates(b, n + 1, slot) == Candidates(b, n, slot) + [n]
    ensures forall s :: s != slot ==> Candidates(b, n + 1, s) == Candidates(b, n, s)
  {
    hide Candidate;
    forall s | s != slot ensures Candidates(b, n + 1, s) == Candidates(b, n, s) {
      assert Candidates(b, n, s) + [] == Candidates(b, n, s);
    }
  }

  lemma ListedMore(wanted: Wants, slot: Slot, x: nat)
    ensures Listed(wanted[slot := Listed(wanted, slot) + [x]], slot) == Listed(wanted, slot) + [x]
    ensures forall s :: s != slot ==> Listed(wanted[slot := Listed(wanted, slot) + [x]], s) == Listed(wanted, s)
  {}

  lemma {:induction false} ListsMore(b: Book, n: nat, wanted: Wants, slot: Slot, more: Wants)
    requires more == wanted[slot := Listed(wanted, slot) + [n]]
    requires n < |b.customers| && forall s :: Listed(wanted, s) == Candidates(b, n, s)
    requires forall s :: s == slot <==> Candidate(b, n, s)
    ensures forall s :: Listed(more, s) == Candidates(b, n + 1, s)
  {
    CandidatesMore(b, n, slot);
    ListedMore(wanted, slot, n);
    hide Candidate, Candidates, Listed;
  }

  lemma OrdersMore(b: Book, n: nat, order: seq<Slot>, slot: Slot)
    requires n < |b.customers| && forall s :: s in order <==> Candidates(b, n, s) != []
    requires forall s :: s == slot <==> Candidate(b, n, s)
    ensures forall s :: s in order || s == slot <==> Candidates(b, n + 1, s) != []
  {
    CandidatesMore(b, n, slot);
    hide Candidate, Candidates;
    assert Candidates(b, n + 1, slot) != [];
  }

  lemma AimAtOld(b: Book, n: nat, order: seq<Slot>, wanted: Wants, ambiguous: nat, slot: Slot)
    requires n < |b.customers| && WantsUpTo(b, n, order, wanted, ambiguous) && Reached(b, n) && slot in order
    requires forall s :: s == slot <==> Candidate(b, n, s)
    ensures WantsUpTo(b, n + 1, order, wanted[slot := Listed(wanted, slot) + [n]], ambiguous)
  {
    hide Candidate, Candidates, Reached, ReachedCount, Claimants, Listed, NoRepeats;
    var more := wanted[slot := Listed(wanted, slot) + [n]];
    ListsMore(b, n, wanted, slot, more);
    OrdersMore(b, n, order, slot);
    ClaimantsMore(order, wanted, slot, n);
    ReachedMore(b, n);
  }

  lemma ReachedMore(b: Book, n: nat)
    requires n < |b.customers|
    ensures ReachedCount(b, n + 1) == ReachedCount(b, n) + (if Reached(b, n) then 1 else 0)
  {}

  lemma AimAtNew(b: Book, n: nat, order: seq<Slot>, wanted: Wants, ambiguous: nat, slot: Slot)
    requires n < |b.customers| && WantsUpTo(b, n, order, wanted, ambiguous) && Reached(b, n) && slot !in order
    requires forall s :: s == slot <==> Candidate(b, n, s)
    ensures WantsUpTo(b, n + 1, order + [slot], wanted[slot := Listed(wanted, slot) + [n]], ambiguous)
  {
    hide Candidate, Candidates, Reached, ReachedCount, Claimants, Listed, NoRepeats;
    var more := wanted[slot := Listed(wanted, slot) + [n]];
    ListsMore(b, n, wanted, slot, more);
    OrdersMore(b, n, order, slot);
    OrderMore(order, slot);
    CountsMore(b, n, order, wanted, ambiguous, slot);
  }

  lemma {:induction false} CountsMore(b: Book, n: nat, order: seq<Slot>, wanted: Wants, ambiguous: nat, slot: Slot)
    requires n < |b.customers| && WantsUpTo(b, n, order, wanted, ambiguous) && Reached(b, n) && slot !in order
    ensures ambiguous + Claimants(order + [slot], wanted[slot := Listed(wanted, slot) + [n]]) == ReachedCount(b, n + 1)
  {
    hide Candidates, Reached, ReachedCount, Claimants, Listed, NoRepeats;
    ClaimantsOther(order, wanted, slot, Listed(wanted, slot) + [n]);
    ClaimantsLast(order, wanted[slot := Listed(wanted, slot) + [n]], slot);
    ListedMore(wanted, slot, n);
    NoneYet(b, n, order, wanted, ambiguous, slot);
    ReachedMore(b, n);
  }

  lemma NoneYet(b: Book, n: nat, order: seq<Slot>, wanted: Wants, ambiguous: nat, slot: Slot)
    requires WantsUpTo(b, n, order, wanted, ambiguous) && slot !in order
    ensures |Listed(wanted, slot)| == 0
  {
    hide Listed, Candidates;
  }

  lemma OrderMore(order: seq<Slot>, slot: Slot)
    requires NoRepeats(order) && slot !in order
    ensures NoRepeats(order + [slot])
    ensures forall s :: s in order + [slot] <==> s in order || s == slot
  {}

  lemma {:induction false} ClaimantsLast(order: seq<Slot>, wanted: Wants, slot: Slot)
    ensures Claimants(order + [slot], wanted) == Claimants(order, wanted) + |Listed(wanted, slot)|
  {
    assert (order + [slot])[..|order|] == order;
  }

  /** `wanted`: the candidates of each slot, with the slots in the order they were first wanted. */
  method Wanted(b: Book, slotsForMac: map<string, set<Slot>>, claims: map<string, Option<string>>)
    returns (order: seq<Slot>, wanted: Wants, ambiguous: nat)
    requires MacsTold(b, slotsForMac, claims)
    ensures WantsUpTo(b, |b.customers|, order, wanted, ambiguous)
  {
    hide *;
    order, wanted, ambiguous := [], map[], 0;
    WantsNone(b);
    for i := 0 to |b.customers|
      invariant WantsUpTo(b, i, order, wanted, ambiguous)
    {
      var aim := AimOf(b, i, slotsForMac, claims);
      if aim.Aimed? {
        if aim.slot in order {
          AimAtOld(b, i, order, wanted, ambiguous, aim.slot);
        } else {
          AimAtNew(b, i, order, wanted, ambiguous, aim.slot);
          order := order + [aim.slot];
        }
        wanted := wanted[aim.slot := Listed(wanted, aim.slot) + [i]];
      } else {
        AimNone(b, i, order, wanted, ambiguous, aim);
        if aim.Unclear? {
          ambiguous := ambiguous + 1;
        }
      }
    }
  }

  lemma WantsNone(b: Book)
    ensures WantsUpTo(b, 0, [], map[], 0)
  {}

  // ------------------------------------------------ second pass: sole claimants

  function LinkFor(c: Customer, slot: Slot, m: Match): Link {
    Link(slot, c.username, m, c.account)
  }

  ghost predicate IsMacLink(b: Book, l: Link) {
    exists i :: 0 <= i < |b.customers| && MacWins(b, i, l.slot) && l == LinkFor(b.customers[i], l.slot, ByMac)
  }

  predicate SlotsApart(links: seq<Link>) {
    forall i, k :: 0 <= i < k < |links| ==> links[i].slot != links[k].slot
  }

  lemma {:induction false} CandidatesHas(b: Book, n: nat, slot: Slot)
    requires n <= |b.customers|
    ensures forall i :: i in Candidates(b, n, slot) <==> 0 <= i < n && Candidate(b, i, slot)
    ensures NoRepeats(Candidates(b, n, slot))
  {
    hide Candidate;
    if n > 0 { CandidatesHas(b, n - 1, slot); }
  }

  lemma OneOfAKind<T>(s: seq<T>, x: T)
    requires NoRepeats(s) && x in s && forall y :: y in s ==> y == x
    ensures s == [x]
  {
    assert forall k :: 0 <= k < |s| ==> s[k] in s;
    if |s| >= 2 { TwoRepeat(s, x); }
  }

  lemma TwoRepeat<T>(s: seq<T>, x: T)
    requires |s| >= 2 && forall k :: 0 <= k < |s| ==> s[k] == x
    ensures !NoRepeats(s)
  {
    assert s[0] == s[1];
  }

  /** One candidate listed is one winner. */
  lemma {:induction false} SoleCandidate(b: Book, slot: Slot)
    ensures
      var cs := Candidates(b, |b.customers|, slot);
      && (|cs| == 1 <==> MacTaken(b, slot))
      && (|cs| == 1 ==> cs[0] < |b.customers| && forall i :: MacWins(b, i, slot) <==> i == cs[0])
  {
    hide Candidates, LearnedOnly, Claimed;
    var cs := Candidates(b, |b.customers|, slot);
    CandidatesHas(b, |b.customers|, slot);
    if |cs| == 1 {
      assert forall i :: i in cs <==> i == cs[0];
      assert cs[0] in cs;
      assert MacWins(b, cs[0], slot);
    }
    if MacTaken(b, slot) {
      var i :| MacWins(b, i, slot);
      assert i in cs && forall k :: k in cs ==> k == i;
      OneOfAKind(cs, i);
    }
  }

  ghost predicate MacPassed(b: Book, done: seq<Slot>, links: seq<Link>, taken: set<Slot>) {
    && (forall l :: l in links <==> l.slot in done && IsMacLink(b, l))
    && (forall s :: s in taken <==> s in done && MacTaken(b, s))
    && SlotsApart(links)
  }

  lemma MacPassSkips(b: Book, done: seq<Slot>, links: seq<Link>, taken: set<Slot>, slot: Slot)
    requires MacPassed(b, done, links, taken) && !MacTaken(b, slot)
    ensures MacPassed(b, done + [slot], links, taken)
  {
    hide MacWins;
    assert forall s :: s in done + [slot] <==> s in done || s == slot;
    forall l: Link | l.slot == slot ensures !IsMacLink(b, l) {}
  }

  lemma MacPassLinks(b: Book, done: seq<Slot>, links: seq<Link>, taken: set<Slot>, slot: Slot, i: nat)
    requires MacPassed(b, done, links, taken) && slot !in done
    requires i < |b.customers| && forall k :: MacWins(b, k, slot) <==> k == i
    ensures MacPassed(b, done + [slot], links + [LinkFor(b.customers[i], slot, ByMac)], taken + {slot})
  {
    hide MacWins;
    var link := LinkFor(b.customers[i], slot, ByMac);
    assert forall s :: s in done + [slot] <==> s in done || s == slot;
    assert forall l :: l in links + [link] <==> l in links || l == link;
    assert MacWins(b, i, slot);
    forall l: Link | l.slot == slot ensures IsMacLink(b, l) <==> l == link {}
    forall k | 0 <= k < |links| ensures links[k].slot != slot { assert links[k] in links; }
  }

  lemma ClaimantsAll(b: Book, order: seq<Slot>, wanted: Wants, ambiguous: nat, links: seq<Link>, taken: set<Slot>)
    requires WantsUpTo(b, |b.customers|, order, wanted, ambiguous) && MacPassed(b, order, links, taken)
    ensures forall l :: l in links <==> IsMacLink(b, l)
    ensures forall s :: s in taken <==> MacTaken(b, s)
  {
    hide MacWins, Candidates;
    forall s | s !in order ensures !MacTaken(b, s) { SoleCandidate(b, s); }
    forall l | IsMacLink(b, l) ensures MacTaken(b, l.slot) {}
  }

  /** One slot's claimants: the only one wins it, and any more are all refused. */
  method MacOne(b: Book, ghost done: seq<Slot>, slot: Slot, claimants: seq<nat>, links0: seq<Link>, taken0: set<Slot>,
                byMac0: nat, ambiguous0: nat) returns (links: seq<Link>, taken: set<Slot>, byMac: nat, ambiguous: nat)
    requires MacPassed(b, done, links0, taken0) && slot !in done && claimants == Candidates(b, |b.customers|, slot)
    requires |links0| == byMac0
    ensures MacPassed(b, done + [slot], links, taken) && |links| == byMac
    ensures byMac + ambiguous == byMac0 + ambiguous0 + |claimants|
  {
    hide MacPassed, MacTaken, MacWins, Candidates;
    links, taken, byMac, ambiguous := links0, taken0, byMac0, ambiguous0;
    SoleCandidate(b, slot);
    if |claimants| != 1 {
      MacPassSkips(b, done, links, taken, slot);
      ambiguous := ambiguous + |claimants|;
    } else {
      MacPassLinks(b, done, links, taken, slot, claimants[0]);
      taken := taken + {slot};
      links := links + [LinkFor(b.customers[claimants[0]], slot, ByMac)];
      byMac := byMac + 1;
    }
  }

  method MacPass(b: Book, order: seq<Slot>, wanted: Wants, ambiguous0: nat)
    returns (links: seq<Link>, taken: set<Slot>, byMac: nat, ambiguous: nat)
    requires WantsUpTo(b, |b.customers|, order, wanted, ambiguous0)
    ensures forall l :: l in links <==> IsMacLink(b, l)
    ensures forall s :: s in taken <==> MacTaken(b, s)
    ensures SlotsApart(links) && |links| == byMac
    ensures byMac + ambiguous == ReachedCount(b, |b.customers|)
  {
    hide *;
    WantsSay(b, order, wanted, ambiguous0);
    links, taken, byMac, ambiguous := [], {}, 0, ambiguous0;
    PassNone(b, wanted);
    for j := 0 to |order|
      invariant MacPassed(b, order[..j], links, taken)
      invariant |links| == byMac
      invariant byMac + ambiguous == ambiguous0 + Claimants(order[..j], wanted)
    {
      assert order[..j+1] == order[..j] + [order[j]];
      ClaimantsLast(order[..j], wanted, order[j]);
      Unvisited(order, j);
      links, taken, byMac, ambiguous := MacOne(b, order[..j], order[j], Listed(wanted, order[j]), links, taken, byMac, ambiguous);
    }
    assert order[..|order|] == order;
    ClaimantsAll(b, order, wanted, ambiguous0, links, taken);
    SlotsStayApart(b, order, links, taken);
  }

  lemma {:induction false} PassNone(b: Book, wanted: Wants)
    ensures MacPassed(b, [], [], {}) && Claimants([], wanted) == 0
  {}

  lemma {:induction false} WantsSay(b: Book, order: seq<Slot>, wanted: Wants, ambiguous: nat)
    requires WantsUpTo(b, |b.customers|, order, wanted, ambiguous)
    ensures forall slot :: Listed(wanted, slot) == Candidates(b, |b.customers|, slot)
    ensures NoRepeats(order) && ambiguous + Claimants(order, wanted) == ReachedCount(b, |b.customers|)
  {
    hide Listed, Candidates;
  }

  lemma Unvisited(order: seq<Slot>, j: nat)
    requires NoRepeats(order) && j < |order|
    ensures order[j] !in order[..j]
  {}

  lemma SlotsStayApart(b: Book, order: seq<Slot>, links: seq<Link>, taken: set<Slot>)
    requires MacPassed(b, order, links, taken)
    ensures SlotsApart(links)
  {}

  // ----------------------------------------------------- third pass: by name

  datatype Kind = MacKind | NameKind | AmbiguousKind | UnmatchedKind

  function KindOf(f: Fate): Kind {
    match f
    case WonByMac(_) => MacKind
    case WonByName(_) => NameKind
    case NameAmbiguous => AmbiguousKind
    case Unmatched => UnmatchedKind
  }

  function Count(fates: seq<Fate>, kind: Kind): nat {
    if fates == [] then 0
    else Count(fates[..|fates|-1], kind) + (if KindOf(fates[|fates|-1]) == kind then 1 else 0)
  }

  ghost predicate IsNameLink(b: Book, fates: seq<Fate>, l: Link)
    requires |fates| <= |b.customers|
  {
    exists k :: 0 <= k < |fates| && fates[k] == WonByName(l.slot) && l == LinkFor(b.customers[k], l.slot, ByName)
  }

  ghost predicate Fates(b: Book, fates: seq<Fate>) {
    |fates| <= |b.customers| && forall k :: 0 <= k < |fates| ==> Fated(b, k, fates[k])
  }

  ghost predicate NamePassed(b: Book, fates: seq<Fate>, links: seq<Link>, taken: set<Slot>) {
    && Fates(b, fates)
    && (forall l :: l in links <==> IsMacLink(b, l) || IsNameLink(b, fates, l))
    && (forall s :: s in taken <==> MacTaken(b, s) || EarlierCandidate(b, |fates|, s))
    && SlotsApart(links)
  }

  // What the loop makes of a customer; a linked one it skips.
  datatype Turn = Skipped | Won(slot: Slot) | Unclear_ | Lost

  /** The two name dictionaries say what they should. */
  ghost predicate NamesTold(b: Book, slotsForName: map<string, set<Slot>>, usersForName: map<string, set<string>>) {
    && (forall key, s :: s in Under(slotsForName, key) <==> Named(b, key, s))
    && (forall key, u :: u in Under(usersForName, key) <==> GoesBy(b.customers, key, u))
  }

  /** The name's search key belongs to one username: the set of usernames under it has one member. */
  method Singular(b: Book, i: nat, users: set<string>) returns (one: bool)
    requires i < |b.customers| && b.customers[i].key.Some?
    requires forall u :: u in users <==> GoesBy(b.customers, b.customers[i].key.value, u)
    ensures one <==> OneUser(b.customers, b.customers[i].key.value)
  {
    var key := b.customers[i].key.value;
    var sole := Sole(users);
    one := sole.Some?;
    assert Keyed(b.customers, i, key) && GoesBy(b.customers, key, b.customers[i].username);
    assert forall k :: Keyed(b.customers, k, key) ==> GoesBy(b.customers, key, b.customers[k].username);
    if OneUser(b.customers, key) {
      assert forall u :: u in users ==> u == b.customers[i].username;
      assert sole == Some(b.customers[i].username);
    }
  }

  method TurnOf(b: Book, i: nat, linked: set<(Option<int>, string)>, slotsForName: map<string, set<Slot>>,
                usersForName: map<string, set<string>>, taken: set<Slot>) returns (turn: Turn)
    requires i < |b.customers| && NamesTold(b, slotsForName, usersForName)
    requires (b.customers[i].account, b.customers[i].username) in linked <==> MacLinked(b, i)
    requires forall s :: s in taken <==> MacTaken(b, s) || EarlierCandidate(b, i, s)
    ensures turn.Skipped? <==> MacLinked(b, i)
    ensures turn.Won? ==> Fated(b, i, WonByName(turn.slot))
    ensures turn.Unclear_? ==> Fated(b, i, NameAmbiguous)
    ensures turn.Lost? ==> Fated(b, i, Unmatched)
    ensures forall s :: NameCandidate(b, i, s) ==> turn == Won(s) || s in taken
  {
    hide MacLinked, MacTaken, EarlierCandidate, Named, OneUser, GoesBy, Under;
    var c := b.customers[i];
    if (c.account, c.username) in linked {
      return Skipped;
    }
    if c.key.None? {
      return Lost;
    }
    var slots := Under(slotsForName, c.key.value);
    if slots == {} {
      assert forall s :: s !in slots;
      return Lost;
    }
    ghost var some := Sets.Some(slots);
    assert Named(b, c.key.value, some);
    var slot := Sole(slots);
    var one := Singular(b, i, Under(usersForName, c.key.value));
    if slot.None? || !one {
      return Unclear_;
    }
    assert NameCandidate(b, i, slot.value);
    if slot.value in taken {
      return Lost;
    }
    turn := Won(slot.value);
  }

  /** A slot is pointed at by one candidate's name only as its sole slot. */
  lemma CandidateSlots(b: Book, i: int, s: Slot, t: Slot)
    requires NameCandidate(b, i, s) && NameCandidate(b, i, t)
    ensures s == t
  {}

  lemma EarlierMore(b: Book, n: nat, s: Slot)
    ensures EarlierCandidate(b, n + 1, s) <==> EarlierCandidate(b, n, s) || NameCandidate(b, n, s)
  {
    hide NameCandidate;
    if EarlierCandidate(b, n + 1, s) {
      var k :| 0 <= k < n + 1 && NameCandidate(b, k, s);
      assert k < n ==> EarlierCandidate(b, n, s);
    }
  }

  /** A customer who is not given a slot by name leaves the pass as it was. */
  lemma NamePassSkips(b: Book, fates: seq<Fate>, links: seq<Link>, taken: set<Slot>, f: Fate)
    requires NamePassed(b, fates, links, taken) && |fates| < |b.customers| && Fated(b, |fates|, f) && !f.WonByName?
    requires forall s :: NameCandidate(b, |fates|, s) ==> s in taken
    ensures NamePassed(b, fates + [f], links, taken)
  {
    hide MacTaken, EarlierCandidate, NameCandidate, IsMacLink, Fated;
    forall s ensures EarlierCandidate(b, |fates| + 1, s) <==> EarlierCandidate(b, |fates|, s) || NameCandidate(b, |fates|, s) {
      EarlierMore(b, |fates|, s);
    }
    forall l ensures IsNameLink(b, fates + [f], l) <==> IsNameLink(b, fates, l) { NameLinkMore(b, fates, f, l); }
    FatesMore(b, fates, f);
  }

  lemma FatesMore(b: Book, fates: seq<Fate>, f: Fate)
    requires Fates(b, fates) && |fates| < |b.customers| && Fated(b, |fates|, f)
    ensures Fates(b, fates + [f])
  {
    hide Fated;
  }

  lemma NameLinkMore(b: Book, fates: seq<Fate>, f: Fate, l: Link)
    requires |fates| < |b.customers|
    ensures IsNameLink(b, fates + [f], l)
            <==> IsNameLink(b, fates, l) || (f == WonByName(l.slot) && l == LinkFor(b.customers[|fates|], l.slot, ByName))
  {
    hide LinkFor;
    var more := fates + [f];
    if IsNameLink(b, fates, l) {
      var k :| 0 <= k < |fates| && fates[k] == WonByName(l.slot) && l == LinkFor(b.customers[k], l.slot, ByName);
      assert more[k] == WonByName(l.slot);
    }
    if f == WonByName(l.slot) && l == LinkFor(b.customers[|fates|], l.slot, ByName) {
      assert more[|fates|] == WonByName(l.slot);
    }
    if IsNameLink(b, more, l) {
      var k :| 0 <= k < |more| && more[k] == WonByName(l.slot) && l == LinkFor(b.customers[k], l.slot, ByName);
      assert k < |fates| ==> fates[k] == WonByName(l.slot);
    }
  }

  lemma LinkTaken(b: Book, fates: seq<Fate>, links: seq<Link>, taken: set<Slot>, l: Link)
    requires NamePassed(b, fates, links, taken) && l in links
    ensures l.slot in taken
  {
    hide MacWins, NameCandidate;
    if IsNameLink(b, fates, l) {
      var k :| 0 <= k < |fates| && fates[k] == WonByName(l.slot) && l == LinkFor(b.customers[k], l.slot, ByName);
      assert Fated(b, k, fates[k]) && NameCandidate(b, k, l.slot);
    }
  }

  lemma NamePassLinks(b: Book, fates: seq<Fate>, links: seq<Link>, taken: set<Slot>, slot: Slot)
    requires NamePassed(b, fates, links, taken) && |fates| < |b.customers| && Fated(b, |fates|, WonByName(slot))
    ensures NamePassed(b, fates + [WonByName(slot)], links + [LinkFor(b.customers[|fates|], slot, ByName)], taken + {slot})
  {
    hide MacTaken, EarlierCandidate, NameCandidate, IsMacLink;
    var f, n, link := WonByName(slot), |fates|, LinkFor(b.customers[|fates|], slot, ByName);
    forall s ensures EarlierCandidate(b, n + 1, s) <==> EarlierCandidate(b, n, s) || s == slot {
      EarlierMore(b, n, s);
      if NameCandidate(b, n, s) { CandidateSlots(b, n, s, slot); }
    }
    forall l ensures IsNameLink(b, fates + [f], l) <==> IsNameLink(b, fates, l) || l == link { NameLinkMore(b, fates, f, l); }
    FatesMore(b, fates, f);
    forall k | 0 <= k < |links| ensures links[k].slot != slot {
      assert links[k] in links;
      LinkTaken(b, fates, links, taken, links[k]);
    }
    assert forall l :: l in links + [link] <==> l in links || l == link;
    assert SlotsApart(links + [link]);
  }

  ghost predicate Tallied(fates: seq<Fate>, byName: nat, ambiguous: nat, unmatched: nat) {
    byName == Count(fates, NameKind) && ambiguous == Count(fates, AmbiguousKind) && unmatched == Count(fates, UnmatchedKind)
  }

  lemma {:induction false} CountMore(fates: seq<Fate>, f: Fate, kind: Kind)
    ensures Count(fates + [f], kind) == Count(fates, kind) + (if KindOf(f) == kind then 1 else 0)
  {
    assert (fates + [f])[..|fates|] == fates;
  }

  /** Whatever the links so far say of who is linked by MAC. */
  ghost predicate LinkedTold(b: Book, linked: set<(Option<int>, string)>) {
    forall i :: 0 <= i < |b.customers| ==> ((b.customers[i].account, b.customers[i].username) in linked <==> MacLinked(b, i))
  }

  lemma LinkedPairs(b: Book, links: seq<Link>, linked: set<(Option<int>, string)>)
    requires WellListed(b.customers) && forall l :: l in links <==> IsMacLink(b, l)
    requires linked == set l | l in links :: (l.account, l.username)
    ensures LinkedTold(b, linked)
  {
    hide MacWins;
    forall i | 0 <= i < |b.customers|
      ensures (b.customers[i].account, b.customers[i].username) in linked <==> MacLinked(b, i)
    {
      var c := b.customers[i];
      if slot :| MacWins(b, i, slot) {
        assert IsMacLink(b, LinkFor(c, slot, ByMac));
        assert LinkFor(c, slot, ByMac) in links;
      }
      if (c.account, c.username) in linked {
        var l :| l in links && (l.account, l.username) == (c.account, c.username);
        var k :| 0 <= k < |b.customers| && MacWins(b, k, l.slot) && l == LinkFor(b.customers[k], l.slot, ByMac);
        assert k == i;
      }
    }
  }

  /** One customer of the third pass. */
  method NameOne(b: Book, linked: set<(Option<int>, string)>, slotsForName: map<string, set<Slot>>,
                 usersForName: map<string, set<string>>, i: nat, ghost fates0: seq<Fate>, links0: seq<Link>, taken0: set<Slot>)
    returns (turn: Turn, links: seq<Link>, taken: set<Slot>, ghost f: Fate)
    requires i < |b.customers| && |fates0| == i && NamesTold(b, slotsForName, usersForName) && LinkedTold(b, linked)
    requires NamePassed(b, fates0, links0, taken0)
    ensures NamePassed(b, fates0 + [f], links, taken)
    ensures turn.Won? <==> KindOf(f) == NameKind
    ensures turn.Unclear_? <==> KindOf(f) == AmbiguousKind
    ensures turn.Lost? <==> KindOf(f) == UnmatchedKind
  {
    hide MacWins, NameCandidate, NamesTold, EarlierCandidate, MacTaken;
    links, taken := links0, taken0;
    turn := TurnOf(b, i, linked, slotsForName, usersForName, taken);
    if turn.Won? {
      f := WonByName(turn.slot);
      NamePassLinks(b, fates0, links, taken, turn.slot);
      taken := taken + {turn.slot};
      links := links + [LinkFor(b.customers[i], turn.slot, ByName)];
    } else {
      if turn.Skipped? {
        ghost var slot :| MacWins(b, i, slot);
        f := WonByMac(slot);
      } else {
        f := if turn.Unclear_? then NameAmbiguous else Unmatched;
      }
      NamePassSkips(b, fates0, links, taken, f);
    }
  }

  method NamePass(b: Book, macLinks: seq<Link>, macTaken: set<Slot>, slotsForName: map<string, set<Slot>>,
                  usersForName: map<string, set<string>>)
    returns (links: seq<Link>, byName: nat, ambiguous: nat, unmatched: nat, ghost fates: seq<Fate>)
    requires WellListed(b.customers) && NamesTold(b, slotsForName, usersForName) && SlotsApart(macLinks)
    requires forall l :: l in macLinks <==> IsMacLink(b, l)
    requires forall s :: s in macTaken <==> MacTaken(b, s)
    ensures |fates| == |b.customers| && Tallied(fates, byName, ambiguous, unmatched)
    ensures exists taken :: NamePassed(b, fates, links, taken)
  {
    hide *;
    links, byName, ambiguous, unmatched, fates := macLinks, 0, 0, 0, [];
    var taken := macTaken;
    var linked := set l | l in macLinks :: (l.account, l.username);
    LinkedPairs(b, macLinks, linked);
    NameNone(b, links, taken);
    for i := 0 to |b.customers|
      invariant |fates| == i && NamePassed(b, fates, links, taken)
      invariant Tallied(fates, byName, ambiguous, unmatched)
    {
      ghost var f;
      var turn;
      turn, links, taken, f := NameOne(b, linked, slotsForName, usersForName, i, fates, links, taken);
      TallyMore(fates, f, byName, ambiguous, unmatched);
      fates := fates + [f];
      match turn {
        case Skipped =>
        case Won(_) => byName := byName + 1;
        case Unclear_ => ambiguous := ambiguous + 1;
        case Lost => unmatched := unmatched + 1;
      }
    }
  }

  lemma NameNone(b: Book, links: seq<Link>, taken: set<Slot>)
    requires (forall l :: l in links <==> IsMacLink(b, l)) && (forall s :: s in taken <==> MacTaken(b, s)) && SlotsApart(links)
    ensures NamePassed(b, [], links, taken) && Tallied([], 0, 0, 0)
  {
    hide IsMacLink, MacTaken;
  }

  lemma TallyMore(fates: seq<Fate>, f: Fate, byName: nat, ambiguous: nat, unmatched: nat)
    requires Tallied(fates, byName, ambiguous, unmatched)
    ensures Tallied(fates + [f], if KindOf(f) == NameKind then byName + 1 else byName,
                    if KindOf(f) == AmbiguousKind then ambiguous + 1 else ambiguous,
                    if KindOf(f) == UnmatchedKind then unmatched + 1 else unmatched)
  {
    CountMore(fates, f, NameKind);
    CountMore(fates, f, AmbiguousKind);
    CountMore(fates, f, UnmatchedKind);
  }

  // -------------------------------------------------------------- the result

  ghost predicate IsLink(b: Book, fates: seq<Fate>, l: Link)
    requires |fates| == |b.customers|
  {
    exists i :: 0 <= i < |fates|
                && ((fates[i] == WonByMac(l.slot) && l == LinkFor(b.customers[i], l.slot, ByMac))
                    || (fates[i] == WonByName(l.slot) && l == LinkFor(b.customers[i], l.slot, ByName)))
  }

  lemma {:induction false} CountsAddUp(fates: seq<Fate>)
    ensures Count(fates, MacKind) + Count(fates, NameKind) + Count(fates, AmbiguousKind) + Count(fates, UnmatchedKind) == |fates|
  {
    if fates != [] { CountsAddUp(fates[..|fates|-1]); }
  }

  /** The result says of every customer what became of it, and nothing else. */
  ghost predicate Tells(b: Book, res: LinkResult, fates: seq<Fate>) {
    && |fates| == |b.customers| && Fates(b, fates)
    && (forall l :: l in res.links <==> IsLink(b, fates, l))
    && SlotsApart(res.links)
    && res.byMac == Count(fates, MacKind)
    && Tallied(fates, res.byName, res.ambiguousName, res.unmatched)
    && res.byMac + res.ambiguousMac == ReachedCount(b, |b.customers|)
    && (forall s: set<Slot> :: (forall slot :: slot in s <==> RowsAt(b.macRows, slot) > 0 && Crowded(b, slot)) ==> res.crowdedSlots == |s|)
    && (forall s: set<string> :: (forall mac :: mac in s <==> Crossing(b.customers, mac)) ==> res.crossPanel == |s|)
  }

  method LinkCustomers(b: Book) returns (res: LinkResult, ghost fates: seq<Fate>)
    requires WellListed(b.customers)
    ensures Tells(b, res, fates)
    ensures SlotsApart(res.links) && res.byMac + res.byName + res.ambiguousName + res.unmatched == |b.customers|
  {
    hide Learned, Claimed, Crossing, Crowded, Named, GoesBy, IsMacLink, IsLink, MacTaken, Under, ClaimOn, ReachedCount, Count, WellListed,
         NamePassed, WantsUpTo;
    var slotsForMac, crowded := SlotsForMac(b);
    var usersForMac, crossPanel := ClaimsByMac(b.customers);
    var slotsForName := SlotsForName(b);
    var usersForName := UsersForName(b.customers);
    var order, wanted, unclear := Wanted(b, slotsForMac, usersForMac);
    var macLinks, taken, byMac, ambiguousMac := MacPass(b, order, wanted, unclear);
    var links, byName, ambiguousName, unmatched;
    links, byName, ambiguousName, unmatched, fates := NamePass(b, macLinks, taken, slotsForName, usersForName);
    res := LinkResult(links, byMac, byName, ambiguousMac, ambiguousName, unmatched, |crowded|, crossPanel);
    PassedTells(b, macLinks, links, fates);
    CountsAddUp(fates);
    forall s: set<Slot> | forall slot :: slot in s <==> RowsAt(b.macRows, slot) > 0 && Crowded(b, slot)
      ensures |crowded| == |s|
    {
      Sets.SameSize(s, crowded);
    }
  }

  lemma {:induction false} PassedTells(b: Book, macLinks: seq<Link>, links: seq<Link>, fates: seq<Fate>)
    requires |fates| == |b.customers| && exists taken :: NamePassed(b, fates, links, taken)
    requires SlotsApart(macLinks) && forall l :: l in macLinks <==> IsMacLink(b, l)
    ensures Fates(b, fates) && SlotsApart(links) && forall l :: l in links <==> IsLink(b, fates, l)
    ensures |macLinks| == Count(fates, MacKind)
  {
    hide MacTaken, EarlierCandidate, NameCandidate;
    var taken :| NamePassed(b, fates, links, taken);
    forall l ensures IsMacLink(b, l) || IsNameLink(b, fates, l) <==> IsLink(b, fates, l) {
      MacLinkFate(b, fates, l);
      AnyLink(b, fates, l);
    }
    var s := WonSlots(b, fates);
    var t := LinkSlots(macLinks);
    forall slot ensures slot in s <==> slot in t { WonIsLinked(b, fates, macLinks, slot); }
    Sets.SameSize(s, t);
  }

  ghost predicate WonBy(fates: seq<Fate>, slot: Slot) {
    exists k :: 0 <= k < |fates| && fates[k] == WonByMac(slot)
  }

  ghost predicate ByMacFate(b: Book, fates: seq<Fate>, l: Link)
    requires |fates| <= |b.customers|
  {
    exists k :: 0 <= k < |fates| && fates[k] == WonByMac(l.slot) && l == LinkFor(b.customers[k], l.slot, ByMac)
  }

  lemma AnyLink(b: Book, fates: seq<Fate>, l: Link)
    requires |fates| == |b.customers|
    ensures IsLink(b, fates, l) <==> ByMacFate(b, fates, l) || IsNameLink(b, fates, l)
  {
    hide LinkFor;
  }

  /** A MAC link and a MAC fate are the same thing. */
  lemma MacLinkFate(b: Book, fates: seq<Fate>, l: Link)
    requires |fates| == |b.customers| && Fates(b, fates)
    ensures IsMacLink(b, l) <==> ByMacFate(b, fates, l)
  {
    hide NameCandidate, LinkFor, EarlierCandidate, MacTaken, Candidate;
    if IsMacLink(b, l) {
      var i :| 0 <= i < |b.customers| && MacWins(b, i, l.slot) && l == LinkFor(b.customers[i], l.slot, ByMac);
      FateOfWinner(b, fates, i, l.slot);
    }
    if ByMacFate(b, fates, l) {
      var k :| 0 <= k < |fates| && fates[k] == WonByMac(l.slot) && l == LinkFor(b.customers[k], l.slot, ByMac);
      assert Fated(b, k, fates[k]);
    }
  }

  lemma WinsOne(b: Book, i: int, s: Slot, t: Slot)
    requires MacWins(b, i, s) && MacWins(b, i, t)
    ensures s == t
  {}

  lemma FateOfWinner(b: Book, fates: seq<Fate>, i: int, slot: Slot)
    requires |fates| == |b.customers| && Fates(b, fates) && 0 <= i < |fates| && MacWins(b, i, slot)
    ensures fates[i] == WonByMac(slot)
  {
    hide MacWins;
    assert MacLinked(b, i) && Fated(b, i, fates[i]);
    if fates[i].WonByMac? { WinsOne(b, i, slot, fates[i].slot); }
  }

  lemma WonIsLinked(b: Book, fates: seq<Fate>, macLinks: seq<Link>, slot: Slot)
    requires |fates| == |b.customers| && Fates(b, fates) && forall l :: l in macLinks <==> IsMacLink(b, l)
    ensures WonBy(fates, slot) <==> exists l :: l in macLinks && l.slot == slot
  {
    hide Fates, MacWins;
    if WonBy(fates, slot) {
      var k :| 0 <= k < |fates| && fates[k] == WonByMac(slot);
      var l := LinkFor(b.customers[k], slot, ByMac);
      assert ByMacFate(b, fates, l);
      MacLinkFate(b, fates, l);
    }
    if l :| l in macLinks && l.slot == slot {
      MacLinkFate(b, fates, l);
    }
  }

  lemma {:induction false} WonSlots(b: Book, fates: seq<Fate>) returns (s: set<Slot>)
    requires Fates(b, fates)
    ensures |s| == Count(fates, MacKind) && forall slot :: slot in s <==> WonBy(fates, slot)
  {
    hide Candidate, NameCandidate, EarlierCandidate, MacTaken;
    if fates == [] {
      s := {};
    } else {
      var n := |fates| - 1;
      assert Fates(b, fates[..n]);
      s := WonSlots(b, fates[..n]);
      forall slot ensures WonBy(fates, slot) <==> WonBy(fates[..n], slot) || fates[n] == WonByMac(slot) {
        WonByMore(fates, n, slot);
      }
      if fates[n].WonByMac? {
        var slot := fates[n].slot;
        assert Fated(b, n, fates[n]);
        forall k | 0 <= k < n ensures fates[..n][k] != WonByMac(slot) {
          assert Fated(b, k, fates[k]);
        }
        assert slot !in s;
        s := s + {slot};
      }
    }
  }

  lemma WonByMore(fates: seq<Fate>, n: nat, slot: Slot)
    requires n + 1 == |fates|
    ensures WonBy(fates, slot) <==> WonBy(fates[..n], slot) || fates[n] == WonByMac(slot)
  {
    if WonBy(fates[..n], slot) {
      var k :| 0 <= k < n && fates[..n][k] == WonByMac(slot);
      assert fates[k] == WonByMac(slot);
    }
    if WonBy(fates, slot) {
      var k :| 0 <= k < |fates| && fates[k] == WonByMac(slot);
      assert k < n ==> fates[..n][k] == WonByMac(slot);
    }
  }

  lemma {:induction false} LinkSlots(links: seq<Link>) returns (s: set<Slot>)
    requires SlotsApart(links)
    ensures |s| == |links| && forall slot :: slot in s <==> exists l :: l in links && l.slot == slot
  {
    if links == [] {
      s := {};
    } else {
      var n := |links| - 1;
      s := LinkSlots(links[..n]);
      assert links == links[..n] + [links[n]];
      forall l | l in links[..n] ensures l.slot != links[n].slot {
        var k :| 0 <= k < n && links[k] == l;
      }
      s := s + {links[n].slot};
    }
  }
}
