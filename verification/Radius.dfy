/**
 `link_customers` of radius.py: pairing RADIUS customers with ONU slots, by MAC first and by
 name second, and refusing whatever is ambiguous. Customers are named by their position in
 the list; MACs and search keys are given in their normal form, absent when empty.
 */
module Radius {
  import opened Options
  import Sets

  datatype Slot = Slot(device: int, onu: string)

  datatype Customer = Customer(account: Option<int>, username: string, mac: Option<string>, key: Option<string>)

  datatype MacRow = MacRow(slot: Slot, mac: Option<string>)

  datatype OnuRow = OnuRow(slot: Slot, key: Option<string>)

  datatype Book = Book(customers: seq<Customer>, macRows: seq<MacRow>, onuRows: seq<OnuRow>, most: int)

  datatype Match = ByMac | ByName

  datatype Link = Link(slot: Slot, username: string, match_: Match, account: Option<int>)

  datatype LinkResult = LinkResult(links: seq<Link>, byMac: nat, byName: nat, ambiguousMac: nat, ambiguousName: nat,
                                   unmatched: nat, crowdedSlots: nat, crossPanel: nat)

  /** A username is listed once in a panel, and names have one search key each. */
  ghost predicate WellListed(customers: seq<Customer>) {
    && (forall i, k :: 0 <= i < k < |customers| ==>
          !(customers[i].account == customers[k].account && customers[i].username == customers[k].username))
    && (forall i, k :: 0 <= i < k < |customers| && customers[i].username == customers[k].username ==>
          customers[i].key == customers[k].key)
  }

  // ---------------------------------------------------------------- by MAC

  function RowsAt(rows: seq<MacRow>, slot: Slot): nat {
    if rows == [] then 0 else RowsAt(rows[..|rows|-1], slot) + (if rows[|rows|-1].slot == slot then 1 else 0)
  }

  ghost predicate Crowded(b: Book, slot: Slot) {
    RowsAt(b.macRows, slot) > b.most
  }

  /** `mac` was learned on `slot`, which is not crowded. */
  ghost predicate Learned(b: Book, mac: string, slot: Slot) {
    MacRow(slot, Some(mac)) in b.macRows && !Crowded(b, slot)
  }

  ghost predicate LearnedOnly(b: Book, mac: string, slot: Slot) {
    Learned(b, mac, slot) && forall s :: Learned(b, mac, s) ==> s == slot
  }

  predicate Has(customers: seq<Customer>, i: int, mac: string) {
    0 <= i < |customers| && customers[i].mac == Some(mac)
  }

  /** The first listed customer with the MAC; its panel is the one whose claim is heard. */
  function FirstWith(customers: seq<Customer>, mac: string): (i: nat)
    ensures i <= |customers| && (i < |customers| ==> Has(customers, i, mac))
    ensures forall k :: 0 <= k < i ==> customers[k].mac != Some(mac)
  {
    if customers == [] || customers[0].mac == Some(mac) then 0 else FirstWith(customers[1..], mac) + 1
  }

  /** Everyone with the MAC in the panel that lists it first goes by `user`. */
  ghost predicate Claimed(customers: seq<Customer>, mac: string, user: string) {
    var f := FirstWith(customers, mac);
    f < |customers|
    && forall k :: Has(customers, k, mac) && customers[k].account == customers[f].account ==> customers[k].username == user
  }

  ghost predicate Candidate(b: Book, i: int, slot: Slot) {
    && 0 <= i < |b.customers| && b.customers[i].mac.Some?
    && LearnedOnly(b, b.customers[i].mac.value, slot)
    && Claimed(b.customers, b.customers[i].mac.value, b.customers[i].username)
  }

  /** The customer wins the slot by MAC: it is a candidate for it, and the only one. */
  ghost predicate MacWins(b: Book, i: int, slot: Slot) {
    Candidate(b, i, slot) && forall k :: Candidate(b, k, slot) ==> k == i
  }

  ghost predicate MacLinked(b: Book, i: int) {
    exists slot :: MacWins(b, i, slot)
  }

  ghost predicate MacTaken(b: Book, slot: Slot) {
    exists i :: MacWins(b, i, slot)
  }

  // --------------------------------------------------------------- by name

  ghost predicate Named(b: Book, key: string, slot: Slot) {
    OnuRow(slot, Some(key)) in b.onuRows
  }

  ghost predicate NamedOnly(b: Book, key: string, slot: Slot) {
    Named(b, key, slot) && forall s :: Named(b, key, s) ==> s == slot
  }

  predicate Keyed(customers: seq<Customer>, i: int, key: string) {
    0 <= i < |customers| && customers[i].key == Some(key)
  }

  ghost predicate OneUser(customers: seq<Customer>, key: string) {
    forall i, k :: Keyed(customers, i, key) && Keyed(customers, k, key) ==> customers[i].username == customers[k].username
  }

  /** The customer has no slot by MAC, and its name points at this slot and nobody else's name does. */
  ghost predicate NameCandidate(b: Book, i: int, slot: Slot) {
    && 0 <= i < |b.customers| && !MacLinked(b, i) && b.customers[i].key.Some?
    && NamedOnly(b, b.customers[i].key.value, slot)
    && OneUser(b.customers, b.customers[i].key.value)
  }

  ghost predicate HasNamesake(b: Book, i: int)
    requires 0 <= i < |b.customers|
  {
    b.customers[i].key.Some? && exists slot :: Named(b, b.customers[i].key.value, slot)
  }

  ghost predicate EarlierCandidate(b: Book, i: int, slot: Slot) {
    exists k :: 0 <= k < i && NameCandidate(b, k, slot)
  }

  // ----------------------------------------------------------------- fates

  /** What becomes of a customer. */
  datatype Fate = WonByMac(slot: Slot) | WonByName(slot: Slot) | NameAmbiguous | Unmatched

  ghost predicate Fated(b: Book, i: int, f: Fate)
    requires 0 <= i < |b.customers|
  {
    match f
    case WonByMac(slot) => MacWins(b, i, slot)
    case WonByName(slot) => NameCandidate(b, i, slot) && !MacTaken(b, slot) && !EarlierCandidate(b, i, slot)
    case NameAmbiguous => !MacLinked(b, i) && HasNamesake(b, i) && !exists slot :: NameCandidate(b, i, slot)
    case Unmatched =>
      && !MacLinked(b, i)
      && (!HasNamesake(b, i) || exists slot :: NameCandidate(b, i, slot) && (MacTaken(b, slot) || EarlierCandidate(b, i, slot)))
  }

  // ----------------------------------------------------- the dictionaries

  function Under<K, V>(m: map<K, set<V>>, k: K): set<V> {
    if k in m then m[k] else {}
  }

  /** `setdefault(k, set()).add(v)`. */
  function Put<K, V>(m: map<K, set<V>>, k: K, v: V): map<K, set<V>> {
    m[k := Under(m, k) + {v}]
  }

  lemma PutAdds<K, V>(m: map<K, set<V>>, k: K, v: V)
    ensures forall j, x :: x in Under(Put(m, k, v), j) <==> x in Under(m, j) || (j == k && x == v)
  {}

  method CountRows(rows: seq<MacRow>) returns (perSlot: map<Slot, nat>)
    ensures forall s :: RowsAt(rows, s) == (if s in perSlot then perSlot[s] else 0)
    ensures forall s :: s in perSlot <==> RowsAt(rows, s) > 0
  {
    perSlot := map[];
    for i := 0 to |rows|
      invariant forall s :: RowsAt(rows[..i], s) == (if s in perSlot then perSlot[s] else 0)
      invariant forall s :: s in perSlot <==> RowsAt(rows[..i], s) > 0
    {
      assert rows[..i+1][..i] == rows[..i];
      var slot := rows[i].slot;
      perSlot := perSlot[slot := (if slot in perSlot then perSlot[slot] else 0) + 1];
    }
    assert rows[..|rows|] == rows;
  }

  ghost predicate LearnedBy(b: Book, n: nat, mac: string, slot: Slot)
    requires n <= |b.macRows|
  {
    MacRow(slot, Some(mac)) in b.macRows[..n] && !Crowded(b, slot)
  }

  lemma LearnedMore(b: Book, n: nat)
    requires n < |b.macRows|
    ensures forall mac, s :: LearnedBy(b, n + 1, mac, s)
              <==> LearnedBy(b, n, mac, s) || (b.macRows[n] == MacRow(s, Some(mac)) && !Crowded(b, s))
  {
    assert b.macRows[..n+1] == b.macRows[..n] + [b.macRows[n]];
  }

  method SlotsForMac(b: Book) returns (slots: map<string, set<Slot>>, crowded: set<Slot>)
    ensures forall s :: s in crowded <==> RowsAt(b.macRows, s) > 0 && Crowded(b, s)
    ensures forall mac, s :: s in Under(slots, mac) <==> Learned(b, mac, s)
  {
    var perSlot := CountRows(b.macRows);
    crowded := set s | s in perSlot && perSlot[s] > b.most;
    slots := map[];
    for i := 0 to |b.macRows|
      invariant forall mac, s :: s in Under(slots, mac) <==> LearnedBy(b, i, mac, s)
    {
      hide Under, Put, Crowded, LearnedBy;
      var row := b.macRows[i];
      RowCounts(b.macRows, i);
      LearnedMore(b, i);
      if row.mac.Some? && row.slot !in crowded {
        PutAdds(slots, row.mac.value, row.slot);
        slots := Put(slots, row.mac.value, row.slot);
      }
    }
    assert b.macRows[..|b.macRows|] == b.macRows;
  }

  lemma {:induction false} RowCounts(rows: seq<MacRow>, i: nat)
    requires i < |rows|
    ensures RowsAt(rows, rows[i].slot) > 0
  {
    if i < |rows| - 1 { RowCounts(rows[..|rows|-1], i); }
  }

  method SlotsForName(b: Book) returns (slots: map<string, set<Slot>>)
    ensures forall key, s :: s in Under(slots, key) <==> Named(b, key, s)
  {
    slots := map[];
    for i := 0 to |b.onuRows|
      invariant forall key, s :: s in Under(slots, key) <==> OnuRow(s, Some(key)) in b.onuRows[..i]
    {
      assert b.onuRows[..i+1] == b.onuRows[..i] + [b.onuRows[i]];
      var row := b.onuRows[i];
      if row.key.Some? {
        PutAdds(slots, row.key.value, row.slot);
        slots := Put(slots, row.key.value, row.slot);
      }
    }
    assert b.onuRows[..|b.onuRows|] == b.onuRows;
  }

  ghost predicate GoesBy(customers: seq<Customer>, key: string, user: string) {
    exists i :: Keyed(customers, i, key) && customers[i].username == user
  }

  lemma GoesByMore(customers: seq<Customer>, i: nat)
    requires i < |customers|
    ensures forall key, u :: GoesBy(customers[..i+1], key, u)
              <==> GoesBy(customers[..i], key, u) || (customers[i].key == Some(key) && customers[i].username == u)
  {
    forall key, u
      ensures GoesBy(customers[..i+1], key, u)
              <==> GoesBy(customers[..i], key, u) || (customers[i].key == Some(key) && customers[i].username == u)
    {
      if k :| Keyed(customers[..i], k, key) && customers[..i][k].username == u { assert Keyed(customers[..i+1], k, key); }
      if GoesBy(customers[..i+1], key, u) {
        var k :| Keyed(customers[..i+1], k, key) && customers[..i+1][k].username == u;
        assert k < i ==> Keyed(customers[..i], k, key);
      }
      if customers[i].key == Some(key) && customers[i].username == u { assert Keyed(customers[..i+1], i, key); }
    }
  }

  method UsersForName(customers: seq<Customer>) returns (users: map<string, set<string>>)
    ensures forall key, u :: u in Under(users, key) <==> GoesBy(customers, key, u)
  {
    users := map[];
    for i := 0 to |customers|
      invariant forall key, u :: u in Under(users, key) <==> GoesBy(customers[..i], key, u)
    {
      hide Under, Put, GoesBy;
      var c := customers[i];
      GoesByMore(customers, i);
      if c.key.Some? {
        PutAdds(users, c.key.value, c.username);
        users := Put(users, c.key.value, c.username);
      }
    }
    assert customers[..|customers|] == customers;
  }

  /** `_sole`: the element of a set of one. */
  method Sole<T>(s: set<T>) returns (x: Option<T>)
    ensures forall y :: x == Some(y) <==> y in s && forall z :: z in s ==> z == y
  {
    if |s| == 1 {
      var y := Sets.Any(s);
      Sets.Only(s, y);
      x := Some(y);
    } else {
      x := None;
      forall y ensures !(y in s && forall z :: z in s ==> z == y) {
        if y in s && forall z :: z in s ==> z == y { Sets.Single(s, y); }
      }
    }
  }

  // --------------------------------------------------------------- claims

  type Row = (Option<int>, string)

  /** Who has the MAC, in listing order. */
  function RowsOf(customers: seq<Customer>, mac: string): seq<Row> {
    if customers == [] then []
    else
      var c := customers[|customers|-1];
      RowsOf(customers[..|customers|-1], mac) + (if c.mac == Some(mac) then [(c.account, c.username)] else [])
  }

  ghost predicate HasRow(customers: seq<Customer>, mac: string, r: Row) {
    exists k :: Has(customers, k, mac) && r == (customers[k].account, customers[k].username)
  }

  lemma {:induction false} FirstWithSnoc(customers: seq<Customer>, mac: string, n: nat)
    requires n + 1 == |customers|
    ensures FirstWith(customers, mac)
            == (if FirstWith(customers[..n], mac) < n then FirstWith(customers[..n], mac)
                else if customers[n].mac == Some(mac) then n else n + 1)
  {
    var f, g := FirstWith(customers, mac), FirstWith(customers[..n], mac);
    assert forall k :: 0 <= k < n ==> customers[..n][k] == customers[k];
  }

  lemma {:induction false} RowsOfMeaning(customers: seq<Customer>, mac: string)
    ensures forall r :: r in RowsOf(customers, mac) <==> HasRow(customers, mac, r)
    ensures
      var f := FirstWith(customers, mac);
      if f < |customers| then RowsOf(customers, mac) != [] && RowsOf(customers, mac)[0] == (customers[f].account, customers[f].username)
      else RowsOf(customers, mac) == []
  {
    if customers != [] {
      var n := |customers| - 1;
      var init, c := customers[..n], customers[n];
      RowsOfMeaning(init, mac);
      FirstWithSnoc(customers, mac, n);
      forall r ensures r in RowsOf(customers, mac) <==> HasRow(customers, mac, r) {
        HasRowSnoc(customers, mac, n, r);
      }
    }
  }

  lemma HasRowSnoc(customers: seq<Customer>, mac: string, n: nat, r: Row)
    requires n + 1 == |customers|
    ensures HasRow(customers, mac, r)
            <==> HasRow(customers[..n], mac, r)
                 || (customers[n].mac == Some(mac) && r == (customers[n].account, customers[n].username))
  {
    if HasRow(customers[..n], mac, r) {
      var k :| Has(customers[..n], k, mac) && r == (customers[..n][k].account, customers[..n][k].username);
      assert Has(customers, k, mac);
    }
    if customers[n].mac == Some(mac) { assert Has(customers, n, mac); }
    if HasRow(customers, mac, r) {
      var k :| Has(customers, k, mac) && r == (customers[k].account, customers[k].username);
      assert k < n ==> Has(customers[..n], k, mac);
    }
  }

  /** Some customer with the MAC is listed in another panel than the first. */
  ghost predicate Crossing(customers: seq<Customer>, mac: string) {
    exists k :: Has(customers, k, mac) && customers[k].account != customers[FirstWith(customers, mac)].account
  }

  /** One MAC's rows: the sole claimant in the first panel listing it, and whether another panel lists it too. */
  method Claim(rows: seq<Row>) returns (user: Option<string>, cross: bool)
    requires rows != []
    ensures forall u :: user == Some(u) <==> forall r :: r in rows && r.0 == rows[0].0 ==> r.1 == u
    ensures cross <==> exists r :: r in rows && r.0 != rows[0].0
  {
    var first := rows[0].0;
    var mine: seq<string> := [];
    for i := 0 to |rows|
      invariant |mine| <= i && (|mine| == i <==> forall k :: 0 <= k < i ==> rows[k].0 == first)
      invariant i > 0 ==> mine != [] && mine[0] == rows[0].1
      invariant forall u :: u in mine <==> (first, u) in rows[..i]
    {
      assert rows[..i+1] == rows[..i] + [rows[i]];
      if rows[i].0 == first { mine := mine + [rows[i].1]; }
    }
    assert rows[..|rows|] == rows;
    cross := |mine| != |rows|;
    var names := set u | u in mine;
    var sole := Sole(names);
    user := sole;
    assert mine[0] in names;
    forall u ensures user == Some(u) <==> forall r :: r in rows && r.0 == rows[0].0 ==> r.1 == u {
      assert forall r :: r in rows && r.0 == first <==> r.0 == first && r.1 in names;
      assert rows[0] in rows;
      assert (forall v :: v in names ==> v == u) <==> (forall r :: r in rows && r.0 == first ==> r.1 == u) by {
        forall v | v in names ensures (first, v) in rows {}
      }
    }
  }

  function ClaimOn(claims: map<string, Option<string>>, mac: string): Option<string> {
    if mac in claims then claims[mac] else None
  }

  function RowsUnder(ordered: map<string, seq<Row>>, mac: string): seq<Row> {
    if mac in ordered then ordered[mac] else []
  }

  method RowsByMac(customers: seq<Customer>) returns (ordered: map<string, seq<Row>>)
    ensures forall mac :: RowsUnder(ordered, mac) == RowsOf(customers, mac)
    ensures forall mac :: mac in ordered <==> RowsOf(customers, mac) != []
  {
    ordered := map[];
    for i := 0 to |customers|
      invariant forall mac :: RowsUnder(ordered, mac) == RowsOf(customers[..i], mac)
      invariant forall mac :: mac in ordered <==> RowsOf(customers[..i], mac) != []
    {
      assert customers[..i+1][..i] == customers[..i];
      var c := customers[i];
      if c.mac.Some? {
        ordered := ordered[c.mac.value := RowsUnder(ordered, c.mac.value) + [(c.account, c.username)]];
      }
    }
    assert customers[..|customers|] == customers;
  }

  lemma {:induction false} RowsClaim(customers: seq<Customer>, mac: string)
    requires RowsOf(customers, mac) != []
    ensures
      var rows := RowsOf(customers, mac);
      && (forall u :: Claimed(customers, mac, u) <==> forall r :: r in rows && r.0 == rows[0].0 ==> r.1 == u)
      && (Crossing(customers, mac) <==> exists r :: r in rows && r.0 != rows[0].0)
  {
    RowsOfMeaning(customers, mac);
    var rows, f := RowsOf(customers, mac), FirstWith(customers, mac);
    forall k | Has(customers, k, mac) ensures (customers[k].account, customers[k].username) in rows {
      assert HasRow(customers, mac, (customers[k].account, customers[k].username));
    }
    forall u ensures Claimed(customers, mac, u) <==> forall r :: r in rows && r.0 == rows[0].0 ==> r.1 == u {
      if Claimed(customers, mac, u) {
        forall r | r in rows && r.0 == rows[0].0 ensures r.1 == u {
          var k :| Has(customers, k, mac) && r == (customers[k].account, customers[k].username);
        }
      }
    }
    if r :| r in rows && r.0 != rows[0].0 {
      var k :| Has(customers, k, mac) && r == (customers[k].account, customers[k].username);
      assert Has(customers, k, mac) && customers[k].account != customers[f].account;
    }
  }

  lemma {:induction false} NoRowsNoClaim(customers: seq<Customer>, mac: string)
    requires RowsOf(customers, mac) == []
    ensures !Crossing(customers, mac) && forall u :: !Claimed(customers, mac, u)
  {
    RowsOfMeaning(customers, mac);
  }

  ghost predicate ClaimsTold(customers: seq<Customer>, done: set<string>, claims: map<string, Option<string>>,
                             cross: nat, crossing: set<string>)
  {
    && (forall mac, u :: ClaimOn(claims, mac) == Some(u) <==> mac in done && Claimed(customers, mac, u))
    && (forall mac :: mac in crossing <==> mac in done && Crossing(customers, mac))
    && cross == |crossing|
  }

  lemma TellClaim(customers: seq<Customer>, done: set<string>, claims: map<string, Option<string>>, cross: nat,
                  crossing: set<string>, mac: string, user: Option<string>, crosses: bool)
    requires ClaimsTold(customers, done, claims, cross, crossing) && mac !in done
    requires forall u :: user == Some(u) <==> Claimed(customers, mac, u)
    requires crosses <==> Crossing(customers, mac)
    ensures ClaimsTold(customers, done + {mac}, claims[mac := user], if crosses then cross + 1 else cross,
                       if crosses then crossing + {mac} else crossing)
  {
    hide Claimed, Crossing;
  }

  lemma {:induction false} ClaimsAllTold(customers: seq<Customer>, done: set<string>, claims: map<string, Option<string>>,
                      cross: nat, crossing: set<string>)
    requires ClaimsTold(customers, done, claims, cross, crossing)
    requires forall mac :: mac in done <==> RowsOf(customers, mac) != []
    ensures forall mac, u :: ClaimOn(claims, mac) == Some(u) <==> Claimed(customers, mac, u)
    ensures forall s: set<string> :: (forall mac :: mac in s <==> Crossing(customers, mac)) ==> cross == |s|
  {
    hide Claimed, Crossing, RowsOf;
    forall mac ensures mac !in done ==> !Crossing(customers, mac) && forall u :: !Claimed(customers, mac, u) {
      if mac !in done { NoRowsNoClaim(customers, mac); }
    }
    forall s: set<string> | forall mac :: mac in s <==> Crossing(customers, mac) ensures cross == |s| {
      Sets.SameSize(s, crossing);
    }
  }

  /** `_claims_by_mac`: who holds each MAC, and how many MACs are listed by more than one panel. */
  method ClaimsByMac(customers: seq<Customer>) returns (claims: map<string, Option<string>>, cross: nat)
    ensures forall mac, u :: ClaimOn(claims, mac) == Some(u) <==> Claimed(customers, mac, u)
    ensures forall s: set<string> :: (forall mac :: mac in s <==> Crossing(customers, mac)) ==> cross == |s|
  {
    hide Claimed, Crossing, RowsOf;
    var ordered := RowsByMac(customers);
    claims, cross := map[], 0;
    var left := ordered.Keys;
    ghost var done: set<string>, crossing: set<string> := {}, {};
    assert ClaimsTold(customers, done, claims, cross, crossing);
    hide ClaimsTold;
    while left != {}
      invariant Sets.Split(ordered.Keys, done, left)
      invariant ClaimsTold(customers, done, claims, cross, crossing)
      decreases left
    {
      var mac := Sets.Any(left);
      Sets.VisitOne(ordered.Keys, done, left, mac);
      RowsClaim(customers, mac);
      assert ordered[mac] == RowsUnder(ordered, mac);
      var user, crosses := Claim(ordered[mac]);
      TellClaim(customers, done, claims, cross, crossing, mac, user, crosses);
      left := left - {mac};
      done := done + {mac};
      claims := claims[mac := user];
      cross, crossing := if crosses then cross + 1 else cross, if crosses then crossing + {mac} else crossing;
    }
    ClaimsAllTold(customers, done, claims, cross, crossing);
  }
}
