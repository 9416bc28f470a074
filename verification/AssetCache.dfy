/**
 `AssetCache` of proxy.py: a cache bounded in entries and bytes that forgets its oldest
 entries first, with a time to live. The dictionary is its rows in insertion order.
 */
module AssetCache {
  import opened Options

  type Byte = bv8

  datatype Reply = Reply(status: int, pairs: seq<(string, string)>, body: seq<Byte>)

  datatype Row = Row(key: string, expires: real, reply: Reply)

  datatype Limits = Limits(maxEntries: nat, maxBytes: nat, ttl: real)

  function Max0(n: int): nat {
    if n < 0 then 0 else n
  }

  function Size(rows: seq<Row>): nat {
    if rows == [] then 0 else |rows[0].reply.body| + Size(rows[1..])
  }

  predicate Distinct(rows: seq<Row>) {
    forall i, k :: 0 <= i < k < |rows| ==> rows[i].key != rows[k].key
  }

  /** Where a key is listed; the number of rows when it is not. */
  function Find(rows: seq<Row>, key: string): (i: nat)
    ensures i <= |rows| && (i < |rows| ==> rows[i].key == key)
    ensures forall k :: 0 <= k < i ==> rows[k].key != key
  {
    if rows == [] || rows[0].key == key then 0 else Find(rows[1..], key) + 1
  }

  function Without(rows: seq<Row>, key: string): seq<Row> {
    var i := Find(rows, key);
    if i < |rows| then rows[..i] + rows[i+1..] else rows
  }

  predicate Within(lim: Limits, rows: seq<Row>) {
    |rows| <= lim.maxEntries && Size(rows) <= lim.maxBytes
  }

  /** The rows left once the oldest are dropped until the limits hold or one row is left. */
  function Evict(lim: Limits, rows: seq<Row>): seq<Row> {
    if !Within(lim, rows) && |rows| > 1 then Evict(lim, rows[1..]) else rows
  }

  predicate Admits(lim: Limits, reply: Reply) {
    lim.maxEntries != 0 && |reply.body| <= lim.maxBytes
  }

  function Stored(lim: Limits, rows: seq<Row>, key: string, reply: Reply, now: real): seq<Row> {
    if Admits(lim, reply) then Evict(lim, Without(rows, key) + [Row(key, now + lim.ttl, reply)]) else rows
  }

  function Answer(rows: seq<Row>, key: string, now: real): Option<Reply> {
    var i := Find(rows, key);
    if i < |rows| && rows[i].expires > now then Some(rows[i].reply) else None
  }

  /** An expired row is dropped when it is asked for. */
  function Asked(rows: seq<Row>, key: string, now: real): seq<Row> {
    if Answer(rows, key, now).None? then Without(rows, key) else rows
  }

  class AssetCache {
    const lim: Limits
    var rows: seq<Row>
    var bytes: int
    var hits: nat
    var misses: nat

    constructor (maxEntries: int, maxBytes: int, ttl: real)
      ensures Valid() && rows == [] && hits == 0 && misses == 0 && lim == Limits(Max0(maxEntries), Max0(maxBytes), ttl)
    {
      lim := Limits(Max0(maxEntries), Max0(maxBytes), ttl);
      rows, bytes, hits, misses := [], 0, 0, 0;
    }

    /** The byte count is that of the stored bodies, and both limits hold. */
    predicate Valid()
      reads this
    {
      Distinct(rows) && bytes == Size(rows) && Within(lim, rows)
    }

    method Lookup(key: string) returns (i: nat)
      ensures i == Find(rows, key)
    {
      i := 0;
      while i < |rows| && rows[i].key != key
        invariant i <= |rows| && forall k :: 0 <= k < i ==> rows[k].key != key
      {
        i := i + 1;
      }
    }

    method Get(key: string, now: real) returns (reply: Option<Reply>)
      requires Valid()
      modifies this
      ensures Valid() && rows == Asked(old(rows), key, now) && reply == Answer(old(rows), key, now)
      ensures hits == old(hits) + (if reply.Some? then 1 else 0) && misses == old(misses) + (if reply.Some? then 0 else 1)
    {
      hide Size, Distinct;
      var i := Lookup(key);
      if i == |rows| {
        misses := misses + 1;
        return None;
      }
      var row := rows[i];
      if row.expires <= now {
        Drop(i);
        misses := misses + 1;
        return None;
      }
      hits := hits + 1;
      reply := Some(row.reply);
    }

    /** Removes one row, and its bytes from the count. */
    method Drop(i: nat)
      requires i < |rows| && Distinct(rows) && bytes == Size(rows)
      modifies `rows, `bytes
      ensures rows == old(rows[..i] + rows[i+1..]) && Distinct(rows) && bytes == Size(rows)
      ensures Size(rows) <= old(Size(rows)) && |rows| + 1 == |old(rows)|
    {
      SizeCut(rows, i);
      bytes := bytes - |rows[i].reply.body|;
      rows := rows[..i] + rows[i+1..];
    }

    method Put(key: string, reply: Reply, now: real)
      requires Valid()
      modifies this
      ensures Valid() && rows == Stored(lim, old(rows), key, reply, now)
      ensures hits == old(hits) && misses == old(misses)
    {
      StoredIs(lim, rows, key, reply, now);
      StoredStays(lim, rows, key, reply, now);
      if lim.maxEntries == 0 || |reply.body| > lim.maxBytes {
        return;
      }
      hide *;
      Replace(Row(key, now + lim.ttl, reply));
      EvictOldest();
    }

    /** The key's row, if any, gives way to a new one at the end. */
    method Replace(row: Row)
      requires Distinct(rows) && bytes == Size(rows)
      modifies `rows, `bytes
      ensures rows == Without(old(rows), row.key) + [row] && Distinct(rows) && bytes == Size(rows)
    {
      hide Size, Distinct;
      WithoutHas(rows, row.key);
      var i := Lookup(row.key);
      if i < |rows| {
        Drop(i);
      }
      AddRow(rows, row);
      rows := rows + [row];
      bytes := bytes + |row.reply.body|;
    }

    method EvictOldest()
      requires Distinct(rows) && bytes == Size(rows)
      modifies `rows, `bytes
      ensures rows == Evict(lim, old(rows)) && Distinct(rows) && bytes == Size(rows)
    {
      while (|rows| > lim.maxEntries || bytes > lim.maxBytes) && |rows| > 1
        invariant Distinct(rows) && bytes == Size(rows)
        invariant Evict(lim, old(rows)) == Evict(lim, rows)
        decreases |rows|
      {
        bytes := bytes - |rows[0].reply.body|;
        rows := rows[1..];
      }
    }
  }

  lemma {:induction false} StoredIs(lim: Limits, rows: seq<Row>, key: string, reply: Reply, now: real)
    ensures !Admits(lim, reply) ==> Stored(lim, rows, key, reply, now) == rows
    ensures Admits(lim, reply) ==> Stored(lim, rows, key, reply, now) == Evict(lim, Without(rows, key) + [Row(key, now + lim.ttl, reply)])
  {}

  lemma {:induction false} AddRow(rows: seq<Row>, row: Row)
    requires Distinct(rows) && forall r :: r in rows ==> r.key != row.key
    ensures Distinct(rows + [row]) && Size(rows + [row]) == Size(rows) + |row.reply.body|
  {
    SizeSnoc(rows, row);
    assert forall k :: 0 <= k < |rows| ==> rows[k] in rows;
  }

  lemma {:induction false} SizeCut(rows: seq<Row>, i: nat)
    requires i < |rows|
    ensures Size(rows) == Size(rows[..i] + rows[i+1..]) + |rows[i].reply.body|
  {
    var rest := rows[..i] + rows[i+1..];
    if i == 0 {
      assert rest == rows[1..];
    } else {
      SizeCut(rows[1..], i - 1);
      assert rest[1..] == rows[1..][..i-1] + rows[1..][i..];
    }
  }

  lemma {:induction false} SizeSnoc(rows: seq<Row>, r: Row)
    ensures Size(rows + [r]) == Size(rows) + |r.reply.body|
  {
    if rows == [] {
      assert rows + [r] == [r];
    } else {
      assert (rows + [r])[1..] == rows[1..] + [r];
      SizeSnoc(rows[1..], r);
    }
  }

  lemma WithoutHas(rows: seq<Row>, key: string)
    requires Distinct(rows)
    ensures Distinct(Without(rows, key))
    ensures forall r :: r in Without(rows, key) <==> r in rows && r.key != key
  {
    var i := Find(rows, key);
    if i < |rows| {
      forall r | r in rows && r.key != key ensures r in rows[..i] + rows[i+1..] {
        var k :| 0 <= k < |rows| && rows[k] == r;
        assert k < i ==> rows[..i][k] == r;
        assert k > i ==> rows[i+1..][k-i-1] == r;
      }
    }
  }

  // ------------------------------------------------------------------- runs

  datatype Op = Put(key: string, reply: Reply, now: real) | Get(key: string, now: real)

  function Step(lim: Limits, rows: seq<Row>, op: Op): seq<Row> {
    match op
    case Put(key, reply, now) => Stored(lim, rows, key, reply, now)
    case Get(key, now) => Asked(rows, key, now)
  }

  function Run(lim: Limits, ops: seq<Op>): seq<Row> {
    if ops == [] then [] else Step(lim, Run(lim, ops[..|ops|-1]), ops[|ops|-1])
  }

  /** The plain map: the last thing put under a key. */
  function LastPut(ops: seq<Op>, key: string): Option<Op> {
    if ops == [] then None
    else if ops[|ops|-1].Put? && ops[|ops|-1].key == key then Some(ops[|ops|-1])
    else LastPut(ops[..|ops|-1], key)
  }

  /** The last thing put under a key that the limits let in. */
  function LastAdmitted(lim: Limits, ops: seq<Op>, key: string): Option<Op> {
    if ops == [] then None
    else if ops[|ops|-1].Put? && ops[|ops|-1].key == key && Admits(lim, ops[|ops|-1].reply) then Some(ops[|ops|-1])
    else LastAdmitted(lim, ops[..|ops|-1], key)
  }

  /** Eviction stops at the newest row at the latest, and the limits hold if that row is within them. */
  lemma {:induction false} EvictHolds(lim: Limits, rows: seq<Row>)
    requires rows != []
    ensures
      var left, newest := Evict(lim, rows), rows[|rows|-1];
      && left != [] && left[|left|-1] == newest
      && (Admits(lim, newest.reply) ==> Within(lim, left))
  {
    if !Within(lim, rows) && |rows| > 1 {
      EvictHolds(lim, rows[1..]);
    } else {
      OneRowSize(rows);
    }
  }

  /** No more is dropped than need be: one row fewer dropped, and a limit is still broken. */
  lemma {:induction false} EvictLeast(lim: Limits, rows: seq<Row>) returns (n: nat)
    ensures n <= |rows| && Evict(lim, rows) == rows[n..]
    ensures forall m :: 0 <= m < n ==> !Within(lim, rows[m..])
  {
    hide Within;
    n := 0;
    assert rows[0..] == rows;
    if !Within(lim, rows) && |rows| > 1 {
      var fewer := EvictLeast(lim, rows[1..]);
      n := fewer + 1;
      forall m | 0 <= m < n ensures !Within(lim, rows[m..]) {
        assert m > 0 ==> rows[1..][m-1..] == rows[m..];
      }
    }
  }

  lemma {:induction false} EvictOnlyDrops(lim: Limits, rows: seq<Row>)
    requires Distinct(rows)
    ensures Distinct(Evict(lim, rows)) && forall r :: r in Evict(lim, rows) ==> r in rows
  {
    if !Within(lim, rows) && |rows| > 1 {
      EvictOnlyDrops(lim, rows[1..]);
      assert forall r :: r in rows[1..] ==> r in rows;
    }
  }

  /** What is stored is the newest row and stays; the limits hold. */
  lemma StoredStays(lim: Limits, rows: seq<Row>, key: string, reply: Reply, now: real)
    requires Distinct(rows) && Within(lim, rows)
    ensures
      var after, row := Stored(lim, rows, key, reply, now), Row(key, now + lim.ttl, reply);
      && Distinct(after) && Within(lim, after)
      && (!Admits(lim, reply) ==> after == rows)
      && (Admits(lim, reply) <==> lim.maxEntries != 0 && |reply.body| <= lim.maxBytes)
      && |after| <= lim.maxEntries && Size(after) <= lim.maxBytes
      && (Admits(lim, reply) ==>
            && after != [] && after[|after|-1] == row
            && (forall r :: r in after ==> r == row || (r in rows && r.key != key)))
  {
    hide Within, Distinct, Evict, Size;
    WithinMeans(lim, Stored(lim, rows, key, reply, now));
    if Admits(lim, reply) {
      var row := Row(key, now + lim.ttl, reply);
      var all := Without(rows, key) + [row];
      WithoutHas(rows, key);
      AddRow(Without(rows, key), row);
      EvictHolds(lim, all);
      EvictOnlyDrops(lim, all);
      assert forall r :: r in all ==> r in Without(rows, key) || r == row;
    }
  }

  lemma {:induction false} WithinMeans(lim: Limits, rows: seq<Row>)
    ensures Within(lim, rows) <==> |rows| <= lim.maxEntries && Size(rows) <= lim.maxBytes
  {}

  lemma {:induction false} OneRowSize(rows: seq<Row>)
    ensures |rows| == 1 ==> Size(rows) == |rows[0].reply.body|
  {}

  /** Every row is the last admitted put of its key. */
  lemma {:induction false} RowsAreAdmitted(lim: Limits, ops: seq<Op>)
    ensures Distinct(Run(lim, ops)) && Within(lim, Run(lim, ops))
    ensures forall r :: r in Run(lim, ops) ==>
              var put := LastAdmitted(lim, ops, r.key);
              put.Some? && put.value.Put? && r == Row(r.key, put.value.now + lim.ttl, put.value.reply)
  {
    if ops != [] {
      var n := |ops| - 1;
      var rows, op := Run(lim, ops[..n]), ops[n];
      RowsAreAdmitted(lim, ops[..n]);
      hide Within, Distinct, Stored, Without;
      if op.Put? {
        StoredStays(lim, rows, op.key, op.reply, op.now);
      } else {
        WithoutHas(rows, op.key);
        WithoutWithin(lim, rows, op.key);
      }
    }
  }

  lemma WithoutWithin(lim: Limits, rows: seq<Row>, key: string)
    requires Within(lim, rows)
    ensures Within(lim, Without(rows, key))
  {
    if Find(rows, key) < |rows| { SizeCut(rows, Find(rows, key)); }
  }

  lemma {:induction false} AdmittedAdmits(lim: Limits, ops: seq<Op>, key: string)
    ensures
      var put := LastAdmitted(lim, ops, key);
      put.Some? ==> put.value.Put? && put.value.key == key && Admits(lim, put.value.reply) && LastPut(ops, key).Some?
    ensures
      var put := LastPut(ops, key);
      put.Some? ==> put.value.Put? && put.value.key == key
                    && (Admits(lim, put.value.reply) ==> LastAdmitted(lim, ops, key) == put)
  {
    if ops != [] { AdmittedAdmits(lim, ops[..|ops|-1], key); }
  }

  /**
   A hit returns the last put of the key that the limits let in, and only inside its time
   to live. It is the very last put exactly when the limits let that one in.
   */
  lemma {:induction false} HitIsLastAdmitted(lim: Limits, ops: seq<Op>, key: string, now: real)
    requires Answer(Run(lim, ops), key, now).Some?
    ensures
      var got, admitted, last := Answer(Run(lim, ops), key, now).value, LastAdmitted(lim, ops, key), LastPut(ops, key);
      && admitted.Some? && admitted.value.Put? && last.Some? && last.value.Put?
      && got == admitted.value.reply && now < admitted.value.now + lim.ttl
      && (got == last.value.reply <==> Admits(lim, last.value.reply))
  {
    RowsAreAdmitted(lim, ops);
    AdmittedAdmits(lim, ops, key);
    var rows := Run(lim, ops);
    assert rows[Find(rows, key)] in rows;
  }

  /** Not always the last: a body too big to store leaves the older one to be served. */
  lemma {:induction false} StaleHit(lim: Limits, key: string, small: Reply, big: Reply)
    requires lim.maxEntries > 0 && lim.ttl > 0.0 && |small.body| <= lim.maxBytes < |big.body|
    ensures
      var ops := [Put(key, small, 0.0), Put(key, big, 0.0)];
      Answer(Run(lim, ops), key, 0.0) == Some(small) && LastPut(ops, key) == Some(Put(key, big, 0.0))
  {
    var ops := [Put(key, small, 0.0), Put(key, big, 0.0)];
    assert ops[..1] == [Put(key, small, 0.0)] && ops[..1][..0] == [];
    var row := Row(key, 0.0 + lim.ttl, small);
    assert Without([], key) + [row] == [row];
    OneRowSize([row]);
    assert Run(lim, ops[..1]) == [row];
  }

  /** The puts the limits let in, and the bytes of their bodies. */
  function Puts(lim: Limits, ops: seq<Op>): nat {
    if ops == [] then 0
    else Puts(lim, ops[..|ops|-1]) + (if ops[|ops|-1].Put? && |ops[|ops|-1].reply.body| <= lim.maxBytes then 1 else 0)
  }

  function PutBytes(lim: Limits, ops: seq<Op>): nat {
    if ops == [] then 0
    else
      PutBytes(lim, ops[..|ops|-1])
      + (if ops[|ops|-1].Put? && |ops[|ops|-1].reply.body| <= lim.maxBytes then |ops[|ops|-1].reply.body| else 0)
  }

  /** The row is there, and from it on there are at most so many rows and bytes. */
  ghost predicate Lies(rows: seq<Row>, row: Row, entries: nat, bytes: nat, i: int) {
    && Distinct(rows) && 0 <= i < |rows| && rows[i] == row
    && |rows| - i <= entries && Size(rows[i..]) <= bytes
  }

  lemma LiesIsAnswered(rows: seq<Row>, row: Row, entries: nat, bytes: nat, i: nat, now: real)
    requires Lies(rows, row, entries, bytes, i) && now < row.expires
    ensures Answer(rows, row.key, now) == Some(row.reply)
  {
    assert rows[Find(rows, row.key)].key == rows[i].key;
  }

  /** Taking out another row leaves it where it is, or one place nearer. */
  lemma LiesWithout(rows: seq<Row>, row: Row, entries: nat, bytes: nat, i: nat, key: string) returns (k: nat)
    requires Lies(rows, row, entries, bytes, i) && key != row.key
    ensures Lies(Without(rows, key), row, entries, bytes, k)
  {
    WithoutHas(rows, key);
    var j := Find(rows, key);
    k := if j < i then i - 1 else i;
    if j < |rows| { LiesCut(rows, i, j); }
  }

  lemma LiesCut(rows: seq<Row>, i: nat, j: nat)
    requires i < |rows| && j < |rows| && i != j
    ensures
      var left, k := rows[..j] + rows[j+1..], if j < i then i - 1 else i;
      k < |left| && left[k] == rows[i] && |left| - k <= |rows| - i && Size(left[k..]) <= Size(rows[i..])
  {
    hide Size;
    var left := rows[..j] + rows[j+1..];
    if j < i {
      assert left[i-1..] == rows[i..];
    } else {
      SizeCut(rows[i..], j - i);
      assert left[i..] == rows[i..][..j-i] + rows[i..][j-i+1..];
    }
  }

  lemma LiesMore(rows: seq<Row>, row: Row, entries: nat, bytes: nat, i: nat, new_: Row)
    requires Lies(rows, row, entries, bytes, i) && forall r :: r in rows ==> r.key != new_.key
    ensures Lies(rows + [new_], row, entries + 1, bytes + |new_.reply.body|, i)
  {
    assert (rows + [new_])[i..] == rows[i..] + [new_];
    AddRow(rows, new_);
    SizeSnoc(rows[i..], new_);
  }

  lemma LiesEvicted(lim: Limits, rows: seq<Row>, row: Row, entries: nat, bytes: nat, i: nat) returns (k: nat)
    requires Lies(rows, row, entries, bytes, i) && entries <= lim.maxEntries && bytes <= lim.maxBytes
    ensures Lies(Evict(lim, rows), row, entries, bytes, k)
  {
    var n := EvictLeast(lim, rows);
    assert Within(lim, rows[i..]);
    k := i - n;
    EvictOnlyDrops(lim, rows);
    assert rows[n..][k..] == rows[i..];
  }

  /** No put of the key, and no operation later than `now`. */
  predicate Leaves(lim: Limits, ops: seq<Op>, key: string, now: real) {
    forall i :: 0 <= i < |ops| ==>
      ops[i].now <= now && (ops[i].Put? && ops[i].key == key ==> |ops[i].reply.body| > lim.maxBytes)
  }

  lemma StepLies(lim: Limits, rows: seq<Row>, op: Op, row: Row, entries: nat, bytes: nat, i: nat) returns (k: nat)
    requires Lies(rows, row, entries, bytes, i) && op.now < row.expires && Leaves(lim, [op], row.key, op.now)
    requires entries + Puts(lim, [op]) <= lim.maxEntries && bytes + PutBytes(lim, [op]) <= lim.maxBytes
    ensures Lies(Step(lim, rows, op), row, entries + Puts(lim, [op]), bytes + PutBytes(lim, [op]), k)
  {
    hide Find, Size, Evict, Distinct;
    assert [op][0] == op && [op][..0] == [];
    k := i;
    if op.Get? {
      LiesIsAnswered(rows, row, entries, bytes, i, op.now);
      if op.key != row.key { var j := LiesWithout(rows, row, entries, bytes, i, op.key); k := if Answer(rows, op.key, op.now).None? then j else i; }
    } else if Admits(lim, op.reply) {
      k := LiesWithout(rows, row, entries, bytes, i, op.key);
      WithoutHas(rows, op.key);
      var new_ := Row(op.key, op.now + lim.ttl, op.reply);
      LiesMore(Without(rows, op.key), row, entries, bytes, k, new_);
      k := LiesEvicted(lim, Without(rows, op.key) + [new_], row, entries + 1, bytes + |op.reply.body|, k);
    }
  }

  lemma {:induction false} RunLies(lim: Limits, ops: seq<Op>, since: seq<Op>, row: Row, entries: nat, bytes: nat, i: nat, now: real)
    returns (k: nat)
    requires Lies(Run(lim, ops), row, entries, bytes, i) && now < row.expires && Leaves(lim, since, row.key, now)
    requires entries + Puts(lim, since) <= lim.maxEntries && bytes + PutBytes(lim, since) <= lim.maxBytes
    ensures Lies(Run(lim, ops + since), row, entries + Puts(lim, since), bytes + PutBytes(lim, since), k)
  {
    hide Lies, Step;
    if since == [] {
      assert ops + since == ops;
      k := i;
    } else {
      var n := |since| - 1;
      var init, op := since[..n], since[n];
      PutsOne(lim, since, op);
      k := RunLies(lim, ops, init, row, entries, bytes, i, now);
      assert (ops + since)[..|ops + since|-1] == ops + init && (ops + since)[|ops + since|-1] == op;
      k := StepLies(lim, Run(lim, ops + init), op, row, entries + Puts(lim, init), bytes + PutBytes(lim, init), k);
    }
  }

  lemma {:induction false} PutsOne(lim: Limits, ops: seq<Op>, op: Op)
    requires ops != [] && op == ops[|ops|-1]
    ensures Puts(lim, ops) == Puts(lim, ops[..|ops|-1]) + Puts(lim, [op])
    ensures PutBytes(lim, ops) == PutBytes(lim, ops[..|ops|-1]) + PutBytes(lim, [op])
  {
    assert [op][..0] == [];
  }

  /**
   A put the limits let in is a hit until its time to live is over: whatever is asked for in
   between, and whatever else is put, as long as the key is not put again and what was put
   since fits the limits together with it.
   */
  lemma {:induction false} FreshHit(lim: Limits, ops: seq<Op>, key: string, reply: Reply, put: real, since: seq<Op>, now: real)
    requires lim.maxEntries >= 1 && |reply.body| <= lim.maxBytes && now < put + lim.ttl && Leaves(lim, since, key, now)
    requires 1 + Puts(lim, since) <= lim.maxEntries && |reply.body| + PutBytes(lim, since) <= lim.maxBytes
    ensures Answer(Run(lim, ops + [Put(key, reply, put)] + since), key, now) == Some(reply)
  {
    hide *;
    var all, row := ops + [Put(key, reply, put)], Row(key, put + lim.ttl, reply);
    var n := PutLies(lim, ops, key, reply, put);
    var k := RunLies(lim, all, since, row, 1, |reply.body|, n, now);
    LiesIsAnswered(Run(lim, all + since), row, 1 + Puts(lim, since), |reply.body| + PutBytes(lim, since), k, now);
  }

  lemma PutLies(lim: Limits, ops: seq<Op>, key: string, reply: Reply, put: real) returns (n: nat)
    requires lim.maxEntries >= 1 && |reply.body| <= lim.maxBytes
    ensures Lies(Run(lim, ops + [Put(key, reply, put)]), Row(key, put + lim.ttl, reply), 1, |reply.body|, n)
  {
    hide Within, Evict, Find;
    RowsAreAdmitted(lim, ops);
    var all, row := ops + [Put(key, reply, put)], Row(key, put + lim.ttl, reply);
    assert all[..|ops|] == ops;
    StoredStays(lim, Run(lim, ops), key, reply, put);
    n := |Run(lim, all)| - 1;
    assert Run(lim, all)[n..] == [row];
    OneRowSize([row]);
  }
}
