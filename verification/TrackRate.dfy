/**
 `TrackRate` of field.py: a token bucket per key, in a dictionary kept to a number of keys by
 forgetting full buckets first and then the ones touched longest ago. The dictionary is its
 rows in insertion order; tokens and times are real numbers.
 */
module TrackRate {
  import opened Options
  import Sets

  datatype Row = Row(key: string, tokens: real, last: real)

  datatype Settings = Settings(rate: real, capacity: real, maxKeys: int)

  function Configured(perMin: int, burst: real, maxKeys: int): Settings {
    var calls := (if perMin < 1 then 1 else perMin) as real;
    Settings(calls / 60.0, calls * burst, maxKeys)
  }

  /** What the rate adds between two moments. */
  function Gain(cfg: Settings, t: real, u: real): real {
    (u - t) * cfg.rate
  }

  function Level(cfg: Settings, r: Row, t: real): real {
    r.tokens + Gain(cfg, r.last, t)
  }

  predicate Full(cfg: Settings, r: Row, t: real) {
    Level(cfg, r, t) >= cfg.capacity
  }

  function Min(a: real, b: real): real {
    if a <= b then a else b
  }

  predicate Distinct(rows: seq<Row>) {
    forall i, k :: 0 <= i < k < |rows| ==> rows[i].key != rows[k].key
  }

  function Find(rows: seq<Row>, key: string): (i: nat)
    ensures i <= |rows| && (i < |rows| ==> rows[i].key == key)
    ensures forall k :: 0 <= k < i ==> rows[k].key != key
  {
    if rows == [] || rows[0].key == key then 0 else Find(rows[1..], key) + 1
  }

  predicate Held(rows: seq<Row>, key: string) {
    Find(rows, key) < |rows|
  }

  /** The tokens a key has at `t`; one not held counts as full. */
  function Tokens(cfg: Settings, rows: seq<Row>, key: string, t: real): real {
    if Held(rows, key) then Min(cfg.capacity, Level(cfg, rows[Find(rows, key)], t)) else cfg.capacity
  }

  function Put(rows: seq<Row>, r: Row): seq<Row> {
    var i := Find(rows, r.key);
    if i < |rows| then rows[i := r] else rows + [r]
  }

  // --------------------------------------------------------------- eviction

  function NotFull(cfg: Settings, rows: seq<Row>, t: real): seq<Row> {
    if rows == [] then []
    else NotFull(cfg, rows[..|rows|-1], t) + (if Full(cfg, rows[|rows|-1], t) then [] else [rows[|rows|-1]])
  }

  /** The first of the rows touched longest ago. */
  function Oldest(rows: seq<Row>): (i: nat)
    requires rows != []
    ensures i < |rows|
    ensures forall k :: 0 <= k < |rows| ==> rows[i].last <= rows[k].last
    ensures forall k :: 0 <= k < i ==> rows[i].last < rows[k].last
  {
    if |rows| == 1 then 0
    else
      var i := Oldest(rows[..|rows|-1]);
      if rows[|rows|-1].last < rows[i].last then |rows| - 1 else i
  }

  function Cut(rows: seq<Row>, i: nat): seq<Row>
    requires i < |rows|
  {
    rows[..i] + rows[i+1..]
  }

  function Trim(rows: seq<Row>, maxKeys: int): seq<Row>
    decreases |rows|
  {
    if |rows| >= maxKeys && rows != [] then Trim(Cut(rows, Oldest(rows)), maxKeys) else rows
  }

  function Evicted(cfg: Settings, rows: seq<Row>, t: real): seq<Row> {
    Trim(NotFull(cfg, rows, t), cfg.maxKeys)
  }

  /** What `allow` looks the key up in. */
  function Cleared(cfg: Settings, rows: seq<Row>, key: string, t: real): seq<Row> {
    if !Held(rows, key) && |rows| >= cfg.maxKeys then Evicted(cfg, rows, t) else rows
  }

  function Allows(cfg: Settings, rows: seq<Row>, key: string, t: real): bool {
    Tokens(cfg, Cleared(cfg, rows, key, t), key, t) >= 1.0
  }

  function After(cfg: Settings, rows: seq<Row>, key: string, t: real): seq<Row> {
    var pre := Cleared(cfg, rows, key, t);
    var tokens := Tokens(cfg, pre, key, t);
    Put(pre, Row(key, if tokens < 1.0 then tokens else tokens - 1.0, t))
  }

  class TrackRate {
    const cfg: Settings
    var rows: seq<Row>

    constructor (perMin: int, burst: real, maxKeys: int)
      ensures rows == [] && cfg == Configured(perMin, burst, maxKeys) && Valid()
    {
      cfg := Configured(perMin, burst, maxKeys);
      rows := [];
    }

    predicate Valid()
      reads this
    {
      Distinct(rows) && (cfg.maxKeys >= 1 ==> |rows| <= cfg.maxKeys) && (cfg.maxKeys < 1 ==> rows == [])
    }

    method Lookup(key: string) returns (i: nat)
      ensures i == Find(rows, key)
    {
      i := 0;
      while i < |rows| && rows[i].key != key
        invariant i <= |rows| && forall k :: 0 <= k < i ==> rows[k].key != key
      {
        i := i + 1;
      }
    }

    /** `_evict`; asking an empty dictionary for its oldest key raises, and nothing else does. */
    method Evict(t: real) returns (raised: bool)
      requires Distinct(rows)
      modifies this
      ensures rows == Evicted(cfg, old(rows), t) && Distinct(rows)
      ensures raised <==> cfg.maxKeys <= 0
      ensures cfg.maxKeys >= 1 ==> |rows| < cfg.maxKeys
      ensures forall key :: Held(rows, key) ==> Held(old(rows), key)
    {
      hide Full, Find, Oldest;
      var kept: seq<Row> := [];
      for i := 0 to |rows|
        invariant kept == NotFull(cfg, rows[..i], t)
      {
        assert rows[..i+1][..i] == rows[..i];
        if !Full(cfg, rows[i], t) {
          kept := kept + [rows[i]];
        }
      }
      assert rows[..|rows|] == rows;
      NotFullHas(cfg, rows, t);
      TrimHas(kept, cfg.maxKeys);
      rows := kept;
      while |rows| >= cfg.maxKeys && rows != []
        invariant Trim(kept, cfg.maxKeys) == Trim(rows, cfg.maxKeys)
        decreases |rows|
      {
        rows := Cut(rows, Oldest(rows));
      }
      raised := |rows| >= cfg.maxKeys;
      HeldHas(rows);
      HeldHas(old(rows));
    }

    /** `allow`; `None` where the source raises. */
    method Allow(key: string, t: real) returns (ok: Option<bool>)
      requires Valid()
      modifies this
      ensures Valid()
      ensures ok.None? <==> cfg.maxKeys <= 0
      ensures ok.Some? ==> rows == After(cfg, old(rows), key, t) && ok.value == Allows(cfg, old(rows), key, t)
    {
      hide Evicted, Tokens, Distinct;
      var i := Lookup(key);
      if i == |rows| && |rows| >= cfg.maxKeys {
        var raised := Evict(t);
        if raised {
          EmptyLeft(cfg, old(rows), t);
          return None;
        }
      }
      assert rows == Cleared(cfg, old(rows), key, t);
      var tokens := Tokens(cfg, rows, key, t);
      PutDistinct(rows, Row(key, if tokens < 1.0 then tokens else tokens - 1.0, t));
      if tokens < 1.0 {
        rows := Put(rows, Row(key, tokens, t));
        return Some(false);
      }
      rows := Put(rows, Row(key, tokens - 1.0, t));
      ok := Some(true);
    }
  }

  lemma HeldHas(rows: seq<Row>)
    ensures forall key :: Held(rows, key) <==> exists r :: r in rows && r.key == key
  {
    forall key ensures Held(rows, key) <==> exists r :: r in rows && r.key == key {
      if r :| r in rows && r.key == key {
        var k :| 0 <= k < |rows| && rows[k] == r;
      }
      assert Held(rows, key) ==> rows[Find(rows, key)] in rows;
    }
  }

  lemma {:induction false} NotFullHas(cfg: Settings, rows: seq<Row>, t: real)
    requires Distinct(rows)
    ensures Distinct(NotFull(cfg, rows, t))
    ensures forall r :: r in NotFull(cfg, rows, t) <==> r in rows && !Full(cfg, r, t)
  {
    hide Full;
    if rows != [] {
      var n := |rows| - 1;
      NotFullHas(cfg, rows[..n], t);
      assert rows == rows[..n] + [rows[n]];
      assert forall k :: 0 <= k < |NotFull(cfg, rows[..n], t)| ==> NotFull(cfg, rows[..n], t)[k] in rows[..n];
    }
  }

  lemma CutHas(rows: seq<Row>, i: nat)
    requires Distinct(rows) && i < |rows|
    ensures Distinct(Cut(rows, i))
    ensures forall r :: r in Cut(rows, i) <==> r in rows && r.key != rows[i].key
  {
    forall r | r in rows && r.key != rows[i].key ensures r in Cut(rows, i) {
      var k :| 0 <= k < |rows| && rows[k] == r;
      assert k < i ==> rows[..i][k] == r;
      assert k > i ==> rows[i+1..][k-i-1] == r;
    }
  }

  lemma {:induction false} TrimHas(rows: seq<Row>, maxKeys: int)
    requires Distinct(rows)
    ensures Distinct(Trim(rows, maxKeys))
    ensures forall r :: r in Trim(rows, maxKeys) ==> r in rows
    ensures maxKeys >= 1 ==> |Trim(rows, maxKeys)| < maxKeys
    ensures maxKeys < 1 ==> Trim(rows, maxKeys) == []
    decreases |rows|
  {
    if |rows| >= maxKeys && rows != [] {
      CutHas(rows, Oldest(rows));
      TrimHas(Cut(rows, Oldest(rows)), maxKeys);
    }
  }

  lemma EmptyLeft(cfg: Settings, rows: seq<Row>, t: real)
    requires Distinct(rows) && cfg.maxKeys < 1
    ensures Evicted(cfg, rows, t) == []
  {
    NotFullHas(cfg, rows, t);
    TrimHas(NotFull(cfg, rows, t), cfg.maxKeys);
  }

  lemma PutDistinct(rows: seq<Row>, r: Row)
    requires Distinct(rows)
    ensures Distinct(Put(rows, r))
  {
    HeldHas(rows);
  }

  // -------------------------------------------------------------- the rate

  datatype Call = Call(key: string, now: real)

  function Run(cfg: Settings, rows: seq<Row>, calls: seq<Call>): seq<Row> {
    if calls == [] then rows
    else After(cfg, Run(cfg, rows, calls[..|calls|-1]), calls[|calls|-1].key, calls[|calls|-1].now)
  }

  predicate Clocked(calls: seq<Call>, t: real) {
    && (forall i :: 0 <= i < |calls| ==> t <= calls[i].now)
    && (forall i, k :: 0 <= i < k < |calls| ==> calls[i].now <= calls[k].now)
  }

  function EndTime(calls: seq<Call>, t: real): real {
    if calls == [] then t else calls[|calls|-1].now
  }

  /** How many of the calls for `key` were let through. */
  function Admitted(cfg: Settings, rows: seq<Row>, calls: seq<Call>, key: string): nat {
    if calls == [] then 0
    else
      var c := calls[|calls|-1];
      Admitted(cfg, rows, calls[..|calls|-1], key)
      + (if c.key == key && Allows(cfg, Run(cfg, rows, calls[..|calls|-1]), key, c.now) then 1 else 0)
  }

  /** The call pushes the bucket of `key` out before it is full again. */
  predicate Spills(cfg: Settings, rows: seq<Row>, c: Call, key: string) {
    Held(rows, key) && !Full(cfg, rows[Find(rows, key)], c.now) && !Held(Cleared(cfg, rows, c.key, c.now), key)
  }

  predicate NeverSpills(cfg: Settings, rows: seq<Row>, calls: seq<Call>, key: string) {
    calls == []
    || (NeverSpills(cfg, rows, calls[..|calls|-1], key)
        && !Spills(cfg, Run(cfg, rows, calls[..|calls|-1]), calls[|calls|-1], key))
  }

  /** The rows of a working limiter at `t`: none over capacity, none from the future, none below empty. */
  predicate Sane(cfg: Settings, rows: seq<Row>, t: real) {
    && Distinct(rows) && |rows| <= cfg.maxKeys
    && forall i :: 0 <= i < |rows| ==> 0.0 <= rows[i].tokens <= cfg.capacity && rows[i].last <= t
  }

  predicate Working(cfg: Settings) {
    cfg.rate > 0.0 && cfg.capacity >= 0.0 && cfg.maxKeys >= 1
  }

  lemma LevelGrows(cfg: Settings, r: Row, t: real, u: real)
    requires Working(cfg) && t <= u
    ensures Level(cfg, r, u) == Level(cfg, r, t) + Gain(cfg, t, u)
    ensures Level(cfg, r, t) <= Level(cfg, r, u)
  {
    GainAdds(cfg, r.last, t, u);
    GainNotNegative(cfg, t, u);
  }

  lemma GainAdds(cfg: Settings, t: real, u: real, v: real)
    ensures Gain(cfg, t, v) == Gain(cfg, t, u) + Gain(cfg, u, v)
  {
    assert (v - t) == (u - t) + (v - u);
  }

  lemma GainNotNegative(cfg: Settings, t: real, u: real)
    requires Working(cfg) && t <= u
    ensures 0.0 <= Gain(cfg, t, u)
  {}

  lemma TokensGrow(cfg: Settings, rows: seq<Row>, key: string, t: real, u: real)
    requires Working(cfg) && t <= u
    ensures Tokens(cfg, rows, key, u) <= Tokens(cfg, rows, key, t) + Gain(cfg, t, u)
    ensures Tokens(cfg, rows, key, t) <= Tokens(cfg, rows, key, u) <= cfg.capacity
  {
    hide Level, Find, Gain;
    GainNotNegative(cfg, t, u);
    if Held(rows, key) { LevelGrows(cfg, rows[Find(rows, key)], t, u); }
  }

  lemma TokensNotNegative(cfg: Settings, rows: seq<Row>, key: string, t: real)
    requires Working(cfg) && Sane(cfg, rows, t)
    ensures 0.0 <= Tokens(cfg, rows, key, t)
  {
    if Held(rows, key) {
      GainNotNegative(cfg, rows[Find(rows, key)].last, t);
    }
  }

  /** Eviction keeps rows as they are. */
  lemma ClearedKeeps(cfg: Settings, rows: seq<Row>, key: string, t: real)
    requires Distinct(rows)
    ensures Distinct(Cleared(cfg, rows, key, t)) && forall r :: r in Cleared(cfg, rows, key, t) ==> r in rows
    ensures cfg.maxKeys >= 1 && |rows| <= cfg.maxKeys ==>
              |Cleared(cfg, rows, key, t)| <= cfg.maxKeys
              && (!Held(Cleared(cfg, rows, key, t), key) ==> |Cleared(cfg, rows, key, t)| < cfg.maxKeys)
  {
    hide Find, NotFull, Trim;
    NotFullHas(cfg, rows, t);
    TrimHas(NotFull(cfg, rows, t), cfg.maxKeys);
  }

  lemma {:induction false} SameRow(rows: seq<Row>, pre: seq<Row>, key: string)
    requires Distinct(rows) && (forall r :: r in pre ==> r in rows) && Held(pre, key)
    ensures Held(rows, key) && pre[Find(pre, key)] == rows[Find(rows, key)]
  {
    var r := pre[Find(pre, key)];
    assert r in rows;
    var k :| 0 <= k < |rows| && rows[k] == r;
  }

  /** Forgetting a full bucket is not noticed by its key. */
  lemma FullForgotten(cfg: Settings, rows: seq<Row>, c: Call, key: string, u: real)
    requires Working(cfg) && Distinct(rows) && !Spills(cfg, rows, c, key) && c.now <= u
    ensures Tokens(cfg, Cleared(cfg, rows, c.key, c.now), key, u) == Tokens(cfg, rows, key, u)
  {
    hide Find, Level, Distinct;
    var pre := Cleared(cfg, rows, c.key, c.now);
    ClearedKeeps(cfg, rows, c.key, c.now);
    if Held(pre, key) {
      SameRow(rows, pre, key);
    } else if Held(rows, key) {
      LevelGrows(cfg, rows[Find(rows, key)], c.now, u);
    }
  }

  lemma PutTokens(cfg: Settings, rows: seq<Row>, r: Row, key: string, u: real)
    requires Distinct(rows)
    ensures Tokens(cfg, Put(rows, r), key, u)
            == (if key == r.key then Min(cfg.capacity, Level(cfg, r, u)) else Tokens(cfg, rows, key, u))
  {
    hide Level;
    var after := Put(rows, r);
    PutDistinct(rows, r);
    PutHas(rows, r);
    if key == r.key {
      Lookup(after, r);
    } else if Held(rows, key) {
      var x := rows[Find(rows, key)];
      assert x in after;
      Lookup(after, x);
    } else if Held(after, key) {
      assert after[Find(after, key)] in after;
      HeldHas(rows);
    }
  }

  lemma {:induction false} Lookup(rows: seq<Row>, r: Row)
    requires Distinct(rows) && r in rows
    ensures Held(rows, r.key) && rows[Find(rows, r.key)] == r
  {
    var k :| 0 <= k < |rows| && rows[k] == r;
  }

  lemma PutHas(rows: seq<Row>, r: Row)
    requires Distinct(rows)
    ensures forall x :: x in Put(rows, r) <==> x == r || (x in rows && x.key != r.key)
  {
    var i, after := Find(rows, r.key), Put(rows, r);
    forall x | x in rows && x.key != r.key ensures x in after {
      var k :| 0 <= k < |rows| && rows[k] == x;
      assert after[k] == x;
    }
    assert r in after by { assert i < |rows| ==> after[i] == r; }
  }

  lemma SaneAfter(cfg: Settings, rows: seq<Row>, c: Call, t: real)
    requires Working(cfg) && Sane(cfg, rows, t) && t <= c.now
    ensures Sane(cfg, After(cfg, rows, c.key, c.now), c.now)
  {
    hide Find, Level, Cleared;
    var pre := Cleared(cfg, rows, c.key, c.now);
    ClearedKeeps(cfg, rows, c.key, c.now);
    forall i | 0 <= i < |pre| ensures 0.0 <= pre[i].tokens <= cfg.capacity && pre[i].last <= c.now { assert pre[i] in rows; }
    TokensNotNegative(cfg, pre, c.key, c.now);
    TokensGrow(cfg, pre, c.key, c.now, c.now);
    var tokens := Tokens(cfg, pre, c.key, c.now);
    var row := Row(c.key, if tokens < 1.0 then tokens else tokens - 1.0, c.now);
    PutDistinct(pre, row);
    PutHas(pre, row);
    PutSize(pre, row);
    var after := Put(pre, row);
    forall i | 0 <= i < |after| ensures 0.0 <= after[i].tokens <= cfg.capacity && after[i].last <= c.now { assert after[i] in after; }
  }

  lemma PutSize(rows: seq<Row>, r: Row)
    ensures |Put(rows, r)| == (if Held(rows, r.key) then |rows| else |rows| + 1)
  {}

  /** One call: a token is taken exactly when it is let through, and other keys are untouched. */
  lemma AfterTokens(cfg: Settings, rows: seq<Row>, c: Call, key: string, t: real, u: real)
    requires Working(cfg) && Sane(cfg, rows, t) && t <= c.now <= u && !Spills(cfg, rows, c, key)
    ensures key != c.key ==> Tokens(cfg, After(cfg, rows, c.key, c.now), key, u) == Tokens(cfg, rows, key, u)
    ensures key == c.key ==>
              Tokens(cfg, After(cfg, rows, c.key, c.now), key, c.now)
              == Tokens(cfg, rows, key, c.now) - (if Allows(cfg, rows, key, c.now) then 1.0 else 0.0)
    ensures key == c.key ==> (Allows(cfg, rows, key, c.now) <==> Tokens(cfg, rows, key, c.now) >= 1.0)
  {
    hide Find, Cleared, Tokens;
    var pre := Cleared(cfg, rows, c.key, c.now);
    ClearedKeeps(cfg, rows, c.key, c.now);
    var tokens := Tokens(cfg, pre, c.key, c.now);
    var row := Row(c.key, if tokens < 1.0 then tokens else tokens - 1.0, c.now);
    PutTokens(cfg, pre, row, key, u);
    PutTokens(cfg, pre, row, key, c.now);
    FullForgotten(cfg, rows, c, key, u);
    FullForgotten(cfg, rows, c, key, c.now);
    TokensGrow(cfg, pre, c.key, c.now, c.now);
  }

  lemma {:induction false} RunSane(cfg: Settings, rows: seq<Row>, calls: seq<Call>, t: real)
    requires Working(cfg) && Sane(cfg, rows, t) && Clocked(calls, t)
    ensures Sane(cfg, Run(cfg, rows, calls), EndTime(calls, t))
  {
    hide Sane, After;
    if calls != [] {
      var n := |calls| - 1;
      RunSane(cfg, rows, calls[..n], t);
      SaneAfter(cfg, Run(cfg, rows, calls[..n]), calls[n], EndTime(calls[..n], t));
    }
  }

  lemma GainNone(cfg: Settings, t: real)
    ensures Gain(cfg, t, t) == 0.0
  {}

  lemma {:induction false} BudgetKept(cfg: Settings, rows: seq<Row>, calls: seq<Call>, key: string, t: real)
    requires Working(cfg) && Sane(cfg, rows, t) && Clocked(calls, t) && NeverSpills(cfg, rows, calls, key)
    ensures Admitted(cfg, rows, calls, key) as real + Tokens(cfg, Run(cfg, rows, calls), key, EndTime(calls, t))
            <= Tokens(cfg, rows, key, t) + Gain(cfg, t, EndTime(calls, t))
  {
    hide Sane, After, Tokens, Spills, Allows, Gain;
    GainNone(cfg, t);
    if calls != [] {
      var n := |calls| - 1;
      var init, c := calls[..n], calls[n];
      var mid, u := Run(cfg, rows, init), EndTime(init, t);
      BudgetKept(cfg, rows, init, key, t);
      RunSane(cfg, rows, init, t);
      AfterTokens(cfg, mid, c, key, u, c.now);
      TokensGrow(cfg, mid, key, u, c.now);
      GainAdds(cfg, t, u, c.now);
    }
  }

  /**
   The rate holds over any window: from any state of the limiter, the calls of a key let
   through from `t` to the last call are at most the burst and what the rate adds, as long
   as the key is not pushed out before its bucket is full again.
   */
  lemma {:induction false} WindowBound(cfg: Settings, rows: seq<Row>, calls: seq<Call>, key: string, t: real)
    requires Working(cfg) && Sane(cfg, rows, t) && Clocked(calls, t) && NeverSpills(cfg, rows, calls, key)
    ensures Admitted(cfg, rows, calls, key) as real <= cfg.capacity + cfg.rate * (EndTime(calls, t) - t)
    ensures |Run(cfg, rows, calls)| <= cfg.maxKeys
  {
    hide Tokens, NeverSpills;
    assert Gain(cfg, t, EndTime(calls, t)) == cfg.rate * (EndTime(calls, t) - t);
    BudgetKept(cfg, rows, calls, key, t);
    RunSane(cfg, rows, calls, t);
    TokensNotNegative(cfg, Run(cfg, rows, calls), key, EndTime(calls, t));
    TokensGrow(cfg, rows, key, t, t);
    GainNone(cfg, t);
  }

  // ---------------------------------------------------- the unbounded limiter

  /** The bucket a key would have if nothing were ever forgotten. */
  function Tank(cfg: Settings, calls: seq<Call>, key: string): Option<Row> {
    if calls == [] then None
    else
      var before, c := Tank(cfg, calls[..|calls|-1], key), calls[|calls|-1];
      if c.key != key then before
      else
        var tokens := TankTokens(cfg, before, c.now);
        Some(Row(key, if tokens < 1.0 then tokens else tokens - 1.0, c.now))
  }

  function TankTokens(cfg: Settings, tank: Option<Row>, t: real): real {
    if tank.None? then cfg.capacity else Min(cfg.capacity, Level(cfg, tank.value, t))
  }

  lemma {:induction false} SameTokens(cfg: Settings, calls: seq<Call>, key: string, t: real, u: real)
    requires Working(cfg) && Clocked(calls, t) && NeverSpills(cfg, [], calls, key) && EndTime(calls, t) <= u
    ensures Tokens(cfg, Run(cfg, [], calls), key, u) == TankTokens(cfg, Tank(cfg, calls, key), u)
  {
    hide Sane, Spills, Level, Find;
    if calls == [] {
      assert !Held([], key) by { NothingHeld(key); }
    } else {
      var n := |calls| - 1;
      var init, c := calls[..n], calls[n];
      var mid, v := Run(cfg, [], init), EndTime(init, t);
      EmptySane(cfg, t);
      RunSane(cfg, [], init, t);
      if c.key == key {
        SameTokens(cfg, init, key, t, c.now);
        LastRow(cfg, mid, c, v, u);
      } else {
        SameTokens(cfg, init, key, t, u);
        AfterTokens(cfg, mid, c, key, v, u);
      }
    }
  }

  lemma NothingHeld(key: string)
    ensures !Held([], key)
  {}

  lemma EmptySane(cfg: Settings, t: real)
    requires Working(cfg)
    ensures Sane(cfg, [], t)
  {}

  /** The row a call leaves behind. */
  lemma LastRow(cfg: Settings, rows: seq<Row>, c: Call, t: real, u: real)
    requires Working(cfg) && Sane(cfg, rows, t) && t <= c.now <= u
    ensures
      var tokens := Tokens(cfg, rows, c.key, c.now);
      Tokens(cfg, After(cfg, rows, c.key, c.now), c.key, u)
      == Min(cfg.capacity, Level(cfg, Row(c.key, if tokens < 1.0 then tokens else tokens - 1.0, c.now), u))
  {
    hide Find, Tokens, Level;
    var pre := Cleared(cfg, rows, c.key, c.now);
    ClearedKeeps(cfg, rows, c.key, c.now);
    OwnKept(cfg, rows, c);
    FullForgotten(cfg, rows, c, c.key, c.now);
    var tokens := Tokens(cfg, pre, c.key, c.now);
    PutTokens(cfg, pre, Row(c.key, if tokens < 1.0 then tokens else tokens - 1.0, c.now), c.key, u);
  }

  /** A call never pushes out its own key. */
  lemma OwnKept(cfg: Settings, rows: seq<Row>, c: Call)
    ensures !Spills(cfg, rows, c, c.key)
  {}

  /**
   Forgetting is invisible: a key that is only ever forgotten when its bucket is full gets,
   call by call, the answers of a limiter that forgets nothing.
   */
  lemma {:induction false} RefinesUnbounded(cfg: Settings, calls: seq<Call>, c: Call, t: real)
    requires Working(cfg) && Clocked(calls + [c], t) && NeverSpills(cfg, [], calls, c.key)
    ensures Allows(cfg, Run(cfg, [], calls), c.key, c.now) <==> TankTokens(cfg, Tank(cfg, calls, c.key), c.now) >= 1.0
  {
    hide Sane, Spills, Tokens, NeverSpills, Run, TankTokens, Tank;
    assert (calls + [c])[..|calls|] == calls && (calls + [c])[|calls|] == c;
    assert forall i :: 0 <= i < |calls| ==> calls[i] == (calls + [c])[i];
    assert Clocked(calls, t) && EndTime(calls, t) <= c.now;
    EmptySane(cfg, t);
    RunSane(cfg, [], calls, t);
    OwnKept(cfg, Run(cfg, [], calls), c);
    AfterTokens(cfg, Run(cfg, [], calls), c, c.key, EndTime(calls, t), c.now);
    SameTokens(cfg, calls, c.key, t, c.now);
  }

  // ---------------------------------------------------------------- few keys

  ghost function KeysOf(calls: seq<Call>): set<string> {
    set c | c in calls :: c.key
  }

  ghost function HeldKeys(rows: seq<Row>): set<string> {
    set r | r in rows :: r.key
  }

  lemma {:induction false} HeldCount(rows: seq<Row>)
    requires Distinct(rows)
    ensures |HeldKeys(rows)| == |rows|
  {
    if rows != [] {
      var n := |rows| - 1;
      HeldCount(rows[..n]);
      assert rows == rows[..n] + [rows[n]];
      assert HeldKeys(rows) == HeldKeys(rows[..n]) + {rows[n].key};
    }
  }

  /** One call holds no key that was not held or called for. */
  lemma AfterHolds(cfg: Settings, rows: seq<Row>, c: Call)
    requires Distinct(rows)
    ensures Distinct(After(cfg, rows, c.key, c.now)) && HeldKeys(After(cfg, rows, c.key, c.now)) <= HeldKeys(rows) + {c.key}
  {
    hide Find, Cleared, Tokens;
    var pre := Cleared(cfg, rows, c.key, c.now);
    ClearedKeeps(cfg, rows, c.key, c.now);
    var tokens := Tokens(cfg, pre, c.key, c.now);
    var row := Row(c.key, if tokens < 1.0 then tokens else tokens - 1.0, c.now);
    PutDistinct(pre, row);
    PutHas(pre, row);
  }

  lemma {:induction false} RunHolds(cfg: Settings, rows: seq<Row>, calls: seq<Call>)
    requires Distinct(rows)
    ensures Distinct(Run(cfg, rows, calls)) && HeldKeys(Run(cfg, rows, calls)) <= HeldKeys(rows) + KeysOf(calls)
  {
    hide After, Distinct, HeldKeys;
    if calls != [] {
      var n := |calls| - 1;
      RunHolds(cfg, rows, calls[..n]);
      AfterHolds(cfg, Run(cfg, rows, calls[..n]), calls[n]);
      KeysMore(calls, n);
    }
  }

  lemma KeysMore(calls: seq<Call>, n: nat)
    requires n + 1 == |calls|
    ensures KeysOf(calls) == KeysOf(calls[..n]) + {calls[n].key}
  {
    assert calls == calls[..n] + [calls[n]];
  }

  /** A call makes no room while the keys there are fit. */
  lemma NoRoomNeeded(cfg: Settings, rows: seq<Row>, c: Call, all: set<string>)
    requires Distinct(rows) && HeldKeys(rows) + {c.key} <= all && |all| <= cfg.maxKeys
    ensures Cleared(cfg, rows, c.key, c.now) == rows
  {
    hide Find, Distinct, HeldKeys;
    if !Held(rows, c.key) {
      HeldCount(rows);
      NotAmongHeld(rows, c.key);
      Sets.NoLarger(HeldKeys(rows) + {c.key}, all);
    }
  }

  lemma NotAmongHeld(rows: seq<Row>, key: string)
    ensures Held(rows, key) <==> key in HeldKeys(rows)
  {
    HeldHas(rows);
  }

  /** While the limiter sees no more keys than it may hold, it pushes nobody out. */
  lemma {:induction false} FewKeys(cfg: Settings, rows: seq<Row>, calls: seq<Call>, key: string)
    requires Distinct(rows) && |HeldKeys(rows) + KeysOf(calls)| <= cfg.maxKeys
    ensures NeverSpills(cfg, rows, calls, key)
  {
    hide Run, Cleared, Distinct, HeldKeys, KeysOf;
    if calls != [] {
      var n := |calls| - 1;
      KeysMore(calls, n);
      Sets.NoLarger(HeldKeys(rows) + KeysOf(calls[..n]), HeldKeys(rows) + KeysOf(calls));
      FewKeys(cfg, rows, calls[..n], key);
      RunHolds(cfg, rows, calls[..n]);
      NoRoomNeeded(cfg, Run(cfg, rows, calls[..n]), calls[n], HeldKeys(rows) + KeysOf(calls));
    }
  }

  /**
   So calls with no more keys between them than the limiter may hold meet both promises,
   whatever their key: the rate over the window, and the answers of a limiter that forgets nothing.
   */
  lemma {:induction false} FewKeysServed(cfg: Settings, calls: seq<Call>, c: Call, t: real)
    requires Working(cfg) && Clocked(calls + [c], t) && |KeysOf(calls)| <= cfg.maxKeys
    ensures Admitted(cfg, [], calls, c.key) as real <= cfg.capacity + cfg.rate * (EndTime(calls, t) - t)
    ensures Allows(cfg, Run(cfg, [], calls), c.key, c.now) <==> TankTokens(cfg, Tank(cfg, calls, c.key), c.now) >= 1.0
  {
    hide Run, Allows, Admitted, TankTokens, Tank, NeverSpills, Gain;
    assert HeldKeys([]) + KeysOf(calls) == KeysOf(calls);
    FewKeys(cfg, [], calls, c.key);
    assert forall i :: 0 <= i < |calls| ==> calls[i] == (calls + [c])[i];
    EmptySane(cfg, t);
    WindowBound(cfg, [], calls, c.key, t);
    RefinesUnbounded(cfg, calls, c, t);
  }

  // ------------------------------------------------- the limiter does let through

  /** No call for the key is later than `u`. */
  predicate QuietAfter(calls: seq<Call>, key: string, u: real) {
    forall i :: 0 <= i < |calls| && calls[i].key == key ==> calls[i].now <= u
  }

  lemma AfterLast(cfg: Settings, rows: seq<Row>, c: Call, t: real, key: string, u: real)
    requires Working(cfg) && Sane(cfg, rows, t) && t <= c.now && (c.key == key ==> c.now <= u)
    requires forall r :: r in rows && r.key == key ==> r.last <= u
    ensures forall r :: r in After(cfg, rows, c.key, c.now) && r.key == key ==> r.last <= u
  {
    hide Find, Cleared, Tokens;
    var pre := Cleared(cfg, rows, c.key, c.now);
    ClearedKeeps(cfg, rows, c.key, c.now);
    var tokens := Tokens(cfg, pre, c.key, c.now);
    PutHas(pre, Row(c.key, if tokens < 1.0 then tokens else tokens - 1.0, c.now));
  }

  lemma {:induction false} RunLast(cfg: Settings, calls: seq<Call>, t: real, key: string, u: real)
    requires Working(cfg) && Clocked(calls, t) && QuietAfter(calls, key, u)
    ensures forall r :: r in Run(cfg, [], calls) && r.key == key ==> r.last <= u
  {
    hide After, Sane;
    if calls != [] {
      var n := |calls| - 1;
      RunLast(cfg, calls[..n], t, key, u);
      EmptySane(cfg, t);
      RunSane(cfg, [], calls[..n], t);
      AfterLast(cfg, Run(cfg, [], calls[..n]), calls[n], EndTime(calls[..n], t), key, u);
    }
  }

  /** A key left alone for the time one token takes to come is let through, whatever happened before and to others. */
  lemma {:induction false} LetThroughAgain(cfg: Settings, calls: seq<Call>, t: real, key: string, u: real, now: real)
    requires Working(cfg) && cfg.capacity >= 1.0 && Clocked(calls, t) && EndTime(calls, t) <= now
    requires QuietAfter(calls, key, u) && u + 1.0 / cfg.rate <= now
    ensures Allows(cfg, Run(cfg, [], calls), key, now)
  {
    hide Find, Run, Cleared;
    var rows := Run(cfg, [], calls);
    EmptySane(cfg, t);
    RunSane(cfg, [], calls, t);
    RunLast(cfg, calls, t, key, u);
    var pre := Cleared(cfg, rows, key, now);
    ClearedKeeps(cfg, rows, key, now);
    if Held(pre, key) {
      var r := pre[Find(pre, key)];
      assert r in pre && r in rows;
      assert 0.0 <= r.tokens;
      OneToken(cfg, r.last, now);
    }
  }

  lemma OneToken(cfg: Settings, t: real, u: real)
    requires cfg.rate > 0.0 && t + 1.0 / cfg.rate <= u
    ensures Gain(cfg, t, u) >= 1.0
  {
    assert 1.0 / cfg.rate * cfg.rate == 1.0;
    assert (u - t - 1.0 / cfg.rate) * cfg.rate >= 0.0;
  }

  /** Below one whole token nobody is ever let through. */
  lemma NothingLetThrough(cfg: Settings, rows: seq<Row>, key: string, now: real)
    requires cfg.capacity < 1.0
    ensures !Allows(cfg, rows, key, now)
  {
    hide Find, Level, Cleared;
  }

  /** All of the calls are for one key at one moment. */
  predicate AtOnce(calls: seq<Call>, key: string, t: real) {
    forall i :: 0 <= i < |calls| ==> calls[i] == Call(key, t)
  }

  lemma {:induction false} BurstGoes(cfg: Settings, calls: seq<Call>, key: string, t: real)
    requires Working(cfg) && AtOnce(calls, key, t)
    ensures Sane(cfg, Run(cfg, [], calls), t) && NeverSpills(cfg, [], calls, key)
    ensures Admitted(cfg, [], calls, key) as real + Tokens(cfg, Run(cfg, [], calls), key, t) == cfg.capacity
    ensures |calls| as real <= cfg.capacity ==> Admitted(cfg, [], calls, key) == |calls|
  {
    hide After, Spills, Tokens, Allows, Sane;
    if calls == [] {
      EmptySane(cfg, t);
      TokensOfNone(cfg, key, t);
    } else {
      var n := |calls| - 1;
      BurstGoes(cfg, calls[..n], key, t);
      var mid, c := Run(cfg, [], calls[..n]), calls[n];
      SaneAfter(cfg, mid, c, t);
      OwnKept(cfg, mid, c);
      AfterTokens(cfg, mid, c, key, t, t);
    }
  }

  /** Calls of a new key all at once are let through as long as the burst lasts, and no further. */
  lemma {:induction false} BurstServed(cfg: Settings, calls: seq<Call>, key: string, t: real)
    requires Working(cfg) && AtOnce(calls, key, t)
    ensures |calls| as real <= cfg.capacity ==> Admitted(cfg, [], calls, key) == |calls|
    ensures Admitted(cfg, [], calls, key) as real <= cfg.capacity
  {
    hide Run, Admitted, NeverSpills, Sane, Tokens;
    BurstGoes(cfg, calls, key, t);
    TokensNotNegative(cfg, Run(cfg, [], calls), key, t);
  }

  lemma TokensOfNone(cfg: Settings, key: string, t: real)
    ensures Tokens(cfg, [], key, t) == cfg.capacity
  {}

  /** A positive number of calls a minute, and a burst of so many minutes' worth of them. */
  function PerMinute(perMin: int): real {
    if perMin < 1 then 1.0 else perMin as real
  }

  /**
   As configured, a key gets in any minute at most its calls a minute and the burst on top,
   and a burst of a new key goes through at once.
   */
  lemma {:induction false} MinuteBound(perMin: int, burst: real, maxKeys: int, rows: seq<Row>, calls: seq<Call>, key: string, t: real)
    requires burst >= 0.0 && maxKeys >= 1
    ensures Working(Configured(perMin, burst, maxKeys))
    ensures
      var cfg, n := Configured(perMin, burst, maxKeys), PerMinute(perMin);
      && cfg.maxKeys == maxKeys
      && (Sane(cfg, rows, t) && Clocked(calls, t) && NeverSpills(cfg, rows, calls, key) && EndTime(calls, t) <= t + 60.0
          ==> Admitted(cfg, rows, calls, key) as real <= n + n * burst)
      && (AtOnce(calls, key, t) && |calls| as real <= n * burst ==> Admitted(cfg, [], calls, key) == |calls|)
  {
    hide *;
    ConfiguredIs(perMin, burst, maxKeys);
    var cfg := Configured(perMin, burst, maxKeys);
    if Sane(cfg, rows, t) && Clocked(calls, t) && NeverSpills(cfg, rows, calls, key) && EndTime(calls, t) <= t + 60.0 {
      WindowBound(cfg, rows, calls, key, t);
      RateIsPositive(cfg);
      var u, n := EndTime(calls, t), PerMinute(perMin);
      AMinute(cfg.rate, t, u, n);
      AtMost(Admitted(cfg, rows, calls, key) as real, cfg.capacity, cfg.rate * (u - t), n, n * burst);
    }
    if AtOnce(calls, key, t) { BurstServed(cfg, calls, key, t); }
  }

  lemma RateIsPositive(cfg: Settings)
    requires Working(cfg)
    ensures cfg.rate > 0.0
  {}

  lemma ConfiguredIs(perMin: int, burst: real, maxKeys: int)
    requires burst >= 0.0 && maxKeys >= 1
    ensures
      var cfg, n := Configured(perMin, burst, maxKeys), PerMinute(perMin);
      Working(cfg) && cfg.maxKeys == maxKeys && cfg.rate * 60.0 == n && cfg.capacity == n * burst
  {}

  lemma AtMost(a: real, capacity: real, gain: real, n: real, burst: real)
    requires a <= capacity + gain && gain <= n && capacity == burst
    ensures a <= n + burst
  {}

  lemma AMinute(rate: real, t: real, u: real, n: real)
    requires rate > 0.0 && u <= t + 60.0 && rate * 60.0 == n
    ensures rate * (u - t) <= n
  {
    var gone := u - t;
    assert rate * (60.0 - gone) >= 0.0;
    assert rate * gone + rate * (60.0 - gone) == rate * 60.0;
    assert rate * gone <= n;
  }

  // ------------------------------------------------------------ what is evicted

  lemma {:induction false} TrimSize(rows: seq<Row>, maxKeys: int)
    ensures |Trim(rows, maxKeys)| == (if |rows| < maxKeys then |rows| else if maxKeys < 1 then 0 else maxKeys - 1)
    ensures |rows| < maxKeys ==> Trim(rows, maxKeys) == rows
    decreases |rows|
  {
    if |rows| >= maxKeys && rows != [] { TrimSize(Cut(rows, Oldest(rows)), maxKeys); }
  }

  /** Whatever is trimmed was touched no later than whatever stays. */
  lemma {:induction false} TrimOldest(rows: seq<Row>, maxKeys: int)
    requires Distinct(rows)
    ensures forall r, q :: r in Trim(rows, maxKeys) && q in rows && q !in Trim(rows, maxKeys) ==> q.last <= r.last
    decreases |rows|
  {
    hide Oldest, Distinct;
    TrimHas(rows, maxKeys);
    if |rows| >= maxKeys && rows != [] {
      var i := Oldest(rows);
      var left := Cut(rows, i);
      CutHas(rows, i);
      TrimOldest(left, maxKeys);
      TrimHas(left, maxKeys);
      forall r, q | r in Trim(left, maxKeys) && q in rows && q !in Trim(left, maxKeys) ensures q.last <= r.last {
        assert r in left && r in rows;
        if q !in left { OldestIs(rows, q, r); }
      }
    }
  }

  lemma {:induction false} OldestIs(rows: seq<Row>, q: Row, r: Row)
    requires Distinct(rows) && rows != [] && q in rows && r in rows && q.key == rows[Oldest(rows)].key
    ensures q.last <= r.last
  {
    var j :| 0 <= j < |rows| && rows[j] == q;
    var k :| 0 <= k < |rows| && rows[k] == r;
    assert j == Oldest(rows);
  }

  /**
   Making room forgets the full buckets, and then, only if that is not enough, those touched
   longest ago, no more of them than it takes for one key to fit in.
   */
  lemma EvictionSpares(cfg: Settings, rows: seq<Row>, t: real) returns (short: set<Row>)
    requires Distinct(rows)
    ensures
      var left := Evicted(cfg, rows, t);
      && (forall r :: r in left ==> r in rows && r.tokens + (t - r.last) * cfg.rate < cfg.capacity)
      && (forall r, q :: r in left && q in rows && q.tokens + (t - q.last) * cfg.rate < cfg.capacity && q !in left ==> q.last <= r.last)
      && (forall r :: r in short <==> r in rows && r.tokens + (t - r.last) * cfg.rate < cfg.capacity)
      && |left| == if |short| < cfg.maxKeys then |short| else if cfg.maxKeys < 1 then 0 else cfg.maxKeys - 1
  {
    hide Trim, NotFull, Full, Distinct;
    forall r ensures Full(cfg, r, t) <==> r.tokens + (t - r.last) * cfg.rate >= cfg.capacity { FullMeans(cfg, r, t); }
    var kept := NotFull(cfg, rows, t);
    NotFullHas(cfg, rows, t);
    TrimHas(kept, cfg.maxKeys);
    TrimSize(kept, cfg.maxKeys);
    TrimOldest(kept, cfg.maxKeys);
    short := set r | r in kept;
    RowSet(kept);
  }

  lemma FullMeans(cfg: Settings, r: Row, t: real)
    ensures Full(cfg, r, t) <==> r.tokens + (t - r.last) * cfg.rate >= cfg.capacity
  {
    var gain := Gain(cfg, r.last, t);
    assert gain == (t - r.last) * cfg.rate;
    assert Level(cfg, r, t) == r.tokens + gain;
  }

  lemma {:induction false} RowSet(rows: seq<Row>)
    requires Distinct(rows)
    ensures |set r | r in rows| == |rows|
  {
    if rows != [] {
      var n := |rows| - 1;
      RowSet(rows[..n]);
      assert rows == rows[..n] + [rows[n]];
      assert (set r | r in rows) == (set r | r in rows[..n]) + {rows[n]};
    }
  }
}
