/**
 What each operation of the live-ping hub does, told of the sessions before and after it:
 who is opened, joined or refused, who is stopped, who is heard, what is taken in and what a
 probe is told.
 */
module LivePingExact {
  import opened Options
  import opened LivePing
  import opened LivePingLaws
  import opened LivePingReads

  /** Not stopped, and before its deadline. */
  predicate Running(s: Session, now: real) {
    s.stoppedAt.None? && now < s.expiresAt
  }

  // ---------------------------------------------------------------- reaping

  /** A session past its deadline has stopped there, as expired. */
  function Ripe(s: Session, now: real): Session {
    if s.stoppedAt.None? && s.expiresAt <= now then s.(stoppedAt := Some(s.expiresAt), reason := Some(Expired)) else s
  }

  /** Ninety seconds after it ended a session is forgotten. */
  predicate Lingers(s: Session, now: real) {
    now < (if s.stoppedAt.Some? then s.stoppedAt.value else s.expiresAt) + 90.0
  }

  /** Reaping keeps, in order, the sessions that linger, those overdue stopped at their deadline. */
  lemma {:induction false} ReapIs(ss: seq<Session>, now: real) returns (at: seq<nat>)
    ensures |at| == |Reap(ss, now)| && (forall i, k :: 0 <= i < k < |at| ==> at[i] < at[k])
    ensures forall i :: 0 <= i < |at| ==> at[i] < |ss| && Reap(ss, now)[i] == Ripe(ss[at[i]], now)
    ensures forall k: nat :: k in at <==> k < |ss| && Lingers(ss[k], now)
  {
    hide Reap;
    at := [];
    if ss == [] {
      ReapEmpty(now);
    } else {
      var n := |ss| - 1;
      at := ReapIs(ss[..n], now);
      ReapLast(ss, now);
      if Lingers(ss[n], now) { at := at + [n]; }
    }
  }

  // ------------------------------------------------------ starting, stopping

  ghost function RunningIn(ss: seq<Session>, org: string, now: real): set<nat> {
    set i: nat | i < |ss| && ss[i].org == org && Running(ss[i], now)
  }

  lemma {:induction false} CountIsSize(ss: seq<Session>, org: string, now: real)
    ensures LiveCount(ss, org, now) == |RunningIn(ss, org, now)|
  {
    if ss == [] {
      CountNone(org, now);
    } else {
      hide LiveCount;
      var n := |ss| - 1;
      CountIsSize(ss[..n], org, now);
      CountLast(ss[..n], ss[n], org, now);
      assert ss[..n] + [ss[n]] == ss;
      RunningMore(ss, org, now);
    }
  }

  lemma RunningMore(ss: seq<Session>, org: string, now: real)
    requires ss != []
    ensures
      var n := |ss| - 1;
      |RunningIn(ss, org, now)| == |RunningIn(ss[..n], org, now)| + (if ss[n].org == org && Running(ss[n], now) then 1 else 0)
  {
    hide Running;
    var n := |ss| - 1;
    var whole, part := RunningIn(ss, org, now), RunningIn(ss[..n], org, now);
    var last := ss[n].org == org && Running(ss[n], now);
    forall i: nat ensures i in whole <==> i in part || (i == n && last) {
      assert i < n ==> ss[..n][i] == ss[i];
    }
    assert whole == part + if last then {n} else {};
  }

  /** A session just opened: on the arming clock, with nothing heard yet, at the pace of its kind of device. */
  predicate JustOpened(lim: Limits, s: Session, req: Request, sid: string, now: real) {
    && s.sid == sid && s.org == req.org && s.node == req.node && s.device == req.device && s.ip == req.ip
    && s.infra == req.infra && s.startedBy == req.who
    && s.interval == (if req.infra then lim.infraInterval else lim.interval)
    && s.startedAt == now && s.expiresAt == now + 180.0
    && s.samples == [] && s.high == 0 && s.sent == 0 && s.lost == 0
    && s.lastSampleAt == None && s.pickedUpAt == None && s.stoppedAt == None && s.reason == None && s.detail == None
  }

  /**
   Once the list is reaped, a start opens a session exactly when none is running on the device
   and fewer than the allowed number run in the organisation; the new one is listed last and
   its probe's version goes up. Otherwise nothing changes.
   */
  lemma StartOpens(lim: Limits, st: State, req: Request, sid: string, now: real)
    ensures
      var r, after := Reaped(st, now), Step(lim, st, Start(req, sid, now));
      if (exists i :: 0 <= i < |r.sessions| && r.sessions[i].org == req.org && r.sessions[i].device == req.device && Running(r.sessions[i], now))
         || |RunningIn(r.sessions, req.org, now)| >= lim.maxPerOrg
      then after == r
      else
        && |after.sessions| == |r.sessions| + 1 && after.sessions[..|r.sessions|] == r.sessions
        && JustOpened(lim, after.sessions[|r.sessions|], req, sid, now)
        && RaisedOnly(r.tokens, after.tokens, req.org, req.node)
  {
    hide Reaped, LiveCount;
    CountIsSize(Reaped(st, now).sessions, req.org, now);
  }

  /** The version of one probe is one higher, and all others are as they were. */
  ghost predicate RaisedOnly(before: Tokens, after: Tokens, org: string, node: string) {
    forall o, n :: TokenOf(after, o, n) == TokenOf(before, o, n) + (if o == org && n == node then 1 else 0)
  }

  /** The stop names a session of the organisation, and of the probe if a probe asks, that has not stopped. */
  predicate Stoppable(s: Session, op: Op)
    requires op.Stop?
  {
    s.sid == op.sid && s.org == op.org && s.stoppedAt.None? && (op.asNode.None? || s.node == op.asNode.value)
  }

  /** Once the list is reaped, a stop ends the session it names, now and for the reason given, if it may; nothing else changes. */
  lemma StopEnds(lim: Limits, st: State, op: Op, i: nat)
    requires op.Stop? && i < |Reaped(st, op.now).sessions|
    requires forall j, k :: 0 <= j < k < |Reaped(st, op.now).sessions| ==> Reaped(st, op.now).sessions[j].sid != Reaped(st, op.now).sessions[k].sid
    ensures
      var r, after := Reaped(st, op.now), Step(lim, st, op);
      var s := r.sessions[i];
      && |after.sessions| == |r.sessions|
      && after.sessions[i] == (if Stoppable(s, op) then s.(stoppedAt := Some(op.now), reason := Some(op.reason), detail := op.detail) else s)
      && (Stoppable(s, op) ==> RaisedOnly(r.tokens, after.tokens, s.org, s.node))
      && ((forall k :: 0 <= k < |r.sessions| ==> !Stoppable(r.sessions[k], op)) ==> after == r)
  {
    hide Reaped, Find;
    var r := Reaped(st, op.now);
    var f := Find(r.sessions, op.sid);
    if f < |r.sessions| && !Refuses(r.sessions, op) { assert Stoppable(r.sessions[f], op); }
  }

  // ------------------------------------------------------------ first contact

  /** The session once its probe has been heard: its budget starts at the first contact, if it is still running then. */
  function Reached(lim: Limits, s: Session, now: real): Session {
    if Running(s, now) && s.pickedUpAt.None? then s.(pickedUpAt := Some(now), expiresAt := now + lim.maxS as real) else s
  }

  /** A probe's poll reaches each of its sessions, and no other. */
  lemma {:induction false} PollReaches(lim: Limits, ss: seq<Session>, org: string, node: string, now: real)
    ensures
      var after := PickUpAll(lim, ss, org, node, now);
      && |after| == |ss|
      && forall i :: 0 <= i < |ss| ==>
           after[i] == if ss[i].org == org && ss[i].node == node then Reached(lim, ss[i], now) else ss[i]
  {
    if ss != [] { PollReaches(lim, ss[..|ss|-1], org, node, now); }
  }

  /** The echoes of a batch that come in: each higher than all before it, with its round trip if that can be believed. */
  ghost predicate ComesIn(high: int, items: seq<Item>, i: int) {
    && 0 <= i < |items| && items[i].Echo? && items[i].no > high
    && forall j :: 0 <= j < i && items[j].Echo? ==> items[j].no < items[i].no
  }

  function Read(item: Item): Sample
    requires item.Echo?
  {
    Sample(item.no, if item.rtt.Some? && 0 <= item.rtt.value <= 60_000 * 1000 then item.rtt else None)
  }

  /** The highest number among the echoes of a batch and what was high before. */
  ghost predicate Highest(floor: int, items: seq<Item>, high: int) {
    && high >= floor && (forall j :: 0 <= j < |items| && items[j].Echo? ==> items[j].no <= high)
    && (high == floor || exists j :: 0 <= j < |items| && items[j].Echo? && items[j].no == high)
  }

  lemma HighestMore(floor: int, init: seq<Item>, item: Item, high: int)
    requires Highest(floor, init, high)
    ensures Highest(floor, init + [item], if item.Echo? && item.no > high then item.no else high)
    ensures ComesIn(floor, init + [item], |init|) <==> item.Echo? && item.no > high
    ensures forall i :: 0 <= i < |init| ==> (ComesIn(floor, init, i) <==> ComesIn(floor, init + [item], i))
  {
    var all := init + [item];
    assert forall j :: 0 <= j < |init| ==> all[j] == init[j];
    assert all[|init|] == item;
  }

  lemma {:induction false} AcceptedIs(s: Session, items: seq<Item>, now: real)
    ensures forall x :: x in Accepted(s, items, now) <==> exists i :: ComesIn(s.high, items, i) && x == Read(items[i])
    ensures Highest(s.high, items, TakeAll(s, items, now).high)
  {
    if items != [] {
      var n := |items| - 1;
      var init, mid := items[..n], TakeAll(s, items[..|items|-1], now);
      AcceptedIs(s, init, now);
      assert init + [items[n]] == items;
      HighestMore(s.high, init, items[n], mid.high);
      TakenIs(mid, items[n], now);
      assert Accepted(s, items, now) == Accepted(s, init, now) + Taken(mid, items[n]);
      hide TakeAll, Accepted, Take, Taken, ComesIn, Highest;
      forall i ensures ComesIn(s.high, items, i) ==> 0 <= i < |items| { InBatch(s.high, items, i); }
      forall i ensures ComesIn(s.high, init, i) ==> 0 <= i < |init| { InBatch(s.high, init, i); }
    }
  }

  lemma InBatch(high: int, items: seq<Item>, i: int)
    ensures ComesIn(high, items, i) ==> 0 <= i < |items| && items[i].Echo?
  {}

  lemma TakenIs(s: Session, item: Item, now: real)
    ensures Taken(s, item) == if item.Echo? && item.no > s.high then [Read(item)] else []
    ensures Take(s, item, now).high == if item.Echo? && item.no > s.high then item.no else s.high
  {}

  /** What a batch leaves alone, and when the last echo came. */
  lemma {:induction false} TakeAllLeaves(s: Session, items: seq<Item>, now: real)
    ensures
      var b := TakeAll(s, items, now);
      && b == s.(samples := b.samples, high := b.high, sent := b.sent, lost := b.lost, lastSampleAt := b.lastSampleAt)
      && b.lastSampleAt == if Accepted(s, items, now) == [] then s.lastSampleAt else Some(now)
  {
    if items != [] { TakeAllLeaves(s, items[..|items|-1], now); }
  }

  /** What a report does to the session it reaches. */
  ghost predicate TakesIn(lim: Limits, s: Session, b: Session, items: seq<Item>, now: real) {
    var xs := Accepted(Reached(lim, s, now), items, now);
    && b == Reached(lim, s, now).(samples := b.samples, high := b.high, sent := b.sent, lost := b.lost, lastSampleAt := b.lastSampleAt)
    && Heard(s, b, xs)
    && (forall x :: x in xs <==> exists k :: ComesIn(s.high, items, k) && x == Read(items[k]))
    && b.lastSampleAt == if xs == [] then s.lastSampleAt else Some(now)
  }

  /**
   A report reaches the session it names, if that is the reporting probe's, and no other; and a
   session running when it comes takes in exactly the echoes of the batch that come in, in rising
   order, counts them and the losses among them, and keeps the newest 600 in all.
   */
  lemma ReportTakesIn(lim: Limits, st: State, op: Op, t: real, i: nat)
    requires Clamped(lim) && op.Ingest? && t <= op.now && Sound(lim, st.sessions, t) && i < |st.sessions|
    ensures
      var s, after := st.sessions[i], Step(lim, st, op);
      && |after.sessions| == |st.sessions| && after.tokens == st.tokens
      && if s.sid == op.sid && s.org == op.org && s.node == op.node && Running(s, op.now)
         then TakesIn(lim, s, after.sessions[i], op.items, op.now) else after.sessions[i] == s
  {
    var ss, s := st.sessions, st.sessions[i];
    SoundParts(lim, ss, t);
    var f := Find(ss, op.sid);
    hide Find;
    if f < |ss| && s.sid == op.sid { SameSid(ss, t, f, i); }
    FedIs(lim, s, op.items, t, op.now);
    hide *;
    ReportIs(lim, st, op);
  }

  lemma ReportIs(lim: Limits, st: State, op: Op)
    requires op.Ingest?
    ensures
      var f, ss := Find(st.sessions, op.sid), st.sessions;
      Step(lim, st, op) == if f < |ss| && ss[f].org == op.org && ss[f].node == op.node then
                             st.(sessions := ss[f := Fed(lim, ss[f], op.items, op.now)])
                           else st
  {
    hide Find, Fed;
  }

  lemma FedIs(lim: Limits, s: Session, items: seq<Item>, t: real, now: real)
    requires Clamped(lim) && Good(lim, s, t) && t <= now
    ensures if Running(s, now) then TakesIn(lim, s, Fed(lim, s, items, now), items, now) else Fed(lim, s, items, now) == s
  {
    hide Good, Heard, Accepted, TakeAll, ComesIn;
    FedHears(lim, s, items, t, now);
    ArrivedReaches(lim, s, now);
    AcceptedIs(Reached(lim, s, now), items, now);
    TakeAllLeaves(Reached(lim, s, now), items, now);
  }

  lemma ArrivedReaches(lim: Limits, s: Session, now: real)
    requires Clamped(lim)
    ensures Arrived(lim, s, now) == Reached(lim, s, now) && Reached(lim, s, now).high == s.high
    ensures Reached(lim, s, now).Live(now) <==> Running(s, now)
  {}

  // ------------------------------------------------------------ what is told

  /** The session is told to its probe as it is, with the time it has left. */
  predicate Told(s: Session, v: EdgeView, now: real) {
    v.sid == s.sid && v.device == s.device && v.ip == s.ip && v.interval == s.interval && v.remaining == s.expiresAt - now > 0.0
  }

  predicate Its(s: Session, org: string, node: string, now: real) {
    s.org == org && s.node == node && Running(s, now)
  }

  /** A probe is told of exactly its running sessions, and how long each may go on. */
  lemma {:induction false} WorkIs(ss: seq<Session>, org: string, node: string, now: real)
    ensures forall v :: v in WorkOf(ss, org, node, now) <==> exists i :: 0 <= i < |ss| && Its(ss[i], org, node, now) && Told(ss[i], v, now)
  {
    if ss != [] {
      var n := |ss| - 1;
      var init := ss[..n];
      WorkIs(init, org, node, now);
      WorkMore(ss, org, node, now);
      hide WorkOf, Its, Told;
      forall v ensures v in WorkOf(ss, org, node, now) <==> exists i :: 0 <= i < |ss| && Its(ss[i], org, node, now) && Told(ss[i], v, now) {
        if i :| 0 <= i < n && Its(ss[i], org, node, now) && Told(ss[i], v, now) {
          assert Its(init[i], org, node, now) && Told(init[i], v, now);
        }
        if i :| 0 <= i < n && Its(init[i], org, node, now) && Told(init[i], v, now) {
          assert Its(ss[i], org, node, now) && Told(ss[i], v, now);
        }
      }
    }
  }

  lemma {:induction false} WorkMore(ss: seq<Session>, org: string, node: string, now: real)
    requires ss != []
    ensures
      var s := ss[|ss|-1];
      forall v :: v in WorkOf(ss, org, node, now)
                  <==> v in WorkOf(ss[..|ss|-1], org, node, now) || (Its(s, org, node, now) && Told(s, v, now))
  {}

  /** A probe that never had a session is at version zero and is told of none, whatever goes on at others. */
  lemma {:induction false} NothingYet(lim: Limits, ops: seq<Op>, org: string, node: string)
    requires forall i :: 0 <= i < |ops| && ops[i].Start? ==> !(ops[i].req.org == org && ops[i].req.node == node)
    ensures
      var st := Run(lim, State([], map[]), ops);
      TokenOf(st.tokens, org, node) == 0 && forall i :: 0 <= i < |st.sessions| ==> !st.sessions[i].Is(org, node)
  {
    hide Step;
    if ops != [] {
      var n := |ops| - 1;
      NothingYet(lim, ops[..n], org, node);
      StillNothing(lim, Run(lim, State([], map[]), ops[..n]), ops[n], org, node);
    }
  }

  lemma StillNothing(lim: Limits, st: State, op: Op, org: string, node: string)
    requires TokenOf(st.tokens, org, node) == 0 && forall i :: 0 <= i < |st.sessions| ==> !st.sessions[i].Is(org, node)
    requires op.Start? ==> !(op.req.org == org && op.req.node == node)
    ensures
      var after := Step(lim, st, op);
      TokenOf(after.tokens, org, node) == 0 && forall i :: 0 <= i < |after.sessions| ==> !after.sessions[i].Is(org, node)
  {
    hide Reap, ReapTokens, Find, FindLive, LiveCount, PickUpAll, Fed, Refuses;
    NothingReaped(st.sessions, st.tokens, op.now, org, node);
    match op
    case Start(_, _, _) =>
    case Stop(_, _, _, _, _, _) => NothingStopped(Reaped(st, op.now), op, org, node);
    case Ingest(_, _, _, _, _) => NothingFed(lim, st, op, org, node);
    case PickUp(_, _, _) => PollReaches(lim, st.sessions, op.org, op.node, op.now);
    case Look(_) =>
  }

  lemma NothingStopped(r: State, op: Op, org: string, node: string)
    requires op.Stop? && TokenOf(r.tokens, org, node) == 0 && forall i :: 0 <= i < |r.sessions| ==> !r.sessions[i].Is(org, node)
    ensures
      TokenOf(Halted(r, op).tokens, org, node) == 0 && forall i :: 0 <= i < |Halted(r, op).sessions| ==> !Halted(r, op).sessions[i].Is(org, node)
  {
    hide Find;
  }

  lemma NothingFed(lim: Limits, st: State, op: Op, org: string, node: string)
    requires op.Ingest? && forall i :: 0 <= i < |st.sessions| ==> !st.sessions[i].Is(org, node)
    ensures
      var after := Step(lim, st, op);
      after.tokens == st.tokens && forall i :: 0 <= i < |after.sessions| ==> !after.sessions[i].Is(org, node)
  {
    hide Find, Fed;
    var f := Find(st.sessions, op.sid);
    if f < |st.sessions| { FedNames(lim, st.sessions[f], op.items, op.now); }
  }

  lemma FedNames(lim: Limits, s: Session, items: seq<Item>, now: real)
    ensures Fed(lim, s, items, now).org == s.org && Fed(lim, s, items, now).node == s.node
  {
    hide TakeAll;
    TakeAllLeaves(Arrived(lim, s, now), items, now);
  }

  lemma {:induction false} NothingReaped(ss: seq<Session>, tokens: Tokens, now: real, org: string, node: string)
    requires forall i :: 0 <= i < |ss| ==> !ss[i].Is(org, node)
    ensures TokenOf(ReapTokens(ss, tokens, now), org, node) == TokenOf(tokens, org, node)
    ensures forall i :: 0 <= i < |Reap(ss, now)| ==> !Reap(ss, now)[i].Is(org, node)
  {
    if ss != [] { NothingReaped(ss[..|ss|-1], tokens, now, org, node); }
  }

  /** A read returns the samples held that are past the cursor, in the order they are held. */
  lemma {:induction false} AfterIs(samples: seq<Sample>, cursor: int)
    ensures forall x :: x in After(samples, cursor) <==> x in samples && x.no > cursor
    ensures (forall i, k :: 0 <= i < k < |samples| ==> samples[i].no < samples[k].no)
            ==> forall i, k :: 0 <= i < k < |After(samples, cursor)| ==> After(samples, cursor)[i].no < After(samples, cursor)[k].no
  {
    if samples != [] {
      var n := |samples| - 1;
      AfterIs(samples[..n], cursor);
      assert samples == samples[..n] + [samples[n]];
      var init := After(samples[..n], cursor);
      assert forall i :: 0 <= i < |init| ==> init[i] in samples[..n];
    }
  }

  // --------------------------------------------------------------- every run

  /** The session came from a start in the run, and is as that start asked for it. */
  ghost predicate StartedBy(lim: Limits, s: Session, op: Op) {
    && op.Start? && op.sid == s.sid && op.now == s.startedAt
    && s.org == op.req.org && s.node == op.req.node && s.device == op.req.device && s.ip == op.req.ip
    && s.infra == op.req.infra && s.startedBy == op.req.who
    && s.interval == (if op.req.infra then lim.infraInterval else lim.interval)
  }

  /** The operation is word from the session's own probe: a poll, or a report on it. */
  predicate Word(s: Session, op: Op) {
    (op.PickUp? && op.org == s.org && op.node == s.node) || (op.Ingest? && op.org == s.org && op.node == s.node && op.sid == s.sid)
  }

  /** The operation is a stop of the session that took effect. */
  predicate StoppedBy(s: Session, op: Op) {
    && op.Stop? && op.sid == s.sid && op.org == s.org && (op.asNode.None? || op.asNode.value == s.node)
    && s.stoppedAt == Some(op.now) && s.reason == Some(op.reason) && s.detail == op.detail
  }

  /** How the session came to be as it is, by an operation or, stopped, by its deadline. */
  ghost predicate Accounted(lim: Limits, s: Session, ops: seq<Op>) {
    && (exists i :: 0 <= i < |ops| && StartedBy(lim, s, ops[i]))
    && (s.pickedUpAt.Some? ==> exists i :: 0 <= i < |ops| && Word(s, ops[i]) && ops[i].now == s.pickedUpAt.value)
    && (s.stoppedAt.Some? ==>
          || (s.reason == Some(Expired) && s.stoppedAt == Some(s.expiresAt) && s.detail.None?)
          || exists i :: 0 <= i < |ops| && StoppedBy(s, ops[i]))
  }

  /** What a step may do to a session, told by its fields. */
  ghost predicate Moves(lim: Limits, a: Session, b: Session, op: Op) {
    && b.sid == a.sid && b.org == a.org && b.node == a.node && b.device == a.device && b.ip == a.ip
    && b.infra == a.infra && b.startedBy == a.startedBy && b.interval == a.interval && b.startedAt == a.startedAt
    && (b.pickedUpAt == a.pickedUpAt || (Word(b, op) && b.pickedUpAt == Some(op.now)))
    && (a.stoppedAt.Some? ==> b.expiresAt == a.expiresAt)
    && ((b.stoppedAt == a.stoppedAt && b.reason == a.reason && b.detail == a.detail)
        || (b.reason == Some(Expired) && b.stoppedAt == Some(b.expiresAt) && b.detail == a.detail && a.stoppedAt.None?)
        || StoppedBy(b, op))
    && (b.stoppedAt.None? ==> b.detail == a.detail)
  }

  lemma MovesAccounted(lim: Limits, a: Session, b: Session, ops: seq<Op>, op: Op)
    requires Accounted(lim, a, ops) && Moves(lim, a, b, op) && (a.stoppedAt.None? ==> a.detail.None?)
    ensures Accounted(lim, b, ops + [op])
  {
    var all := ops + [op];
    assert all[|ops|] == op;
    forall i | 0 <= i < |ops| ensures all[i] == ops[i] {}
    var i :| 0 <= i < |ops| && StartedBy(lim, a, ops[i]);
    assert StartedBy(lim, b, all[i]);
    if a.pickedUpAt.Some? {
      var k :| 0 <= k < |ops| && Word(a, ops[k]) && ops[k].now == a.pickedUpAt.value;
      assert Word(b, all[k]);
    }
    if a.stoppedAt.Some? && exists k :: 0 <= k < |ops| && StoppedBy(a, ops[k]) {
      var k :| 0 <= k < |ops| && StoppedBy(a, ops[k]);
      assert b.stoppedAt == a.stoppedAt && b.reason == a.reason && b.detail == a.detail ==> StoppedBy(b, all[k]);
    }
  }

  lemma StepMoves(lim: Limits, st: State, op: Op, t: real, k: nat) returns (i: nat)
    requires Clamped(lim) && Sound(lim, st.sessions, t) && t <= op.now && k < |Step(lim, st, op).sessions|
    requires forall j :: 0 <= j < |st.sessions| && st.sessions[j].stoppedAt.None? ==> st.sessions[j].detail.None?
    ensures i <= |st.sessions|
    ensures i < |st.sessions| ==> Moves(lim, st.sessions[i], Step(lim, st, op).sessions[k], op)
    ensures i == |st.sessions| ==> op.Start? && JustOpened(lim, Step(lim, st, op).sessions[k], op.req, op.sid, op.now)
  {
    hide Step, Reap, Sound;
    var ss, after := st.sessions, Step(lim, st, op).sessions;
    match op
    case Start(req, sid, now) =>
      StartOpens(lim, st, req, sid, now);
      if k < |Reap(ss, now)| { i := ReapMoves(lim, ss, op, k); } else { i := |ss|; }
    case Stop(_, _, _, _, _, now) =>
      ReapSound(lim, ss, t, now);
      NamesApart(lim, Reap(ss, now), now);
      StopLength(lim, st, op);
      StopEnds(lim, st, op, k);
      i := ReapMoves(lim, ss, op, k);
    case Ingest(_, _, _, _, _) =>
      i := k;
      IngestLength(lim, st, op);
      ReportTakesIn(lim, st, op, t, k);
    case PickUp(org, node, now) =>
      i := k;
      PollIs(lim, st, op);
      PollReaches(lim, ss, org, node, now);
    case Look(now) =>
      LookIs(lim, st, now);
      i := ReapMoves(lim, ss, op, k);
  }

  lemma LookIs(lim: Limits, st: State, now: real)
    ensures Step(lim, st, Look(now)) == Reaped(st, now)
  {}

  lemma {:induction false} PollIs(lim: Limits, st: State, op: Op)
    requires op.PickUp?
    ensures Step(lim, st, op) == st.(sessions := PickUpAll(lim, st.sessions, op.org, op.node, op.now))
  {}

  lemma StopLength(lim: Limits, st: State, op: Op)
    requires op.Stop?
    ensures |Step(lim, st, op).sessions| == |Reap(st.sessions, op.now)|
  {
    hide Find, Reap;
  }

  lemma IngestLength(lim: Limits, st: State, op: Op)
    requires op.Ingest?
    ensures |Step(lim, st, op).sessions| == |st.sessions|
  {
    hide Find, Fed;
  }

  lemma NamesApart(lim: Limits, ss: seq<Session>, t: real)
    requires Sound(lim, ss, t)
    ensures forall j, k :: 0 <= j < k < |ss| ==> ss[j].sid != ss[k].sid
  {
    hide Good, Capped;
    forall j, k | 0 <= j < k < |ss| ensures ss[j].sid != ss[k].sid { assert Before(ss[j], ss[k], t); }
  }

  /** A reaped session, before the rest of the operation. */
  lemma ReapMoves(lim: Limits, ss: seq<Session>, op: Op, k: nat) returns (i: nat)
    requires k < |Reap(ss, op.now)|
    ensures i < |ss| && Reap(ss, op.now)[k] == Ripe(ss[i], op.now) && Moves(lim, ss[i], Reap(ss, op.now)[k], Look(op.now))
    ensures Moves(lim, ss[i], Reap(ss, op.now)[k], op)
  {
    hide Reap;
    var at := ReapIs(ss, op.now);
    i := at[k];
  }

  /**
   From an empty hub, over any run: every session listed was started in the run and is as it was
   asked for; whoever was heard first at some moment was heard then from its own probe; and what
   has stopped stopped at its deadline, as expired, or by a stop that named it, then and for that
   reason.
   */
  lemma {:induction false} EverySessionAccounted(lim: Limits, ops: seq<Op>, t: real, k: nat)
    requires Clamped(lim) && Lawful([], ops, t) && k < |Run(lim, State([], map[]), ops).sessions|
    ensures Accounted(lim, Run(lim, State([], map[]), ops).sessions[k], ops)
    ensures Run(lim, State([], map[]), ops).sessions[k].stoppedAt.None? ==> Run(lim, State([], map[]), ops).sessions[k].detail.None?
  {
    hide Step, Sound, Accounted, Moves;
    if ops != [] {
      var n := |ops| - 1;
      var init, op := ops[..n], ops[n];
      var mid, u := Run(lim, State([], map[]), init), EndTime(init, t);
      EmptyIsSound(lim, t);
      RunsAreSound(lim, State([], map[]), init, t);
      forall j | 0 <= j < |mid.sessions|
        ensures Accounted(lim, mid.sessions[j], init)
        ensures mid.sessions[j].stoppedAt.None? ==> mid.sessions[j].detail.None?
      {
        EverySessionAccounted(lim, init, t, j);
      }
      var i := StepMoves(lim, mid, op, u, k);
      var s := Step(lim, mid, op).sessions[k];
      assert init + [op] == ops;
      if i < |mid.sessions| {
        MovesAccounted(lim, mid.sessions[i], s, init, op);
        MovesDetail(lim, mid.sessions[i], s, op);
      } else {
        OpenedAccounted(lim, s, ops, op);
      }
    }
  }

  lemma MovesDetail(lim: Limits, a: Session, b: Session, op: Op)
    requires Moves(lim, a, b, op)
    ensures b.stoppedAt.None? ==> a.stoppedAt.None? && b.detail == a.detail
  {}

  lemma OpenedAccounted(lim: Limits, s: Session, ops: seq<Op>, op: Op)
    requires ops != [] && op == ops[|ops|-1] && op.Start? && JustOpened(lim, s, op.req, op.sid, op.now)
    ensures Accounted(lim, s, ops) && s.detail.None?
  {
    assert StartedBy(lim, s, ops[|ops|-1]);
  }
}
