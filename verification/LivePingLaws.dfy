/**
 What holds over every run of the live-ping hub, whatever the order of the calls, as long as
 the clock never goes back and no session name is drawn twice.
 */
module LivePingLaws {
  import opened Options
  import opened LivePing

  predicate Clamped(lim: Limits) {
    lim.maxS >= 5 && 200 <= lim.interval <= lim.infraInterval && lim.maxPerOrg >= 1
  }

  predicate Rising(samples: seq<Sample>, high: int) {
    && (forall i, k :: 0 <= i < k < |samples| ==> samples[i].no < samples[k].no)
    && (forall i :: 0 <= i < |samples| ==> samples[i].no <= high)
  }

  /** A session never heard of lasts as long as it takes to arm; one heard of, its budget from then on. */
  function Deadline(lim: Limits, s: Session): real {
    if s.pickedUpAt.Some? then s.pickedUpAt.value + lim.maxS as real else s.startedAt + 180.0
  }

  /** What is always true of one session at time `t`. */
  predicate Good(lim: Limits, s: Session, t: real) {
    && s.startedAt <= t
    && s.expiresAt == Deadline(lim, s)
    && (s.pickedUpAt.Some? ==> s.startedAt <= s.pickedUpAt.value < s.startedAt + ARM_S && s.pickedUpAt.value <= t)
    && s.expiresAt <= s.startedAt + ARM_S + lim.maxS as real
    && (s.stoppedAt.Some? <==> s.reason.Some?)
    && (s.stoppedAt.Some? ==> s.startedAt <= s.stoppedAt.value <= s.expiresAt && s.stoppedAt.value <= t)
    && s.startedAt <= s.expiresAt
    && Rising(s.samples, s.high) && |s.samples| <= RING && |s.samples| <= s.sent && s.lost <= s.sent
    && (|s.samples| < RING ==> s.sent == |s.samples|)
  }

  /** `a` was opened before `b`, under another name, and was over by then if it watched the same device. */
  predicate Before(a: Session, b: Session, t: real) {
    && a.sid != b.sid
    && a.startedAt <= b.startedAt
    && (a.org == b.org && a.device == b.device ==> !a.Live(t))
  }

  predicate InOrder(ss: seq<Session>, t: real) {
    forall i, k :: 0 <= i < k < |ss| ==> Before(ss[i], ss[k], t)
  }

  ghost predicate Capped(lim: Limits, ss: seq<Session>, t: real) {
    forall org :: LiveCount(ss, org, t) <= lim.maxPerOrg
  }

  /** The hub's safety at time `t`. */
  ghost predicate Sound(lim: Limits, ss: seq<Session>, t: real) {
    && InOrder(ss, t)
    && (forall i :: 0 <= i < |ss| ==> Good(lim, ss[i], t))
    && Capped(lim, ss, t)
  }

  /** What any operation leaves of a session `a` of time `t`, as `b` at time `now`. */
  predicate Follows(a: Session, b: Session, t: real, now: real) {
    && a.sid == b.sid && a.org == b.org && a.node == b.node && a.device == b.device && a.startedAt == b.startedAt
    && (b.Live(now) ==> a.Live(t))
    && (a.stoppedAt.Some? ==> b.stoppedAt == a.stoppedAt && b.reason == a.reason && b.detail == a.detail)
    && (a.pickedUpAt.Some? ==> b.pickedUpAt == a.pickedUpAt && b.expiresAt == a.expiresAt)
  }

  /** Nothing was heard from the probe in between. */
  predicate Quiet(a: Session, b: Session) {
    a.samples == b.samples && a.high == b.high && a.sent == b.sent && a.lost == b.lost
  }

  predicate FollowAll(lim: Limits, a: seq<Session>, b: seq<Session>, t: real, now: real) {
    |a| == |b| && forall i :: 0 <= i < |a| ==> Follows(a[i], b[i], t, now) && Good(lim, b[i], now)
  }

  // ------------------------------------------------------- one session's step

  lemma ExpireFollows(lim: Limits, s: Session, t: real, now: real)
    requires Good(lim, s, t) && t <= now
    ensures Good(lim, Expire(s, now), now) && Follows(s, Expire(s, now), t, now)
    ensures Expire(s, now).Live(now) == s.Live(now) && (s.Live(now) ==> s.Readable(now))
    ensures Expire(s, now).stoppedAt.None? ==> s.Live(now)
  {}

  lemma ArrivedFollows(lim: Limits, s: Session, t: real, now: real)
    requires Clamped(lim) && Good(lim, s, t) && t <= now
    ensures Good(lim, Arrived(lim, s, now), now) && Follows(s, Arrived(lim, s, now), t, now)
    ensures Arrived(lim, s, now).stoppedAt == s.stoppedAt
  {}

  lemma TakeGood(lim: Limits, s: Session, item: Item, now: real)
    requires Good(lim, s, now)
    ensures Good(lim, Take(s, item, now), now) && Follows(s, Take(s, item, now), now, now)
  {
    if Accepts(s, item) {
      var x := Sample(item.no, Believed(item.rtt));
      var ring := Push(s.samples, x);
      assert forall i :: 0 <= i < |ring| - 1 ==> ring[i] == s.samples[if |s.samples| < RING then i else i + 1];
      assert ring[|ring|-1] == x;
      assert Rising(ring, item.no);
    }
  }

  lemma {:induction false} TakeAllGood(lim: Limits, s: Session, items: seq<Item>, now: real)
    requires Good(lim, s, now)
    ensures Good(lim, TakeAll(s, items, now), now) && Follows(s, TakeAll(s, items, now), now, now)
    ensures TakeAll(s, items, now).stoppedAt == s.stoppedAt && TakeAll(s, items, now).expiresAt == s.expiresAt
  {
    hide Good;
    if items != [] {
      TakeAllGood(lim, s, items[..|items|-1], now);
      TakeGood(lim, TakeAll(s, items[..|items|-1], now), items[|items|-1], now);
    }
  }

  lemma FedFollows(lim: Limits, s: Session, items: seq<Item>, t: real, now: real)
    requires Clamped(lim) && Good(lim, s, t) && t <= now
    ensures Good(lim, Fed(lim, s, items, now), now) && Follows(s, Fed(lim, s, items, now), t, now)
    ensures Fed(lim, s, items, now).stoppedAt == s.stoppedAt
  {
    hide Good, TakeAll;
    ArrivedFollows(lim, s, t, now);
    TakeAllGood(lim, Arrived(lim, s, now), items, now);
  }

  lemma HaltFollows(lim: Limits, s: Session, now: real, reason: Reason, detail: Option<string>)
    requires Good(lim, s, now) && s.Live(now)
    ensures Good(lim, Halt(s, now, reason, detail), now) && Follows(s, Halt(s, now, reason, detail), now, now)
  {}

  lemma WaitFollows(lim: Limits, s: Session, t: real, now: real)
    requires Good(lim, s, t) && t <= now
    ensures Good(lim, s, now) && Follows(s, s, t, now)
  {}

  // --------------------------------------------------------- the whole list

  lemma {:induction false} CountFollows(lim: Limits, a: seq<Session>, b: seq<Session>, org: string, t: real, now: real)
    requires FollowAll(lim, a, b, t, now)
    ensures LiveCount(b, org, now) <= LiveCount(a, org, t)
  {
    hide Good;
    if a != [] { CountFollows(lim, a[..|a|-1], b[..|b|-1], org, t, now); }
  }

  lemma SoundFollows(lim: Limits, a: seq<Session>, b: seq<Session>, t: real, now: real)
    requires Sound(lim, a, t) && FollowAll(lim, a, b, t, now)
    ensures Sound(lim, b, now)
  {
    hide Good, LiveCount;
    forall org ensures LiveCount(b, org, now) <= LiveCount(a, org, t) { CountFollows(lim, a, b, org, t, now); }
    forall i, k | 0 <= i < k < |b| ensures Before(b[i], b[k], now) {
      assert Before(a[i], a[k], t) && Follows(a[i], b[i], t, now) && Follows(a[k], b[k], t, now);
    }
  }

  lemma {:induction false} ReapLast(ss: seq<Session>, now: real)
    requires ss != []
    ensures
      var n, s := |ss| - 1, Expire(ss[|ss|-1], now);
      Reap(ss, now) == (if s.Readable(now) then Reap(ss[..n], now) + [s] else Reap(ss[..n], now))
  {}

  /** Every session reaping leaves was there before, and follows what it was. */
  lemma {:induction false} ReapFrom(lim: Limits, ss: seq<Session>, k: nat, t: real, now: real) returns (i: nat)
    requires t <= now && forall i :: 0 <= i < |ss| ==> Good(lim, ss[i], t)
    requires k < |Reap(ss, now)|
    ensures i < |ss| && Follows(ss[i], Reap(ss, now)[k], t, now) && Quiet(ss[i], Reap(ss, now)[k])
    ensures Good(lim, Reap(ss, now)[k], now) && !Overdue(Reap(ss, now)[k], now)
  {
    hide Good, Follows, Reap;
    if ss == [] {
      i := 0;
      assert Reap(ss, now) == [] by { ReapEmpty(now); }
    } else {
      var n := |ss| - 1;
      ReapLast(ss, now);
      if k < |Reap(ss[..n], now)| {
        i := ReapFrom(lim, ss[..n], k, t, now);
      } else {
        i := n;
        ExpireFollows(lim, ss[n], t, now);
      }
    }
  }

  lemma {:induction false} ReapEmpty(now: real)
    ensures Reap([], now) == []
  {}

  lemma {:induction false} ReapInOrder(lim: Limits, ss: seq<Session>, t: real, now: real)
    requires t <= now && InOrder(ss, t) && forall i :: 0 <= i < |ss| ==> Good(lim, ss[i], t)
    ensures InOrder(Reap(ss, now), now)
  {
    hide Good, Reap;
    if ss == [] {
      ReapEmpty(now);
    } else {
      var n := |ss| - 1;
      ReapLast(ss, now);
      ReapInOrder(lim, ss[..n], t, now);
      var init := Reap(ss[..n], now);
      forall k | 0 <= k < |init| ensures Before(init[k], Expire(ss[n], now), now) {
        var i := ReapFrom(lim, ss[..n], k, t, now);
        assert Before(ss[i], ss[n], t);
      }
    }
  }

  lemma {:induction false} CountLast(ss: seq<Session>, s: Session, org: string, now: real)
    ensures LiveCount(ss + [s], org, now) == LiveCount(ss, org, now) + (if s.org == org && s.Live(now) then 1 else 0)
  {
    assert (ss + [s])[..|ss|] == ss;
  }

  lemma {:induction false} ReapCount(lim: Limits, ss: seq<Session>, org: string, t: real, now: real)
    requires t <= now && forall i :: 0 <= i < |ss| ==> Good(lim, ss[i], t)
    ensures LiveCount(Reap(ss, now), org, now) <= LiveCount(ss, org, t)
  {
    hide Good, Reap;
    if ss == [] {
      ReapEmpty(now);
    } else {
      var n := |ss| - 1;
      ReapLast(ss, now);
      ReapCount(lim, ss[..n], org, t, now);
      ExpireFollows(lim, ss[n], t, now);
      CountLast(Reap(ss[..n], now), Expire(ss[n], now), org, now);
      CountLast(ss[..n], ss[n], org, t);
      assert ss[..n] + [ss[n]] == ss;
    }
  }

  lemma {:induction false} ReapSound(lim: Limits, ss: seq<Session>, t: real, now: real)
    requires Sound(lim, ss, t) && t <= now
    ensures Sound(lim, Reap(ss, now), now)
    ensures forall k :: 0 <= k < |Reap(ss, now)| ==> !Overdue(Reap(ss, now)[k], now)
  {
    hide Good, LiveCount, Reap;
    ReapInOrder(lim, ss, t, now);
    var rs := Reap(ss, now);
    forall k | 0 <= k < |rs| ensures Good(lim, rs[k], now) && !Overdue(rs[k], now) {
      var i := ReapFrom(lim, ss, k, t, now);
    }
    forall org ensures LiveCount(rs, org, now) <= LiveCount(ss, org, t) { ReapCount(lim, ss, org, t, now); }
  }

  lemma OpenedSound(lim: Limits, r: State, req: Request, sid: string, now: real)
    requires Clamped(lim) && Sound(lim, r.sessions, now) && forall i :: 0 <= i < |r.sessions| ==> r.sessions[i].sid != sid
    ensures Sound(lim, Opened(lim, r, req, sid, now).sessions, now)
  {
    var ss := r.sessions;
    var s := Fresh(lim, req, sid, now);
    if Opened(lim, r, req, sid, now) != r {
      var more := ss + [s];
      assert Good(lim, s, now);
      assert more[..|ss|] == ss;
      forall org ensures LiveCount(more, org, now) <= lim.maxPerOrg {
        assert LiveCount(ss, org, now) <= lim.maxPerOrg;
      }
    }
  }

  lemma HaltedSound(lim: Limits, r: State, op: Op)
    requires op.Stop? && Sound(lim, r.sessions, op.now)
    requires forall i :: 0 <= i < |r.sessions| ==> !Overdue(r.sessions[i], op.now)
    ensures FollowAll(lim, r.sessions, Halted(r, op).sessions, op.now, op.now)
    ensures Sound(lim, Halted(r, op).sessions, op.now)
  {
    hide Good, LiveCount;
    var ss, after := r.sessions, Halted(r, op).sessions;
    forall i | 0 <= i < |ss| ensures Follows(ss[i], after[i], op.now, op.now) && Good(lim, after[i], op.now) {
      if after[i] == ss[i] { WaitFollows(lim, ss[i], op.now, op.now); }
      else { HaltFollows(lim, ss[i], op.now, op.reason, op.detail); }
    }
    SoundFollows(lim, ss, after, op.now, op.now);
  }

  // -------------------------------------------------------------- every step

  predicate Known(ss: seq<Session>, sid: string) {
    exists i :: 0 <= i < |ss| && ss[i].sid == sid
  }

  /** A start draws a name no session here has. */
  predicate NewName(ss: seq<Session>, op: Op) {
    op.Start? ==> !Known(ss, op.sid)
  }

  lemma {:induction false} PickUpFollows(lim: Limits, ss: seq<Session>, org: string, node: string, t: real, now: real)
    requires Clamped(lim) && t <= now && forall i :: 0 <= i < |ss| ==> Good(lim, ss[i], t)
    ensures FollowAll(lim, ss, PickUpAll(lim, ss, org, node, now), t, now)
    ensures forall i :: 0 <= i < |ss| ==> PickUpAll(lim, ss, org, node, now)[i].stoppedAt == ss[i].stoppedAt
                                          && PickUpAll(lim, ss, org, node, now)[i].node == ss[i].node
  {
    hide Good, Follows;
    if ss != [] {
      var n := |ss| - 1;
      PickUpFollows(lim, ss[..n], org, node, t, now);
      ArrivedFollows(lim, ss[n], t, now);
      WaitFollows(lim, ss[n], t, now);
    }
  }

  lemma IngestFollows(lim: Limits, st: State, op: Op, t: real)
    requires Clamped(lim) && op.Ingest? && t <= op.now && forall i :: 0 <= i < |st.sessions| ==> Good(lim, st.sessions[i], t)
    ensures FollowAll(lim, st.sessions, Step(lim, st, op).sessions, t, op.now)
  {
    hide Good, Follows, Find, Fed;
    var ss, after := st.sessions, Step(lim, st, op).sessions;
    forall i | 0 <= i < |ss| ensures Follows(ss[i], after[i], t, op.now) && Good(lim, after[i], op.now) {
      WaitFollows(lim, ss[i], t, op.now);
      FedFollows(lim, ss[i], op.items, t, op.now);
    }
  }

  lemma StepSound(lim: Limits, st: State, op: Op, t: real)
    requires Clamped(lim) && Sound(lim, st.sessions, t) && t <= op.now && NewName(st.sessions, op)
    ensures Sound(lim, Step(lim, st, op).sessions, op.now)
  {
    hide Sound, Good, FollowAll, Opened, Halted, Reap, PickUpAll, InOrder, Capped;
    var ss := st.sessions;
    SoundParts(lim, ss, t);
    match op
    case Start(req, sid, now) =>
      ReapSound(lim, ss, t, now);
      var r := Reaped(st, now);
      forall k | 0 <= k < |r.sessions| ensures r.sessions[k].sid != sid {
        var i := ReapFrom(lim, ss, k, t, now);
        assert Known(ss, ss[i].sid);
      }
      OpenedSound(lim, r, req, sid, now);
    case Stop(_, _, _, _, _, now) =>
      ReapSound(lim, ss, t, now);
      HaltedSound(lim, Reaped(st, now), op);
    case Ingest(org, node, sid, items, now) =>
      IngestFollows(lim, st, op, t);
      SoundFollows(lim, ss, Step(lim, st, op).sessions, t, now);
    case PickUp(org, node, now) =>
      PickUpFollows(lim, ss, org, node, t, now);
      SoundFollows(lim, ss, Step(lim, st, op).sessions, t, now);
    case Look(now) =>
      ReapSound(lim, ss, t, now);
  }

  lemma SoundParts(lim: Limits, ss: seq<Session>, t: real)
    requires Sound(lim, ss, t)
    ensures forall i :: 0 <= i < |ss| ==> Good(lim, ss[i], t)
    ensures InOrder(ss, t)
  {
    hide Good, InOrder, Capped;
  }

  /** Where the session at `k` after a step comes from: it was opened by the step, or follows one from before. */
  lemma StepFrom(lim: Limits, st: State, op: Op, t: real, k: nat) returns (i: nat)
    requires Clamped(lim) && Sound(lim, st.sessions, t) && t <= op.now && k < |Step(lim, st, op).sessions|
    ensures
      var s := Step(lim, st, op).sessions[k];
      i == |st.sessions| ==> op.Start? && s == Fresh(lim, op.req, op.sid, op.now)
    ensures
      i < |st.sessions| ==> Follows(st.sessions[i], Step(lim, st, op).sessions[k], t, op.now)
    ensures i <= |st.sessions|
  {
    hide Sound, Good, Reap, PickUpAll, InOrder, Capped, Follows, Fresh, Find, Fed, Halt, Refuses, FindLive, LiveCount;
    var ss := st.sessions;
    SoundParts(lim, ss, t);
    match op
    case Start(req, sid, now) =>
      if k < |Reap(ss, now)| { i := ReapFrom(lim, ss, k, t, now); }
      else { i := |ss|; }
    case Stop(_, _, _, _, _, now) =>
      ReapSound(lim, ss, t, now);
      HaltedSound(lim, Reaped(st, now), op);
      i := ReapFrom(lim, ss, k, t, now);
      FollowsOn(ss[i], Reap(ss, now)[k], Step(lim, st, op).sessions[k], t, now, now);
    case Ingest(org, node, sid, items, now) =>
      IngestFollows(lim, st, op, t);
      i := k;
    case PickUp(org, node, now) =>
      PickUpFollows(lim, ss, org, node, t, now);
      i := k;
    case Look(now) =>
      i := ReapFrom(lim, ss, k, t, now);
  }

  lemma FollowsOn(a: Session, b: Session, c: Session, t: real, u: real, v: real)
    requires Follows(a, b, t, u) && Follows(b, c, u, v)
    ensures Follows(a, c, t, v)
  {}

  // --------------------------------------------------------------- every run

  /** No name is drawn twice, nor one already taken. */
  predicate OwnNames(ss: seq<Session>, ops: seq<Op>) {
    && (forall i :: 0 <= i < |ops| ==> NewName(ss, ops[i]))
    && (forall i, k :: 0 <= i < k < |ops| && ops[i].Start? && ops[k].Start? ==> ops[i].sid != ops[k].sid)
  }

  predicate Lawful(ss: seq<Session>, ops: seq<Op>, t: real) {
    Clocked(ops, t) && OwnNames(ss, ops)
  }

  lemma {:induction false} RunsAreSound(lim: Limits, st: State, ops: seq<Op>, t: real)
    requires Clamped(lim) && Sound(lim, st.sessions, t) && Lawful(st.sessions, ops, t)
    ensures Sound(lim, Run(lim, st, ops).sessions, EndTime(ops, t))
    ensures forall k :: 0 <= k < |Run(lim, st, ops).sessions| ==>
              Known(st.sessions, Run(lim, st, ops).sessions[k].sid)
              || exists i :: 0 <= i < |ops| && ops[i].Start? && ops[i].sid == Run(lim, st, ops).sessions[k].sid
  {
    hide Sound, Step, Follows, Fresh;
    if ops != [] {
      var n := |ops| - 1;
      var init, op := ops[..n], ops[n];
      RunsAreSound(lim, st, init, t);
      var mid := Run(lim, st, init);
      assert NewName(mid.sessions, op);
      StepSound(lim, mid, op, EndTime(init, t));
      forall k | 0 <= k < |Step(lim, mid, op).sessions|
        ensures Known(st.sessions, Step(lim, mid, op).sessions[k].sid)
                || exists i :: 0 <= i < |ops| && ops[i].Start? && ops[i].sid == Step(lim, mid, op).sessions[k].sid
      {
        var i := StepFrom(lim, mid, op, EndTime(init, t), k);
        SameName(lim, mid.sessions, i, op, Step(lim, mid, op).sessions[k], EndTime(init, t));
      }
    }
  }

  lemma SameName(lim: Limits, ss: seq<Session>, i: nat, op: Op, s: Session, t: real)
    requires i <= |ss|
    requires i == |ss| ==> op.Start? && s == Fresh(lim, op.req, op.sid, op.now)
    requires i < |ss| ==> Follows(ss[i], s, t, op.now)
    ensures i == |ss| ==> s.sid == op.sid
    ensures i < |ss| ==> s.sid == ss[i].sid
  {}

  /** A session found after a run is one from before it, moved on, or bears a name drawn during it. */
  lemma {:induction false} RunFrom(lim: Limits, st: State, ops: seq<Op>, t: real, k: nat) returns (i: nat)
    requires Clamped(lim) && Sound(lim, st.sessions, t) && Lawful(st.sessions, ops, t) && k < |Run(lim, st, ops).sessions|
    ensures i <= |st.sessions|
    ensures i < |st.sessions| ==> Follows(st.sessions[i], Run(lim, st, ops).sessions[k], t, EndTime(ops, t))
    ensures i == |st.sessions| ==> !Known(st.sessions, Run(lim, st, ops).sessions[k].sid)
  {
    hide Sound, Good, Step, Follows;
    if ops == [] {
      i := k;
      SoundParts(lim, st.sessions, t);
      WaitFollows(lim, st.sessions[k], t, t);
    } else {
      var n := |ops| - 1;
      var init, op := ops[..n], ops[n];
      RunsAreSound(lim, st, init, t);
      var mid := Run(lim, st, init);
      var j := StepFrom(lim, mid, op, EndTime(init, t), k);
      SameName(lim, mid.sessions, j, op, Step(lim, mid, op).sessions[k], EndTime(init, t));
      if j < |mid.sessions| {
        i := RunFrom(lim, st, init, t, j);
        if i < |st.sessions| {
          FollowsOn(st.sessions[i], mid.sessions[j], Step(lim, mid, op).sessions[k], t, EndTime(init, t), op.now);
        }
      } else {
        i := |st.sessions|;
        assert NewName(st.sessions, op);
      }
    }
  }

  /**
   Over any run a session only winds down: once over it is never live again, how it ended is
   never rewritten, and its deadline moves at most once, at first contact.
   */
  lemma {:induction false} OverIsOver(lim: Limits, st: State, ops: seq<Op>, t: real, i: nat, k: nat)
    requires Clamped(lim) && Sound(lim, st.sessions, t) && Lawful(st.sessions, ops, t)
    requires i < |st.sessions| && k < |Run(lim, st, ops).sessions| && st.sessions[i].sid == Run(lim, st, ops).sessions[k].sid
    ensures
      var a, b := st.sessions[i], Run(lim, st, ops).sessions[k];
      && (!a.Live(t) ==> !b.Live(EndTime(ops, t)))
      && (a.stoppedAt.Some? ==> b.stoppedAt == a.stoppedAt && b.reason == a.reason && b.detail == a.detail)
      && (a.pickedUpAt.Some? ==> b.pickedUpAt == a.pickedUpAt && b.expiresAt == a.expiresAt)
      && a.org == b.org && a.node == b.node && a.device == b.device && a.startedAt == b.startedAt
  {
    hide Run, Good, Capped;
    var j := RunFrom(lim, st, ops, t, k);
    assert Known(st.sessions, st.sessions[i].sid);
    assert InOrder(st.sessions, t);
    assert i < j < |st.sessions| ==> Before(st.sessions[i], st.sessions[j], t);
    assert j < i ==> Before(st.sessions[j], st.sessions[i], t);
  }

  /** A session that has gone from the list is gone for good. */
  lemma {:induction false} GoneIsGone(lim: Limits, st: State, ops: seq<Op>, t: real, sid: string)
    requires Clamped(lim) && Sound(lim, st.sessions, t) && Lawful(st.sessions, ops, t)
    requires !Known(st.sessions, sid) && forall i :: 0 <= i < |ops| && ops[i].Start? ==> ops[i].sid != sid
    ensures !Known(Run(lim, st, ops).sessions, sid)
  {
    hide Run, Sound;
    RunsAreSound(lim, st, ops, t);
  }

  /**
   From an empty hub, whatever limits it was asked for, every run leaves at most one live
   session on a device and at most the allowed number in an organisation; a session that was
   not stopped is live exactly until its deadline, its arming time or its budget from first
   contact; and there is a stop time exactly where there is a stop reason.
   */
  lemma {:induction false} EveryRunIsSafe(maxS: int, interval: int, infraInterval: int, maxPerOrg: int, ops: seq<Op>, t: real)
    requires Lawful([], ops, t)
    ensures
      var lim := Clamp(maxS, interval, infraInterval, maxPerOrg);
      var ss, end := Run(lim, State([], map[]), ops).sessions, EndTime(ops, t);
      && (forall i, k :: 0 <= i < k < |ss| && ss[i].Live(end) && ss[k].Live(end) ==>
            !(ss[i].org == ss[k].org && ss[i].device == ss[k].device))
      && (forall i, k :: 0 <= i < k < |ss| ==> ss[i].sid != ss[k].sid)
      && (forall org :: LiveCount(ss, org, end) <= lim.maxPerOrg)
      && (forall i :: 0 <= i < |ss| ==> (ss[i].Live(end) <==> ss[i].stoppedAt.None? && end < Deadline(lim, ss[i])))
      && (forall i :: 0 <= i < |ss| ==> Deadline(lim, ss[i]) <= ss[i].startedAt + 180.0 + lim.maxS as real)
      && (forall i :: 0 <= i < |ss| && ss[i].stoppedAt.Some? ==> ss[i].stoppedAt.value <= Deadline(lim, ss[i]))
      && (forall i :: 0 <= i < |ss| ==> (ss[i].stoppedAt.Some? <==> ss[i].reason.Some?))
      && (forall i :: 0 <= i < |ss| && ss[i].stoppedAt.Some? ==> ss[i].stoppedAt.value <= ss[i].startedAt + ARM_S + lim.maxS as real)
      && Sound(lim, ss, end)
  {
    hide Run, Lawful, LiveCount, Clamp;
    var lim := Clamp(maxS, interval, infraInterval, maxPerOrg);
    ClampIsClamped(maxS, interval, infraInterval, maxPerOrg);
    EmptyIsSound(lim, t);
    RunsAreSound(lim, State([], map[]), ops, t);
    var ss, end := Run(lim, State([], map[]), ops).sessions, EndTime(ops, t);
    forall i, k | 0 <= i < k < |ss| ensures Before(ss[i], ss[k], end) {}
    forall i | 0 <= i < |ss| ensures Good(lim, ss[i], end) {}
  }

  lemma EmptyIsSound(lim: Limits, t: real)
    requires Clamped(lim)
    ensures Sound(lim, [], t)
  {}

  lemma ClampIsClamped(maxS: int, interval: int, infraInterval: int, maxPerOrg: int)
    ensures
      var lim := Clamp(maxS, interval, infraInterval, maxPerOrg);
      && Clamped(lim)
      && lim.maxS == (if maxS < 5 then 5 else maxS) && lim.maxPerOrg == (if maxPerOrg < 1 then 1 else maxPerOrg)
      && lim.interval == (if interval < 200 then 200 else interval)
      && lim.infraInterval == (if infraInterval < lim.interval then lim.interval else infraInterval)
  {}

  // ------------------------------------------------------------ the panel

  predicate On(s: Session, org: string, device: int) {
    s.org == org && s.device == device
  }

  /** The one at `i` started last on the device, and is the first listed of those that did. */
  ghost predicate IsLatest(ss: seq<Session>, org: string, device: int, i: nat) {
    && i < |ss| && On(ss[i], org, device)
    && (forall k :: 0 <= k < |ss| && On(ss[k], org, device) ==> ss[k].startedAt <= ss[i].startedAt)
    && (forall k :: 0 <= k < i && On(ss[k], org, device) ==> ss[k].startedAt < ss[i].startedAt)
  }

  lemma {:induction false} LatestOf(ss: seq<Session>, org: string, device: int) returns (i: nat)
    ensures Latest(ss, org, device).Some? ==> IsLatest(ss, org, device, i) && Latest(ss, org, device) == Some(ss[i])
    ensures Latest(ss, org, device).None? ==> forall k :: 0 <= k < |ss| ==> !On(ss[k], org, device)
  {
    if ss == [] {
      i := 0;
    } else {
      var n := |ss| - 1;
      i := LatestOf(ss[..n], org, device);
      var best := Latest(ss[..n], org, device);
      if On(ss[n], org, device) && (best.None? || ss[n].startedAt > best.value.startedAt) { i := n; }
    }
  }

  /**
   The panel of a device that has a live session shows it exactly when no session still
   listed from before it was started at the very same moment.
   */
  lemma {:induction false} PanelShowsLive(lim: Limits, ss: seq<Session>, t: real, i: nat)
    requires Sound(lim, ss, t) && i < |ss| && ss[i].Live(t)
    ensures Latest(ss, ss[i].org, ss[i].device) == Some(ss[i])
            <==> forall k :: 0 <= k < i && On(ss[k], ss[i].org, ss[i].device) ==> ss[k].startedAt != ss[i].startedAt
  {
    hide Latest, Sound, IsLatest;
    var org, device := ss[i].org, ss[i].device;
    SoundParts(lim, ss, t);
    LiveIsLast(ss, t, i);
    assert On(ss[i], org, device);
    var j := LatestOf(ss, org, device);
    LatestIs(ss, org, device, i, j);
    assert j != i ==> ss[j].sid != ss[i].sid;
  }

  /** A live session is the last listed on its device, and none there started later. */
  lemma LiveIsLast(ss: seq<Session>, t: real, i: nat)
    requires InOrder(ss, t) && i < |ss| && ss[i].Live(t)
    ensures forall k :: 0 <= k < |ss| && On(ss[k], ss[i].org, ss[i].device) ==> k <= i && ss[k].startedAt <= ss[i].startedAt
    ensures forall k :: 0 <= k < |ss| && k != i ==> ss[k].sid != ss[i].sid
  {
    forall k | 0 <= k < |ss| && k != i
      ensures ss[k].sid != ss[i].sid
      ensures On(ss[k], ss[i].org, ss[i].device) ==> k <= i && ss[k].startedAt <= ss[i].startedAt
    {
      assert k < i ==> Before(ss[k], ss[i], t);
      assert i < k ==> Before(ss[i], ss[k], t);
    }
  }

  lemma LatestIs(ss: seq<Session>, org: string, device: int, i: nat, j: nat)
    requires IsLatest(ss, org, device, j) && i < |ss| && On(ss[i], org, device)
    requires forall k :: 0 <= k < |ss| && On(ss[k], org, device) ==> k <= i && ss[k].startedAt <= ss[i].startedAt
    ensures j < |ss| && (j == i <==> forall k :: 0 <= k < i && On(ss[k], org, device) ==> ss[k].startedAt != ss[i].startedAt)
  {
    hide On;
  }

  lemma {:induction false} StaysListed(s: Session, now: real)
    requires !Overdue(s, now) && s.Readable(now)
    ensures Reap([s], now) == [s]
  {
    assert [s][..0] == [];
  }

  lemma StopOnly(lim: Limits, st: State, s: Session, now: real)
    requires st.sessions == [s] && s.Live(now) && s.Readable(now)
    ensures Step(lim, st, Stop(s.sid, s.org, Operator, None, None, now)).sessions == [Halt(s, now, Operator, None)]
  {
    StaysListed(s, now);
  }

  lemma ReopenAfter(lim: Limits, st: State, s: Session, req: Request, sid: string, now: real)
    requires Clamped(lim) && st.sessions == [s] && s.stoppedAt.Some? && s.Readable(now)
    ensures Step(lim, st, Start(req, sid, now)).sessions == [s, Fresh(lim, req, sid, now)]
  {
    hide Reap, ReapTokens, FindLive, LiveCount, Fresh;
    StaysListed(s, now);
    CountLast([], s, req.org, now);
    assert LiveCount([], req.org, now) == 0 by { CountNone(req.org, now); }
    assert [] + [s] == [s];
  }

  lemma {:induction false} CountNone(org: string, now: real)
    ensures LiveCount([], org, now) == 0
  {}

  lemma OpenFirst(lim: Limits, req: Request, sid: string, now: real)
    requires Clamped(lim)
    ensures Step(lim, State([], map[]), Start(req, sid, now)).sessions == [Fresh(lim, req, sid, now)]
  {}

  /** It can fail to: stopped and reopened within one tick of the clock, the panel shows the stopped one. */
  lemma {:induction false} PanelCanMiss(lim: Limits, req: Request)
    requires Clamped(lim)
    ensures
      var ops := [Start(req, "a", 0.0), Stop("a", req.org, Operator, None, None, 0.0), Start(req, "b", 0.0)];
      var ss := Run(lim, State([], map[]), ops).sessions;
      && Lawful([], ops, 0.0)
      && |ss| == 2 && ss[1].Live(0.0) && On(ss[1], req.org, req.device)
      && Latest(ss, req.org, req.device) == Some(ss[0]) && !ss[0].Live(0.0)
  {
    hide Step, Latest;
    var a, b := Fresh(lim, req, "a", 0.0), Fresh(lim, req, "b", 0.0);
    var over := Halt(a, 0.0, Operator, None);
    var op0, op1, op2 := Start(req, "a", 0.0), Stop("a", req.org, Operator, None, None, 0.0), Start(req, "b", 0.0);
    var st0 := State([], map[]);
    OpenFirst(lim, req, "a", 0.0);
    StopOnly(lim, Step(lim, st0, op0), a, 0.0);
    ReopenAfter(lim, Step(lim, Step(lim, st0, op0), op1), over, req, "b", 0.0);
    RunThree(lim, st0, op0, op1, op2);
    var j := LatestOf([over, b], req.org, req.device);
    assert On([over, b][0], req.org, req.device) && On([over, b][1], req.org, req.device);
  }

  lemma {:induction false} RunThree(lim: Limits, st: State, op0: Op, op1: Op, op2: Op)
    ensures Run(lim, st, [op0, op1, op2]) == Step(lim, Step(lim, Step(lim, st, op0), op1), op2)
  {
    RunSnoc(lim, st, [], op0);
    RunSnoc(lim, st, [op0], op1);
    RunSnoc(lim, st, [op0, op1], op2);
    assert [] + [op0] == [op0] && [op0] + [op1] == [op0, op1] && [op0, op1] + [op2] == [op0, op1, op2];
  }

  lemma {:induction false} RunSnoc(lim: Limits, st: State, ops: seq<Op>, op: Op)
    ensures Run(lim, st, ops + [op]) == Step(lim, Run(lim, st, ops), op)
  {
    assert (ops + [op])[..|ops|] == ops;
  }
}
