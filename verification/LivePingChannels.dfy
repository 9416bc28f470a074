/**
 The two channels a live session is read through lose nothing: the probe's versioned set of
 sessions, and the panel's cursor into a session's echoes.
 */
module LivePingChannels {
  import opened Options
  import opened LivePing
  import opened LivePingLaws

  // ------------------------------------------------- the probe's long poll

  /** The sessions of a probe that have not been stopped. */
  function Wanted(ss: seq<Session>, org: string, node: string): seq<string> {
    if ss == [] then []
    else
      var s := ss[|ss|-1];
      Wanted(ss[..|ss|-1], org, node) + (if s.Is(org, node) && s.stoppedAt.None? then [s.sid] else [])
  }

  function Ids(work: seq<EdgeView>): seq<string> {
    seq(|work|, i requires 0 <= i < |work| => work[i].sid)
  }

  lemma {:induction false} WantedLast(ss: seq<Session>, s: Session, org: string, node: string)
    ensures Wanted(ss + [s], org, node) == Wanted(ss, org, node) + (if s.Is(org, node) && s.stoppedAt.None? then [s.sid] else [])
  {
    assert (ss + [s])[..|ss|] == ss;
  }

  lemma {:induction false} WantedSame(a: seq<Session>, b: seq<Session>, org: string, node: string)
    requires |a| == |b|
    requires forall i :: 0 <= i < |a| ==> a[i].sid == b[i].sid && (a[i].Is(org, node) && a[i].stoppedAt.None? <==> b[i].Is(org, node) && b[i].stoppedAt.None?)
    ensures Wanted(a, org, node) == Wanted(b, org, node)
  {
    if a != [] { WantedSame(a[..|a|-1], b[..|b|-1], org, node); }
  }

  /** Reaping never lowers a version, and leaves a probe's set alone unless it raises its version. */
  lemma {:induction false} ReapNews(ss: seq<Session>, tokens: Tokens, now: real, org: string, node: string)
    ensures TokenOf(ReapTokens(ss, tokens, now), org, node) >= TokenOf(tokens, org, node)
    ensures TokenOf(ReapTokens(ss, tokens, now), org, node) == TokenOf(tokens, org, node)
            ==> Wanted(Reap(ss, now), org, node) == Wanted(ss, org, node)
  {
    hide Reap;
    if ss == [] {
      ReapEmpty(now);
    } else {
      var n := |ss| - 1;
      ReapNews(ss[..n], tokens, now, org, node);
      ReapLast(ss, now);
      WantedLast(Reap(ss[..n], now), Expire(ss[n], now), org, node);
    }
  }

  /** No operation changes a probe's set without raising its version, and none lowers it. */
  lemma {:induction false} StepNews(lim: Limits, st: State, op: Op, org: string, node: string)
    ensures TokenOf(Step(lim, st, op).tokens, org, node) >= TokenOf(st.tokens, org, node)
    ensures TokenOf(Step(lim, st, op).tokens, org, node) == TokenOf(st.tokens, org, node)
            ==> Wanted(Step(lim, st, op).sessions, org, node) == Wanted(st.sessions, org, node)
  {
    hide Reap, ReapTokens, Find, FindLive, LiveCount, PickUpAll, Refuses;
    ReapNews(st.sessions, st.tokens, op.now, org, node);
    match op
    case Start(req, sid, now) => OpenNews(lim, Reaped(st, now), req, sid, now, org, node);
    case Stop(_, _, _, _, _, now) => HaltNews(Reaped(st, now), op, org, node);
    case Ingest(o, n, sid, items, now) => IngestNews(lim, st, op, org, node);
    case PickUp(o, n, now) => PickUpNews(lim, st.sessions, o, n, now, org, node);
    case Look(now) =>
  }

  lemma {:induction false} OpenNews(lim: Limits, r: State, req: Request, sid: string, now: real, org: string, node: string)
    ensures TokenOf(Opened(lim, r, req, sid, now).tokens, org, node) >= TokenOf(r.tokens, org, node)
    ensures TokenOf(Opened(lim, r, req, sid, now).tokens, org, node) == TokenOf(r.tokens, org, node)
            ==> Wanted(Opened(lim, r, req, sid, now).sessions, org, node) == Wanted(r.sessions, org, node)
  {
    hide FindLive, LiveCount;
    WantedLast(r.sessions, Fresh(lim, req, sid, now), org, node);
  }

  lemma {:induction false} HaltNews(r: State, op: Op, org: string, node: string)
    requires op.Stop?
    ensures TokenOf(Halted(r, op).tokens, org, node) >= TokenOf(r.tokens, org, node)
    ensures TokenOf(Halted(r, op).tokens, org, node) == TokenOf(r.tokens, org, node)
            ==> Wanted(Halted(r, op).sessions, org, node) == Wanted(r.sessions, org, node)
  {
    hide Find, Wanted;
    if TokenOf(Halted(r, op).tokens, org, node) == TokenOf(r.tokens, org, node) {
      WantedSame(Halted(r, op).sessions, r.sessions, org, node);
    }
  }

  lemma {:induction false} TakeAllKeeps(s: Session, items: seq<Item>, now: real)
    ensures
      var b := TakeAll(s, items, now);
      b.sid == s.sid && b.org == s.org && b.node == s.node && b.stoppedAt == s.stoppedAt
  {
    if items != [] { TakeAllKeeps(s, items[..|items|-1], now); }
  }

  lemma {:induction false} IngestNews(lim: Limits, st: State, op: Op, org: string, node: string)
    requires op.Ingest?
    ensures Step(lim, st, op).tokens == st.tokens
    ensures Wanted(Step(lim, st, op).sessions, org, node) == Wanted(st.sessions, org, node)
  {
    hide Find, Wanted, TakeAll;
    forall s: Session { TakeAllKeeps(s, op.items, op.now); }
    WantedSame(Step(lim, st, op).sessions, st.sessions, org, node);
  }

  lemma {:induction false} PickUpNews(lim: Limits, ss: seq<Session>, o: string, n: string, now: real, org: string, node: string)
    ensures Wanted(PickUpAll(lim, ss, o, n, now), org, node) == Wanted(ss, org, node)
  {
    if ss != [] {
      PickUpNews(lim, ss[..|ss|-1], o, n, now, org, node);
      WantedLast(PickUpAll(lim, ss[..|ss|-1], o, n, now), PickedUp(lim, ss[|ss|-1], o, n, now), org, node);
    }
  }

  lemma {:induction false} RunNews(lim: Limits, st: State, ops: seq<Op>, org: string, node: string)
    ensures TokenOf(Run(lim, st, ops).tokens, org, node) >= TokenOf(st.tokens, org, node)
    ensures TokenOf(Run(lim, st, ops).tokens, org, node) == TokenOf(st.tokens, org, node)
            ==> Wanted(Run(lim, st, ops).sessions, org, node) == Wanted(st.sessions, org, node)
  {
    hide Step, Wanted, TokenOf;
    if ops != [] {
      var n := |ops| - 1;
      RunNews(lim, st, ops[..n], org, node);
      StepNews(lim, Run(lim, st, ops[..n]), ops[n], org, node);
    }
  }

  lemma IdsLast(work: seq<EdgeView>, v: EdgeView)
    ensures Ids(work + [v]) == Ids(work) + [v.sid]
  {}

  /** Once reaped, a probe is told of exactly its sessions that have not been stopped. */
  lemma {:induction false} WorkIsWanted(ss: seq<Session>, now: real, org: string, node: string)
    ensures Ids(WorkOf(Reap(ss, now), org, node, now)) == Wanted(Reap(ss, now), org, node)
  {
    if ss == [] {
    } else {
      hide Reap, Ids, Wanted, WorkOf;
      var n := |ss| - 1;
      WorkIsWanted(ss[..n], now, org, node);
      ReapLast(ss, now);
      var init, s := Reap(ss[..n], now), Expire(ss[n], now);
      WantedLast(init, s, org, node);
      WorkLast(init, s, org, node, now);
      IdsLast(WorkOf(init, org, node, now), Seen(s, now));
    }
  }

  lemma {:induction false} WorkLast(ss: seq<Session>, s: Session, org: string, node: string, now: real)
    ensures WorkOf(ss + [s], org, node, now)
            == WorkOf(ss, org, node, now) + (if s.Is(org, node) && s.Live(now) then [Seen(s, now)] else [])
  {
    assert (ss + [s])[..|ss|] == ss;
  }

  /**
   Two answers to one probe that carry the same version list the same sessions in the same
   order, whatever happened between them.
   */
  lemma {:induction false} SameVersionSameSessions(lim: Limits, st: State, t: real, ops: seq<Op>, u: real, org: string, node: string)
    ensures
      var first := Step(lim, st, Look(t));
      var second := Step(lim, Run(lim, first, ops), Look(u));
      var (v, work), (w, later) := Reply(first, org, node, t), Reply(second, org, node, u);
      v <= w && (v == w ==> Ids(work) == Ids(later))
  {
    hide Reap, ReapTokens, Run, WorkOf, Wanted, Ids;
    var first := Step(lim, st, Look(t));
    var mid := Run(lim, first, ops);
    RunNews(lim, first, ops, org, node);
    StepNews(lim, mid, Look(u), org, node);
    WorkIsWanted(st.sessions, t, org, node);
    WorkIsWanted(mid.sessions, u, org, node);
  }
}
