/**
 liveping.py as it runs: session objects updated in place by a hub that holds a lock for the
 whole of each method. Every method is tied to the state machine of `LivePing`.
 */
module LivePingHub {
  import opened Options
  import LP = LivePing

  class LiveSession {
    const sid: string
    const org: string
    const node: string
    const device: int
    const ip: string
    const interval: int
    const infra: bool
    const startedBy: string
    const startedAt: real
    var expiresAt: real
    var samples: seq<LP.Sample>
    var high: int
    var sent: nat
    var lost: nat
    var lastSampleAt: Option<real>
    var pickedUpAt: Option<real>
    var stoppedAt: Option<real>
    var reason: Option<LP.Reason>
    var detail: Option<string>

    constructor (sid: string, req: LP.Request, interval: int, now: real, expiresAt: real)
      ensures View() == LP.Session(sid, req.org, req.node, req.device, req.ip, interval, req.infra, req.who, now, expiresAt,
                                   [], 0, 0, 0, None, None, None, None, None)
    {
      this.sid, org, node, device, ip := sid, req.org, req.node, req.device, req.ip;
      this.interval, infra, startedBy, startedAt, this.expiresAt := interval, req.infra, req.who, now, expiresAt;
      samples, high, sent, lost := [], 0, 0, 0;
      lastSampleAt, pickedUpAt, stoppedAt, reason, detail := None, None, None, None, None;
    }

    function View(): (v: LP.Session)
      reads this
      ensures v.sid == sid && v.org == org && v.node == node && v.device == device && v.startedAt == startedAt
    {
      LP.Session(sid, org, node, device, ip, interval, infra, startedBy, startedAt, expiresAt, samples, high, sent, lost,
                 lastSampleAt, pickedUpAt, stoppedAt, reason, detail)
    }

    predicate Live(now: real)
      reads this
    {
      View().Live(now)
    }

    method Expire(now: real) returns (overdue: bool)
      modifies this
      ensures View() == LP.Expire(old(View()), now) && overdue == LP.Overdue(old(View()), now)
    {
      overdue := stoppedAt.None? && now >= expiresAt;
      if overdue {
        stoppedAt := Some(expiresAt);
        reason := Some(LP.Expired);
      }
    }

    method Halt(now: real, why: LP.Reason, words: Option<string>)
      modifies this
      ensures View() == LP.Halt(old(View()), now, why, words)
    {
      stoppedAt := Some(now);
      reason := Some(why);
      detail := words;
    }

    method Arrived(lim: LP.Limits, now: real)
      modifies this
      ensures View() == LP.Arrived(lim, old(View()), now)
    {
      if pickedUpAt.Some? || !Live(now) {
        return;
      }
      pickedUpAt := Some(now);
      expiresAt := now + lim.maxS as real;
    }

    /** The loop of `ingest`: one item at a time into the ring. */
    method TakeAll(items: seq<LP.Item>, now: real)
      modifies this
      ensures View() == LP.TakeAll(old(View()), items, now)
    {
      for i := 0 to |items|
        invariant View() == LP.TakeAll(old(View()), items[..i], now)
      {
        assert items[..i+1][..i] == items[..i];
        Take(items[i], now);
      }
      assert items[..|items|] == items;
    }

    method Take(item: LP.Item, now: real)
      modifies this
      ensures View() == LP.Take(old(View()), item, now)
    {
      if item.Malformed? {
        return;
      }
      var rtt := item.rtt;
      if rtt.Some? && (rtt.value < 0 || rtt.value > LP.MAX_RTT) {
        rtt := None;
      }
      if item.no <= high {
        return;
      }
      high := item.no;
      sent := sent + 1;
      if rtt.None? {
        lost := lost + 1;
      }
      samples := LP.Push(samples, LP.Sample(item.no, rtt));
      lastSampleAt := Some(now);
    }
  }

  /** What the objects hold, in order. */
  ghost function Views(ss: seq<LiveSession>): (vs: seq<LP.Session>)
    reads ss
    ensures |vs| == |ss| && forall i :: 0 <= i < |ss| ==> vs[i] == ss[i].View()
  {
    if ss == [] then [] else Views(ss[..|ss|-1]) + [ss[|ss|-1].View()]
  }

  ghost predicate Distinct(ss: seq<LiveSession>) {
    forall i, k :: 0 <= i < k < |ss| ==> ss[i] != ss[k]
  }

  class Hub {
    const lim: LP.Limits
    var sessions: seq<LiveSession>
    var tokens: LP.Tokens

    constructor (maxS: int, interval: int, infraInterval: int, maxPerOrg: int)
      ensures View() == LP.State([], map[]) && Valid() && lim == LP.Clamp(maxS, interval, infraInterval, maxPerOrg)
    {
      lim := LP.Clamp(maxS, interval, infraInterval, maxPerOrg);
      sessions := [];
      tokens := map[];
    }

    ghost predicate Valid()
      reads this
    {
      Distinct(sessions)
    }

    ghost function View(): LP.State
      reads this, sessions
    {
      LP.State(Views(sessions), tokens)
    }

    method ReapOne(s: LiveSession, now: real) returns (keep: bool)
      modifies s, `tokens
      ensures s.View() == LP.Expire(old(s.View()), now) && keep == s.View().Readable(now)
      ensures tokens == (if LP.Overdue(old(s.View()), now) then LP.Bump(old(tokens), s.org, s.node) else old(tokens))
    {
      var overdue := s.Expire(now);
      if overdue {
        tokens := LP.Bump(tokens, s.org, s.node);
      }
      keep := s.View().Readable(now);
    }

    method ReapLocked(now: real)
      requires Valid()
      modifies this, sessions
      ensures Valid() && View() == LP.Reaped(old(View()), now)
      ensures forall i :: 0 <= i < |sessions| ==> sessions[i] in old(sessions)
    {
      hide LP.Expire, LP.Overdue, LP.Bump, Views, LP.Reap, LP.ReapTokens, LP.Session.Readable, LiveSession.View;
      var all := sessions;
      ghost var vs := Views(all);
      ghost var tokens0 := tokens;
      var kept: seq<LiveSession> := [];
      ReapNone(tokens0, now);
      for i := 0 to |all|
        invariant sessions == all && Distinct(all)
        invariant forall k :: i <= k < |all| ==> all[k].View() == vs[k]
        invariant Distinct(kept) && (forall k :: 0 <= k < |kept| ==> kept[k] in all[..i])
        invariant Views(kept) == LP.Reap(vs[..i], now)
        invariant tokens == LP.ReapTokens(vs[..i], tokens0, now)
      {
        var s := all[i];
        assert all[..i+1] == all[..i] + [s];
        assert s !in all[..i];
        ReapSnoc(vs, tokens0, i, now);
        var keep := ReapOne(s, now);
        if keep {
          ViewsSnoc(kept, s);
          kept := kept + [s];
        }
      }
      assert vs[..|all|] == vs && all[..|all|] == all;
      sessions := kept;
    }

    /** `_sessions.get`. */
    method Lookup(sid: string) returns (i: nat)
      ensures i == LP.Find(View().sessions, sid)
    {
      i := 0;
      ghost var vs := View().sessions;
      while i < |sessions| && sessions[i].sid != sid
        invariant i <= |sessions|
        invariant forall k :: 0 <= k < i ==> vs[k].sid != sid
      {
        i := i + 1;
      }
    }

    method CountLive(org: string, now: real) returns (n: nat)
      ensures n == LP.LiveCount(View().sessions, org, now)
    {
      n := 0;
      ghost var vs := Views(sessions);
      for i := 0 to |sessions|
        invariant n == LP.LiveCount(vs[..i], org, now)
      {
        assert vs[..i+1][..i] == vs[..i];
        if sessions[i].org == org && sessions[i].Live(now) {
          n := n + 1;
        }
      }
      assert vs[..|sessions|] == vs;
    }

    /** Joins the session already running on the device, refuses, or opens a new one under a name never used. */
    method Start(req: LP.Request, sid: string, now: real) returns (s: Option<LiveSession>)
      requires Valid()
      modifies this, sessions
      ensures Valid() && View() == LP.Step(lim, old(View()), LP.Start(req, sid, now))
      ensures s.Some? ==> s.value in sessions && s.value.Live(now) && s.value.org == req.org && s.value.device == req.device
      ensures s.None? ==> LP.LiveCount(View().sessions, req.org, now) >= lim.maxPerOrg
    {
      hide *;
      StepIs(lim, View(), LP.Start(req, sid, now));
      ReapLocked(now);
      s := Open(req, sid, now);
    }

    method Open(req: LP.Request, sid: string, now: real) returns (s: Option<LiveSession>)
      requires Valid()
      modifies this
      ensures Valid() && View() == LP.Opened(lim, old(View()), req, sid, now)
      ensures s.Some? ==> s.value in sessions && s.value.Live(now) && s.value.org == req.org && s.value.device == req.device
      ensures s.None? ==> LP.LiveCount(View().sessions, req.org, now) >= lim.maxPerOrg
    {
      hide LP.LiveCount, LP.Session.Live, LP.Bump, LP.Fresh, LiveSession.View, Views;
      var i := Running(req.org, req.device, now);
      if i < |sessions| {
        return Some(sessions[i]);
      }
      var n := CountLive(req.org, now);
      if n >= lim.maxPerOrg {
        return None;
      }
      var session := Add(req, sid, now);
      FreshIsLive(lim, req, sid, now);
      s := Some(session);
    }

    method Add(req: LP.Request, sid: string, now: real) returns (s: LiveSession)
      requires Valid()
      modifies this
      ensures Valid() && s in sessions && s.View() == LP.Fresh(lim, req, sid, now) && s.org == req.org && s.device == req.device
      ensures View() == LP.State(old(View()).sessions + [LP.Fresh(lim, req, sid, now)], LP.Bump(old(View()).tokens, req.org, req.node))
    {
      hide Views, LP.Bump, LiveSession.View;
      s := new LiveSession(sid, req, if req.infra then lim.infraInterval else lim.interval, now, now + LP.ARM_S);
      ViewsSnoc(sessions, s);
      sessions := sessions + [s];
      tokens := LP.Bump(tokens, req.org, req.node);
    }

    method Running(org: string, device: int, now: real) returns (i: nat)
      ensures i == LP.FindLive(View().sessions, org, device, now)
    {
      hide LP.Session.Live;
      i := 0;
      ghost var vs := View().sessions;
      while i < |sessions| && !(sessions[i].org == org && sessions[i].device == device && sessions[i].Live(now))
        invariant i <= |sessions|
        invariant forall k :: 0 <= k < i ==> !(vs[k].org == org && vs[k].device == device && vs[k].Live(now))
      {
        i := i + 1;
      }
    }

    method Stop(sid: string, org: string, why: LP.Reason, words: Option<string>, asNode: Option<string>, now: real)
      returns (ok: bool)
      requires Valid()
      modifies this, sessions
      ensures Valid() && View() == LP.Step(lim, old(View()), LP.Stop(sid, org, why, words, asNode, now))
      ensures ok == !LP.Refuses(LP.Reaped(old(View()), now).sessions, LP.Stop(sid, org, why, words, asNode, now))
    {
      hide *;
      StepIs(lim, View(), LP.Stop(sid, org, why, words, asNode, now));
      ReapLocked(now);
      ok := StopReaped(sid, org, why, words, asNode, now);
    }

    method StopReaped(sid: string, org: string, why: LP.Reason, words: Option<string>, asNode: Option<string>, now: real)
      returns (ok: bool)
      requires Valid()
      modifies this, sessions
      ensures Valid() && View() == LP.Halted(old(View()), LP.Stop(sid, org, why, words, asNode, now))
      ensures ok == !LP.Refuses(old(View()).sessions, LP.Stop(sid, org, why, words, asNode, now))
    {
      hide LP.Find, LP.Halt, LP.Bump, Views;
      var i := Lookup(sid);
      if i == |sessions| || sessions[i].org != org {
        return false;
      }
      var s := sessions[i];
      if asNode.Some? && s.node != asNode.value {
        return false;
      }
      if s.stoppedAt.Some? {
        return false;
      }
      s.Halt(now, why, words);
      OneMoved(i);
      tokens := LP.Bump(tokens, s.org, s.node);
      ok := true;
    }

    /** When one session object moves, one view does. */
    twostate lemma OneMoved(i: nat)
      requires sessions == old(sessions) && i < |sessions|
      requires forall k :: 0 <= k < |sessions| && k != i ==> sessions[k].View() == old(sessions[k].View())
      ensures Views(sessions) == old(Views(sessions))[i := sessions[i].View()]
    {
      hide Views, LiveSession.View;
    }

    method Ingest(org: string, node: string, sid: string, items: seq<LP.Item>, now: real)
      requires Valid()
      modifies this, sessions
      ensures Valid() && View() == LP.Step(lim, old(View()), LP.Ingest(org, node, sid, items, now))
    {
      hide LP.Find, LP.Arrived, LP.TakeAll, Views, LP.Session.Live, LiveSession.View;
      var i := Lookup(sid);
      if i == |sessions| || sessions[i].org != org || sessions[i].node != node {
        return;
      }
      var s := sessions[i];
      s.Arrived(lim, now);
      if s.Live(now) {
        s.TakeAll(items, now);
      }
      OneMoved(i);
    }

    method MarkPickedUp(org: string, node: string, now: real)
      requires Valid()
      modifies sessions
      ensures Valid() && View() == LP.Step(lim, old(View()), LP.PickUp(org, node, now))
    {
      hide LP.PickUpAll, LP.Arrived, LP.Session.Live, Views, LiveSession.View;
      ghost var vs := Views(sessions);
      for i := 0 to |sessions|
        invariant forall k :: i <= k < |sessions| ==> sessions[k].View() == vs[k]
        invariant forall k :: 0 <= k < i ==> sessions[k].View() == LP.PickedUp(lim, vs[k], org, node, now)
      {
        var s := sessions[i];
        if s.org == org && s.node == node && s.Live(now) {
          s.Arrived(lim, now);
        }
      }
      PickUpEach(lim, vs, Views(sessions), org, node, now);
    }

    method Get(sid: string, now: real) returns (s: Option<LiveSession>)
      requires Valid()
      modifies this, sessions
      ensures Valid() && View() == LP.Step(lim, old(View()), LP.Look(now))
      ensures
        var i := LP.Find(View().sessions, sid);
        if i < |View().sessions| then s == Some(sessions[i]) else s == None
    {
      hide LP.Reaped, LP.Find, Views;
      ReapLocked(now);
      var i := Lookup(sid);
      s := if i < |sessions| then Some(sessions[i]) else None;
    }

    method ForDevice(org: string, device: int, now: real) returns (best: Option<LiveSession>)
      requires Valid()
      modifies this, sessions
      ensures Valid() && View() == LP.Step(lim, old(View()), LP.Look(now))
      ensures LP.Latest(View().sessions, org, device) == (if best.Some? then Some(best.value.View()) else None)
    {
      hide *;
      StepIs(lim, View(), LP.Look(now));
      ReapLocked(now);
      best := Newest(org, device);
    }

    method Newest(org: string, device: int) returns (best: Option<LiveSession>)
      ensures LP.Latest(View().sessions, org, device) == (if best.Some? then Some(best.value.View()) else None)
    {
      hide Views, LiveSession.View;
      best := None;
      ghost var vs := Views(sessions);
      for i := 0 to |sessions|
        invariant LP.Latest(vs[..i], org, device) == (if best.Some? then Some(best.value.View()) else None)
      {
        var s := sessions[i];
        assert vs[..i+1][..i] == vs[..i];
        if s.org == org && s.device == device && (best.None? || s.startedAt > best.value.startedAt) {
          best := Some(s);
        }
      }
      assert vs[..|sessions|] == vs;
    }

    method OrgLiveCount(org: string, now: real) returns (n: nat)
      requires Valid()
      modifies this, sessions
      ensures Valid() && View() == LP.Step(lim, old(View()), LP.Look(now))
      ensures n == LP.LiveCount(View().sessions, org, now)
    {
      hide LP.Reaped, LP.LiveCount, Views;
      ReapLocked(now);
      n := CountLive(org, now);
    }

    /** `read`: what lies after the cursor, with the cursor to ask with next. */
    method Read(s: LiveSession, cursor: int) returns (samples: seq<LP.Sample>, next: int)
      ensures samples == LP.After(s.View().samples, cursor) && next == s.View().high
    {
      samples := [];
      for i := 0 to |s.samples|
        invariant samples == LP.After(s.samples[..i], cursor)
      {
        assert s.samples[..i+1][..i] == s.samples[..i];
        if s.samples[i].no > cursor {
          samples := samples + [s.samples[i]];
        }
      }
      assert s.samples[..|s.samples|] == s.samples;
      next := s.high;
    }

    method Work(org: string, node: string, now: real) returns (work: seq<LP.EdgeView>)
      ensures work == LP.WorkOf(View().sessions, org, node, now)
    {
      hide Views, LiveSession.View, LP.Seen, LP.Session.Live;
      work := [];
      ghost var vs := Views(sessions);
      for i := 0 to |sessions|
        invariant work == LP.WorkOf(vs[..i], org, node, now)
      {
        assert vs[..i+1][..i] == vs[..i];
        var s := sessions[i];
        if s.org == org && s.node == node && s.Live(now) {
          work := work + [LP.Seen(s.View(), now)];
        }
      }
      assert vs[..|sessions|] == vs;
    }

    /** One pass of the long poll: an answer when there is news, something to deliver, or no time left. */
    method Exchange(org: string, node: string, token: int, timeUp: bool, deliver: bool, now: real)
      returns (reply: Option<(nat, seq<LP.EdgeView>)>)
      requires Valid()
      modifies this, sessions
      ensures Valid() && View() == LP.Step(lim, old(View()), LP.Look(now))
      ensures reply.Some? <==> deliver || LP.TokenOf(View().tokens, org, node) != token || timeUp
      ensures reply.Some? ==> reply.value == LP.Reply(View(), org, node, now)
    {
      hide LP.Reaped, LP.WorkOf, Views;
      ReapLocked(now);
      var cur := LP.TokenOf(tokens, org, node);
      if deliver || cur != token || timeUp {
        var work := Work(org, node, now);
        reply := Some((cur, work));
      } else {
        reply := None;
      }
    }

    method NodeHasWork(org: string, node: string, now: real) returns (some: bool)
      requires Valid()
      modifies this, sessions
      ensures Valid() && View() == LP.Step(lim, old(View()), LP.Look(now))
      ensures some <==> exists i :: 0 <= i < |View().sessions| && View().sessions[i].Is(org, node) && View().sessions[i].Live(now)
    {
      hide *;
      StepIs(lim, View(), LP.Look(now));
      ReapLocked(now);
      some := AnyWork(org, node, now);
    }

    method AnyWork(org: string, node: string, now: real) returns (some: bool)
      ensures some <==> exists i :: 0 <= i < |View().sessions| && View().sessions[i].Is(org, node) && View().sessions[i].Live(now)
    {
      hide LP.Session.Live, Views, LiveSession.View;
      ghost var vs := View().sessions;
      for i := 0 to |sessions|
        invariant forall k :: 0 <= k < i ==> !(vs[k].Is(org, node) && vs[k].Live(now))
      {
        var s := sessions[i];
        if s.org == org && s.node == node && s.Live(now) {
          assert View().sessions[i].Is(org, node) && View().sessions[i].Live(now);
          return true;
        }
      }
      some := false;
    }
  }

  lemma {:induction false} PickUpEach(lim: LP.Limits, vs: seq<LP.Session>, after: seq<LP.Session>, org: string, node: string, now: real)
    requires |vs| == |after| && forall k :: 0 <= k < |vs| ==> after[k] == LP.PickedUp(lim, vs[k], org, node, now)
    ensures after == LP.PickUpAll(lim, vs, org, node, now)
  {
    hide LP.PickedUp;
    if vs != [] {
      var n := |vs| - 1;
      PickUpEach(lim, vs[..n], after[..n], org, node, now);
      assert after == after[..n] + [after[n]];
    }
  }

  lemma StepIs(lim: LP.Limits, st: LP.State, op: LP.Op)
    ensures op.Start? ==> LP.Step(lim, st, op) == LP.Opened(lim, LP.Reaped(st, op.now), op.req, op.sid, op.now)
    ensures op.Stop? ==> LP.Step(lim, st, op) == LP.Halted(LP.Reaped(st, op.now), op)
    ensures op.Look? ==> LP.Step(lim, st, op) == LP.Reaped(st, op.now)
  {}

  lemma FreshIsLive(lim: LP.Limits, req: LP.Request, sid: string, now: real)
    ensures LP.Fresh(lim, req, sid, now).Live(now)
  {}

  lemma {:induction false} ReapNone(tokens: LP.Tokens, now: real)
    ensures Views([]) == LP.Reap([], now) && LP.ReapTokens([], tokens, now) == tokens
  {}

  lemma {:induction false} ReapSnoc(vs: seq<LP.Session>, tokens: LP.Tokens, i: nat, now: real)
    requires i < |vs|
    ensures
      var s := LP.Expire(vs[i], now);
      LP.Reap(vs[..i+1], now) == LP.Reap(vs[..i], now) + (if s.Readable(now) then [s] else [])
    ensures LP.ReapTokens(vs[..i+1], tokens, now)
            == (if LP.Overdue(vs[i], now) then LP.Bump(LP.ReapTokens(vs[..i], tokens, now), vs[i].org, vs[i].node)
                else LP.ReapTokens(vs[..i], tokens, now))
  {
    assert vs[..i+1][..i] == vs[..i];
  }

  lemma {:induction false} ViewsSnoc(ss: seq<LiveSession>, s: LiveSession)
    ensures Views(ss + [s]) == Views(ss) + [s.View()]
  {
    assert (ss + [s])[..|ss|] == ss;
  }
}
