/**
 liveping.py as a state machine: sessions in the order they were opened, one version number
 per probe, and the steps the hub's methods take under its lock. Times are seconds.
 */
module LivePing {
  import opened Options

  const ARM_S := 180.0
  const LINGER_S := 90.0
  const RING := 600
  // The largest round trip believed, in thousandths of a millisecond.
  const MAX_RTT := 60_000_000

  datatype Reason = Operator | Expired | Refused

  // One echo; round trips are in thousandths of a millisecond, and a lost packet has none.
  datatype Sample = Sample(no: int, rtt: Option<int>)

  // What a probe may put on the wire: a pair with a whole sequence number, or something else.
  datatype Item = Echo(no: int, rtt: Option<int>) | Malformed

  datatype Limits = Limits(maxS: int, interval: int, infraInterval: int, maxPerOrg: int)

  datatype Session = Session(sid: string, org: string, node: string, device: int, ip: string, interval: int,
                             infra: bool, startedBy: string, startedAt: real, expiresAt: real, samples: seq<Sample>,
                             high: int, sent: nat, lost: nat, lastSampleAt: Option<real>, pickedUpAt: Option<real>,
                             stoppedAt: Option<real>, reason: Option<Reason>, detail: Option<string>)
  {
    predicate Live(now: real) {
      stoppedAt.None? && now < expiresAt
    }

    predicate Readable(now: real) {
      now < (if stoppedAt.Some? then stoppedAt.value else expiresAt) + LINGER_S
    }

    predicate Is(o: string, n: string) {
      org == o && node == n
    }
  }

  type Tokens = map<(string, string), nat>

  datatype State = State(sessions: seq<Session>, tokens: Tokens)

  function Max(a: int, b: int): int {
    if a >= b then a else b
  }

  /** The clamps of the constructor: floors a caller cannot get under. */
  function Clamp(maxS: int, interval: int, infraInterval: int, maxPerOrg: int): Limits {
    var i := Max(200, interval);
    Limits(Max(5, maxS), i, Max(i, infraInterval), Max(1, maxPerOrg))
  }

  function TokenOf(tokens: Tokens, org: string, node: string): nat {
    if (org, node) in tokens then tokens[(org, node)] else 0
  }

  function Bump(tokens: Tokens, org: string, node: string): Tokens {
    tokens[(org, node) := TokenOf(tokens, org, node) + 1]
  }

  // ---------------------------------------------------------------- reaping

  predicate Overdue(s: Session, now: real) {
    s.stoppedAt.None? && now >= s.expiresAt
  }

  function Expire(s: Session, now: real): Session {
    if Overdue(s, now) then s.(stoppedAt := Some(s.expiresAt), reason := Some(Expired)) else s
  }

  function Reap(ss: seq<Session>, now: real): seq<Session> {
    if ss == [] then []
    else
      var s := Expire(ss[|ss|-1], now);
      Reap(ss[..|ss|-1], now) + (if s.Readable(now) then [s] else [])
  }

  function ReapTokens(ss: seq<Session>, tokens: Tokens, now: real): Tokens {
    if ss == [] then tokens
    else
      var s := ss[|ss|-1];
      var before := ReapTokens(ss[..|ss|-1], tokens, now);
      if Overdue(s, now) then Bump(before, s.org, s.node) else before
  }

  function Reaped(st: State, now: real): State {
    State(Reap(st.sessions, now), ReapTokens(st.sessions, st.tokens, now))
  }

  // --------------------------------------------------------------- sessions

  /** Where the session `sid` is listed; the length of the list when it is not. */
  function Find(ss: seq<Session>, sid: string): (i: nat)
    ensures i <= |ss| && (i < |ss| ==> ss[i].sid == sid)
    ensures forall k :: 0 <= k < i ==> ss[k].sid != sid
  {
    if ss == [] || ss[0].sid == sid then 0 else Find(ss[1..], sid) + 1
  }

  /** Where the first live session on a device is listed; the length of the list when there is none. */
  function FindLive(ss: seq<Session>, org: string, device: int, now: real): (i: nat)
    ensures i <= |ss| && (i < |ss| ==> ss[i].org == org && ss[i].device == device && ss[i].Live(now))
    ensures forall k :: 0 <= k < i ==> !(ss[k].org == org && ss[k].device == device && ss[k].Live(now))
  {
    if ss == [] || (ss[0].org == org && ss[0].device == device && ss[0].Live(now)) then 0
    else FindLive(ss[1..], org, device, now) + 1
  }

  function LiveCount(ss: seq<Session>, org: string, now: real): nat {
    if ss == [] then 0
    else LiveCount(ss[..|ss|-1], org, now) + (if ss[|ss|-1].org == org && ss[|ss|-1].Live(now) then 1 else 0)
  }

  datatype Request = Request(org: string, node: string, device: int, ip: string, infra: bool, who: string)

  function Fresh(lim: Limits, req: Request, sid: string, now: real): Session {
    Session(sid, req.org, req.node, req.device, req.ip, if req.infra then lim.infraInterval else lim.interval,
            req.infra, req.who, now, now + ARM_S, [], 0, 0, 0, None, None, None, None, None)
  }

  function Halt(s: Session, now: real, reason: Reason, detail: Option<string>): Session {
    s.(stoppedAt := Some(now), reason := Some(reason), detail := detail)
  }

  /** First contact from the probe starts the ping budget; no later contact moves it. */
  function Arrived(lim: Limits, s: Session, now: real): Session {
    if s.pickedUpAt.Some? || !s.Live(now) then s
    else s.(pickedUpAt := Some(now), expiresAt := now + lim.maxS as real)
  }

  // -------------------------------------------------------------- the ring

  function Push(ring: seq<Sample>, x: Sample): seq<Sample> {
    if |ring| < RING then ring + [x] else ring[1..] + [x]
  }

  /** A round trip outside the believable range is read as a loss. */
  function Believed(rtt: Option<int>): Option<int> {
    if rtt.Some? && (rtt.value < 0 || rtt.value > MAX_RTT) then None else rtt
  }

  predicate Accepts(s: Session, item: Item) {
    item.Echo? && item.no > s.high
  }

  function Take(s: Session, item: Item, now: real): Session {
    if !Accepts(s, item) then s
    else
      var rtt := Believed(item.rtt);
      s.(high := item.no, sent := s.sent + 1, lost := s.lost + (if rtt.None? then 1 else 0),
         samples := Push(s.samples, Sample(item.no, rtt)), lastSampleAt := Some(now))
  }

  function TakeAll(s: Session, items: seq<Item>, now: real): Session {
    if items == [] then s else Take(TakeAll(s, items[..|items|-1], now), items[|items|-1], now)
  }

  /** What a probe's report does to its session. */
  function Fed(lim: Limits, s: Session, items: seq<Item>, now: real): Session {
    var arrived := Arrived(lim, s, now);
    if arrived.Live(now) then TakeAll(arrived, items, now) else arrived
  }

  // -------------------------------------------------------------- the steps

  datatype Op =
    | Start(req: Request, sid: string, now: real)
    | Stop(sid: string, org: string, reason: Reason, detail: Option<string>, asNode: Option<string>, now: real)
    | Ingest(org: string, node: string, sid: string, items: seq<Item>, now: real)
    | PickUp(org: string, node: string, now: real)
    | Look(now: real)

  predicate Refuses(ss: seq<Session>, op: Op)
    requires op.Stop?
  {
    var i := Find(ss, op.sid);
    || i == |ss|
    || ss[i].org != op.org
    || (op.asNode.Some? && ss[i].node != op.asNode.value)
    || ss[i].stoppedAt.Some?
  }

  function PickedUp(lim: Limits, s: Session, org: string, node: string, now: real): Session {
    if s.Is(org, node) && s.Live(now) then Arrived(lim, s, now) else s
  }

  function PickUpAll(lim: Limits, ss: seq<Session>, org: string, node: string, now: real): seq<Session> {
    if ss == [] then []
    else PickUpAll(lim, ss[..|ss|-1], org, node, now) + [PickedUp(lim, ss[|ss|-1], org, node, now)]
  }

  /** `start`, the reaping done: join the session on the device, refuse, or open one. */
  function Opened(lim: Limits, r: State, req: Request, sid: string, now: real): State {
    if FindLive(r.sessions, req.org, req.device, now) < |r.sessions| || LiveCount(r.sessions, req.org, now) >= lim.maxPerOrg then r
    else State(r.sessions + [Fresh(lim, req, sid, now)], Bump(r.tokens, req.org, req.node))
  }

  /** `stop`, the reaping done. */
  function Halted(r: State, op: Op): State
    requires op.Stop?
  {
    if Refuses(r.sessions, op) then r
    else
      var i := Find(r.sessions, op.sid);
      var s := r.sessions[i];
      State(r.sessions[i := Halt(s, op.now, op.reason, op.detail)], Bump(r.tokens, s.org, s.node))
  }

  function Step(lim: Limits, st: State, op: Op): State {
    match op
    case Start(req, sid, now) => Opened(lim, Reaped(st, now), req, sid, now)
    case Stop(_, _, _, _, _, now) => Halted(Reaped(st, now), op)
    case Ingest(org, node, sid, items, now) =>
      var i := Find(st.sessions, sid);
      if i == |st.sessions| || !st.sessions[i].Is(org, node) then st
      else st.(sessions := st.sessions[i := Fed(lim, st.sessions[i], items, now)])
    case PickUp(org, node, now) => st.(sessions := PickUpAll(lim, st.sessions, org, node, now))
    case Look(now) => Reaped(st, now)
  }

  function Run(lim: Limits, st: State, ops: seq<Op>): State {
    if ops == [] then st else Step(lim, Run(lim, st, ops[..|ops|-1]), ops[|ops|-1])
  }

  /** A clock that never goes back, starting from `t`. */
  predicate Clocked(ops: seq<Op>, t: real) {
    && (forall i :: 0 <= i < |ops| ==> t <= ops[i].now)
    && (forall i, k :: 0 <= i < k < |ops| ==> ops[i].now <= ops[k].now)
  }

  function EndTime(ops: seq<Op>, t: real): real {
    if ops == [] then t else ops[|ops|-1].now
  }

  // -------------------------------------------------------- what is answered

  datatype EdgeView = EdgeView(sid: string, device: int, ip: string, interval: int, remaining: real)

  function Seen(s: Session, now: real): EdgeView {
    EdgeView(s.sid, s.device, s.ip, s.interval, if s.expiresAt > now then s.expiresAt - now else 0.0)
  }

  /** The sessions a probe should be pinging. */
  function WorkOf(ss: seq<Session>, org: string, node: string, now: real): seq<EdgeView> {
    if ss == [] then []
    else
      var s := ss[|ss|-1];
      WorkOf(ss[..|ss|-1], org, node, now) + (if s.Is(org, node) && s.Live(now) then [Seen(s, now)] else [])
  }

  /** The probe's long-poll answer: a version number and the whole set of its live sessions. */
  function Reply(st: State, org: string, node: string, now: real): (nat, seq<EdgeView>) {
    (TokenOf(st.tokens, org, node), WorkOf(st.sessions, org, node, now))
  }

  /** The samples after a cursor. */
  function After(samples: seq<Sample>, cursor: int): seq<Sample> {
    if samples == [] then []
    else
      After(samples[..|samples|-1], cursor)
      + (if samples[|samples|-1].no > cursor then [samples[|samples|-1]] else [])
  }

  /** The session a device's panel shows: the latest opened, the earlier listed on a tie. */
  function Latest(ss: seq<Session>, org: string, device: int): Option<Session> {
    if ss == [] then None
    else
      var best := Latest(ss[..|ss|-1], org, device);
      var s := ss[|ss|-1];
      if s.org != org || s.device != device then best
      else if best.None? || s.startedAt > best.value.startedAt then Some(s)
      else best
  }
}
