/**
 The request exchange of proxy.py as interleaved steps: submitters park requests and wait,
 probes poll for them, and replies come back by request id. Each step is one stretch the
 code runs under a lock, or one unlocked read or write.
 */
module ProxyHub {
  import opened Options
  import opened Throttle

  // The far end of an inbox: an organisation's probe; and what a throttle guards.
  type Place = (string, string)
  type Target = (string, int)

  /** A `_Pending`: whose request it is, and the reply its waiter will find. */
  datatype Pend = Pend(owner: nat, place: Place, answer: Option<string>, signalled: bool)

  // How far a submitting thread has come; `got` is what waiting for the event returned.
  datatype Stage =
    | Queued
    | Refused
    | Holding
    | Parked(req: nat)
    | Waiting(req: nat)
    | Leaving(req: nat, got: bool)
    | Gone(req: nat, got: bool)
    | Back(req: nat, got: bool, result: Option<string>)
    | Done(req: nat, got: bool, result: Option<string>)

  datatype Submit = Submit(place: Place, target: Target, stage: Stage)

  // How far a delivering thread that found its request has come.
  datatype Progress = Found | Written | Signalled

  datatype Deliver = Deliver(req: nat, place: Place, answer: string, progress: Progress)

  datatype Handed = Handed(req: nat, place: Place)

  datatype Hub = Hub(last: nat, pends: map<nat, Pend>, pending: set<nat>, inbox: map<Place, seq<nat>>,
                     throttles: map<Target, State>, submits: map<nat, Submit>, delivers: map<nat, Deliver>,
                     handed: seq<Handed>, ladder: seq<nat>)

  function Opening(top: int): Hub {
    Hub(0, map[], {}, map[], map[], map[], map[], [], Ladder(top))
  }

  function Inbox(h: Hub, p: Place): seq<nat> {
    if p in h.inbox then h.inbox[p] else []
  }

  function ThrottleOf(h: Hub, t: Target): State {
    if t in h.throttles then h.throttles[t] else Fresh(h.ladder)
  }

  // ------------------------------------------------------------- the steps

  datatype Action =
    | Arrive(id: nat, place: Place, target: Target, now: real)
    | Grant(id: nat)
    | GiveUp(id: nat)
    | Park(id: nat)
    | Enqueue(id: nat)
    | Wake(id: nat, timedOut: bool)
    | Remove(id: nat)
    | Collect(id: nat)
    | Finish(id: nat)
    | Poll(place: Place)
    | Look(id: nat, req: nat, place: Place, answer: string)
    | Write(id: nat)
    | Signal(id: nat)
    | Fail(target: Target, now: real)

  predicate At(h: Hub, id: nat, stage: Stage) {
    id in h.submits && h.submits[id].stage == stage
  }

  function Moved(h: Hub, id: nat, stage: Stage): Hub
    requires id in h.submits
  {
    h.(submits := h.submits[id := h.submits[id].(stage := stage)])
  }

  predicate Enabled(h: Hub, a: Action) {
    match a
    case Arrive(id, _, _, _) => id !in h.submits
    case Grant(id) => At(h, id, Queued) && var t := ThrottleOf(h, h.submits[id].target); t.level < |t.levels| && Free(t)
    case GiveUp(id) => At(h, id, Queued) && var t := ThrottleOf(h, h.submits[id].target); t.level < |t.levels| && !Free(t)
    case Park(id) => At(h, id, Holding)
    case Enqueue(id) => id in h.submits && h.submits[id].stage.Parked?
    case Wake(id, timedOut) =>
      id in h.submits && h.submits[id].stage.Waiting? && h.submits[id].stage.req in h.pends
      && (timedOut || h.pends[h.submits[id].stage.req].signalled)
    case Remove(id) => id in h.submits && h.submits[id].stage.Leaving?
    case Collect(id) => id in h.submits && h.submits[id].stage.Gone? && h.submits[id].stage.req in h.pends
    case Finish(id) => id in h.submits && h.submits[id].stage.Back?
    case Poll(place) => Inbox(h, place) != []
    case Look(id, req, place, _) => id !in h.delivers && req in h.pending && req in h.pends && h.pends[req].place == place
    case Write(id) => id in h.delivers && h.delivers[id].progress.Found? && h.delivers[id].req in h.pends
    case Signal(id) => id in h.delivers && h.delivers[id].progress.Written? && h.delivers[id].req in h.pends
    case Fail(_, _) => true
  }

  function Step(h: Hub, a: Action): Hub
    requires Enabled(h, a)
  {
    match a
    case Arrive(id, place, target, now) =>
      h.(submits := h.submits[id := Submit(place, target, Queued)],
         throttles := h.throttles[target := Promoted(ThrottleOf(h, target), now)])
    case Grant(id) =>
      var target := h.submits[id].target;
      Moved(h, id, Holding).(throttles := h.throttles[target := Entered(ThrottleOf(h, target))])
    case GiveUp(id) => Moved(h, id, Refused)
    case Park(id) =>
      var req, place := h.last + 1, h.submits[id].place;
      Moved(h, id, Parked(req)).(last := req, pends := h.pends[req := Pend(id, place, None, false)], pending := h.pending + {req})
    case Enqueue(id) =>
      var req, place := h.submits[id].stage.req, h.submits[id].place;
      Moved(h, id, Waiting(req)).(inbox := h.inbox[place := Inbox(h, place) + [req]])
    case Wake(id, timedOut) => Moved(h, id, Leaving(h.submits[id].stage.req, !timedOut))
    case Remove(id) =>
      var s := h.submits[id].stage;
      Moved(h, id, Gone(s.req, s.got)).(pending := h.pending - {s.req})
    case Collect(id) =>
      var s := h.submits[id].stage;
      Moved(h, id, Back(s.req, s.got, if s.got then h.pends[s.req].answer else None))
    case Finish(id) =>
      var s, target := h.submits[id].stage, h.submits[id].target;
      Moved(h, id, Done(s.req, s.got, s.result)).(throttles := h.throttles[target := Left(ThrottleOf(h, target))])
    case Poll(place) =>
      var q := Inbox(h, place);
      h.(inbox := h.inbox[place := q[1..]], handed := h.handed + [Handed(q[0], place)])
    case Look(id, req, place, answer) => h.(delivers := h.delivers[id := Deliver(req, place, answer, Found)])
    case Write(id) =>
      var d := h.delivers[id];
      h.(pends := h.pends[d.req := h.pends[d.req].(answer := Some(d.answer))], delivers := h.delivers[id := d.(progress := Written)])
    case Signal(id) =>
      var d := h.delivers[id];
      h.(pends := h.pends[d.req := h.pends[d.req].(signalled := true)], delivers := h.delivers[id := d.(progress := Signalled)])
    case Fail(target, now) => h.(throttles := h.throttles[target := Demoted(ThrottleOf(h, target), now)])
  }

  /** A step that is not enabled does not happen. */
  function Next(h: Hub, a: Action): Hub {
    if Enabled(h, a) then Step(h, a) else h
  }

  function Run(h: Hub, actions: seq<Action>): Hub {
    if actions == [] then h else Next(Run(h, actions[..|actions|-1]), actions[|actions|-1])
  }

  // ------------------------------------------------------- what always holds

  function ReqOf(s: Stage): Option<nat> {
    match s
    case Parked(r) => Some(r)
    case Waiting(r) => Some(r)
    case Leaving(r, _) => Some(r)
    case Gone(r, _) => Some(r)
    case Back(r, _, _) => Some(r)
    case Done(r, _, _) => Some(r)
    case _ => None
  }

  predicate Inside(s: Stage) {
    !(s.Queued? || s.Refused? || s.Done?)
  }

  predicate Unfinished(s: Stage) {
    s.Parked? || s.Waiting? || s.Leaving?
  }

  /** Requests are numbered from one on without a gap, and each belongs to the one submitter that parked it. */
  ghost predicate Owned(h: Hub) {
    && (forall r :: r in h.pends <==> 0 < r <= h.last)
    && (forall r :: r in h.pends ==>
          var o := h.pends[r].owner;
          o in h.submits && ReqOf(h.submits[o].stage) == Some(r) && h.submits[o].place == h.pends[r].place)
    && (forall i :: i in h.submits && ReqOf(h.submits[i].stage).Some? ==>
          var r := ReqOf(h.submits[i].stage).value;
          r in h.pends && h.pends[r].owner == i)
  }

  /** `_pending` holds exactly the requests still waited for. */
  ghost predicate PendingExact(h: Hub) {
    forall r :: r in h.pending <==> r in h.pends && h.pends[r].owner in h.submits && Unfinished(h.submits[h.pends[r].owner].stage)
  }

  /** Whoever gets an answer gets one a matching delivery wrote. */
  ghost predicate Wrote(h: Hub, r: nat, answer: string) {
    exists d :: d in h.delivers && h.delivers[d].req == r && h.delivers[d].answer == answer && !h.delivers[d].progress.Found?
  }

  ghost predicate Answered(h: Hub) {
    && (forall d :: d in h.delivers ==> h.delivers[d].req in h.pends && h.delivers[d].place == h.pends[h.delivers[d].req].place)
    && (forall r :: r in h.pends && h.pends[r].answer.Some? ==> Wrote(h, r, h.pends[r].answer.value))
    && (forall d :: d in h.delivers && !h.delivers[d].progress.Found? ==> h.pends[h.delivers[d].req].answer.Some?)
    && (forall r :: r in h.pends && h.pends[r].signalled ==> h.pends[r].answer.Some?)
    && (forall d :: d in h.delivers && h.delivers[d].progress.Signalled? ==> h.pends[h.delivers[d].req].signalled)
    && (forall i :: i in h.submits ==> StageAnswered(h, h.submits[i].stage))
  }

  ghost predicate StageAnswered(h: Hub, s: Stage) {
    match s
    case Leaving(r, got) => got ==> r in h.pends && h.pends[r].signalled
    case Gone(r, got) => got ==> r in h.pends && h.pends[r].signalled
    case Back(r, got, result) => result.Some? == got && (got ==> Wrote(h, r, result.value))
    case Done(r, got, result) => result.Some? == got && (got ==> Wrote(h, r, result.value))
    case _ => true
  }
}
