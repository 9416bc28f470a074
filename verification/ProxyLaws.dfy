/**
 Safety of the request exchange over every interleaving of submitters, probes and deliveries.
 */
module ProxyLaws {
  import opened Options
  import Throttle
  import opened ProxyHub
  import Sets

  // ------------------------------------------------------- what a step leaves

  /** The submitters there were are there still, with their requests. */
  predicate SubmitsSame(h: Hub, g: Hub) {
    h.submits.Keys == g.submits.Keys
    && forall i :: i in h.submits ==>
         g.submits[i].place == h.submits[i].place && ReqOf(g.submits[i].stage) == ReqOf(h.submits[i].stage)
  }

  predicate PendsSame(h: Hub, g: Hub) {
    h.last == g.last && h.pends.Keys == g.pends.Keys
    && forall r :: r in h.pends ==> g.pends[r].owner == h.pends[r].owner && g.pends[r].place == h.pends[r].place
  }

  /** Only arriving and parking change who asks for what. */
  lemma StepSame(h: Hub, a: Action)
    requires Owned(h) && Enabled(h, a) && !a.Arrive? && !a.Park?
    ensures SubmitsSame(h, Step(h, a)) && PendsSame(h, Step(h, a))
  {
    hide Inbox, ThrottleOf, Throttle.Promoted, Throttle.Demoted, Throttle.Free, Owned;
  }

  lemma OwnedKept(h: Hub, a: Action)
    requires Owned(h) && Enabled(h, a)
    ensures Owned(Step(h, a))
  {
    hide Inbox, ThrottleOf, Throttle.Promoted, Throttle.Demoted, Throttle.Free;
    if a.Arrive? {
      OwnedArrive(h, a);
    } else if a.Park? {
      OwnedPark(h, a);
    } else {
      StepSame(h, a);
      OwnedSame(h, Step(h, a));
    }
  }

  lemma OwnedSame(h: Hub, g: Hub)
    requires Owned(h) && SubmitsSame(h, g) && PendsSame(h, g)
    ensures Owned(g)
  {
    hide ReqOf;
  }

  lemma OwnedArrive(h: Hub, a: Action)
    requires Owned(h) && a.Arrive? && Enabled(h, a)
    ensures Owned(Step(h, a))
  {
    hide ThrottleOf, Throttle.Promoted;
  }

  lemma OwnedPark(h: Hub, a: Action)
    requires Owned(h) && a.Park? && Enabled(h, a)
    ensures Owned(Step(h, a)) && Step(h, a).last !in h.pends
  {
    hide ThrottleOf;
    assert h.last + 1 !in h.pends;
  }

  // -------------------------------------------------------------- _pending

  predicate StillUnfinished(h: Hub, g: Hub) {
    h.pending == g.pending
    && forall i :: i in h.submits && i in g.submits ==> (Unfinished(h.submits[i].stage) <==> Unfinished(g.submits[i].stage))
  }

  lemma PendingKept(h: Hub, a: Action)
    requires Owned(h) && PendingExact(h) && Enabled(h, a)
    ensures PendingExact(Step(h, a))
  {
    if a.Arrive? || a.Park? || a.Remove? {
      PendingMoves(h, a);
    } else {
      StepSame(h, a);
      PendingStill(h, a);
      PendingSame(h, Step(h, a));
    }
  }

  lemma PendingStill(h: Hub, a: Action)
    requires Enabled(h, a) && !a.Arrive? && !a.Park? && !a.Remove?
    ensures StillUnfinished(h, Step(h, a))
  {
    hide Inbox, ThrottleOf, Throttle.Promoted, Throttle.Demoted, Throttle.Free;
  }

  lemma PendingSame(h: Hub, g: Hub)
    requires Owned(h) && PendingExact(h) && SubmitsSame(h, g) && PendsSame(h, g) && StillUnfinished(h, g)
    ensures PendingExact(g)
  {
    hide ReqOf, Unfinished;
  }

  lemma PendingMoves(h: Hub, a: Action)
    requires Owned(h) && PendingExact(h) && Enabled(h, a) && (a.Arrive? || a.Park? || a.Remove?)
    ensures PendingExact(Step(h, a))
  {
    hide Inbox, ThrottleOf, Throttle.Promoted;
  }

  // -------------------------------------------------------------- answers

  /** What is answered and signalled is not taken back, and who wrote it is still known. */
  predicate DeliveriesSame(h: Hub, g: Hub) {
    h.delivers == g.delivers
    && forall r :: r in h.pends && r in g.pends ==>
         g.pends[r].answer == h.pends[r].answer && g.pends[r].signalled == h.pends[r].signalled
  }

  lemma AnsweredKept(h: Hub, a: Action)
    requires Owned(h) && Answered(h) && Enabled(h, a)
    ensures Answered(Step(h, a))
  {
    match a
    case Look(_, _, _, _) => AnsweredDeliver(h, a);
    case Write(_) => AnsweredDeliver(h, a);
    case Signal(_) => AnsweredDeliver(h, a);
    case _ => AnsweredSubmit(h, a);
  }

  lemma AnsweredSubmit(h: Hub, a: Action)
    requires Owned(h) && Answered(h) && Enabled(h, a) && !a.Look? && !a.Write? && !a.Signal?
    ensures Answered(Step(h, a))
  {
    hide Answered, Owned;
    var g := Step(h, a);
    DeliveriesStay(h, a);
    forall i | i in g.submits ensures StageAnswered(g, g.submits[i].stage) { StageKept(h, a, i); }
    AnsweredSame(h, g);
  }

  /** What a step by a submitter or a probe leaves of the replies. */
  predicate RepliesStay(h: Hub, g: Hub) {
    && DeliveriesSame(h, g) && h.pends.Keys <= g.pends.Keys
    && (forall r :: r in g.pends && r !in h.pends ==> g.pends[r].answer == None && !g.pends[r].signalled)
    && (forall r :: r in h.pends ==> g.pends[r].place == h.pends[r].place)
  }

  lemma DeliveriesStay(h: Hub, a: Action)
    requires Owned(h) && Enabled(h, a) && !a.Look? && !a.Write? && !a.Signal?
    ensures RepliesStay(h, Step(h, a))
  {
    hide Inbox, ThrottleOf, Throttle.Promoted, Throttle.Demoted, Throttle.Free, Owned;
    if a.Park? {
      OwnedPark(h, a);
    } else {
      assert Step(h, a).pends == h.pends && Step(h, a).delivers == h.delivers;
    }
  }

  lemma AnsweredSame(h: Hub, g: Hub)
    requires Answered(h) && RepliesStay(h, g)
    requires forall i :: i in g.submits ==> StageAnswered(g, g.submits[i].stage)
    ensures Answered(g)
  {
    hide StageAnswered;
    forall r | r in g.pends && g.pends[r].answer.Some? ensures Wrote(g, r, g.pends[r].answer.value) {
      assert r in h.pends && Wrote(h, r, h.pends[r].answer.value);
    }
  }

  lemma WroteStays(h: Hub, g: Hub, r: nat, answer: string)
    requires h.delivers == g.delivers
    ensures Wrote(g, r, answer) <==> Wrote(h, r, answer)
  {}

  /** A submitter's own step: what it holds is still what was written. */
  lemma StageKept(h: Hub, a: Action, i: nat)
    requires Owned(h) && Answered(h) && Enabled(h, a) && !a.Look? && !a.Write? && !a.Signal?
    requires i in Step(h, a).submits
    ensures StageAnswered(Step(h, a), Step(h, a).submits[i].stage)
  {
    hide Inbox, ThrottleOf, Throttle.Promoted, Throttle.Demoted, Throttle.Free, Wrote, Owned;
    var g := Step(h, a);
    DeliveriesStay(h, a);
    if i in h.submits && g.submits[i] == h.submits[i] {
      SameStageKept(h, g, h.submits[i].stage);
    } else if a.Collect? {
      CollectKept(h, a);
    } else if a.Wake? || a.Remove? || a.Finish? {
      ReplyKept(h, a);
    } else {
      assert ReqOf(g.submits[i].stage).None? || g.submits[i].stage.Parked? || g.submits[i].stage.Waiting?;
    }
  }

  lemma SameStageKept(h: Hub, g: Hub, s: Stage)
    requires StageAnswered(h, s) && RepliesStay(h, g)
    ensures StageAnswered(g, s)
  {
    hide Wrote;
    forall r, x ensures Wrote(g, r, x) <==> Wrote(h, r, x) { WroteStays(h, g, r, x); }
  }

  lemma CollectKept(h: Hub, a: Action)
    requires Answered(h) && Enabled(h, a) && a.Collect?
    ensures StageAnswered(Step(h, a), Step(h, a).submits[a.id].stage)
  {
    hide Wrote;
    var g, s := Step(h, a), h.submits[a.id].stage;
    assert StageAnswered(h, s);
    if s.got {
      WroteStays(h, g, s.req, h.pends[s.req].answer.value);
    }
  }

  lemma ReplyKept(h: Hub, a: Action)
    requires Answered(h) && Enabled(h, a) && (a.Wake? || a.Remove? || a.Finish?)
    ensures StageAnswered(Step(h, a), Step(h, a).submits[a.id].stage)
  {
    hide Wrote, ThrottleOf;
    var g, s := Step(h, a), h.submits[a.id].stage;
    assert StageAnswered(h, s);
    if a.Finish? && s.result.Some? { WroteStays(h, g, s.req, s.result.value); }
  }

  lemma AnsweredDeliver(h: Hub, a: Action)
    requires Owned(h) && Answered(h) && Enabled(h, a) && (a.Look? || a.Write? || a.Signal?)
    ensures Answered(Step(h, a))
  {
    hide *;
    DeliverPrelude(h, a);
    match a
    case Look(_, _, _, _) => AnsweredLook(h, a);
    case Write(_) => AnsweredWrite(h, a);
    case Signal(_) => AnsweredSignal(h, a);
  }

  lemma DeliverPrelude(h: Hub, a: Action)
    requires Answered(h) && Enabled(h, a) && (a.Look? || a.Write? || a.Signal?)
    ensures forall r, x :: Wrote(h, r, x) ==> Wrote(Step(h, a), r, x)
    ensures forall i :: i in Step(h, a).submits ==> StageAnswered(Step(h, a), Step(h, a).submits[i].stage)
  {
    hide Wrote, Step, StageAnswered;
    var g := Step(h, a);
    forall r, x ensures Wrote(h, r, x) ==> Wrote(g, r, x) { WroteGrows(h, a, r, x); }
    DeliverLeaves(h, a);
    forall i | i in g.submits ensures StageAnswered(g, g.submits[i].stage) {
      StageGrows(h, g, g.submits[i].stage);
    }
  }

  lemma AnsweredLook(h: Hub, a: Action)
    requires Answered(h) && Enabled(h, a) && a.Look?
    requires forall r, x :: Wrote(h, r, x) ==> Wrote(Step(h, a), r, x)
    requires forall i :: i in Step(h, a).submits ==> StageAnswered(Step(h, a), Step(h, a).submits[i].stage)
    ensures Answered(Step(h, a))
  {
    hide Wrote, Step, StageAnswered, Enabled;
    LookIs(h, a);
  }

  lemma AnsweredWrite(h: Hub, a: Action)
    requires Answered(h) && Enabled(h, a) && a.Write?
    requires forall r, x :: Wrote(h, r, x) ==> Wrote(Step(h, a), r, x)
    requires forall i :: i in Step(h, a).submits ==> StageAnswered(Step(h, a), Step(h, a).submits[i].stage)
    ensures Answered(Step(h, a))
  {
    hide Wrote, Step, StageAnswered;
    WriteIs(h, a);
  }

  lemma AnsweredSignal(h: Hub, a: Action)
    requires Answered(h) && Enabled(h, a) && a.Signal?
    requires forall r, x :: Wrote(h, r, x) ==> Wrote(Step(h, a), r, x)
    requires forall i :: i in Step(h, a).submits ==> StageAnswered(Step(h, a), Step(h, a).submits[i].stage)
    ensures Answered(Step(h, a))
  {
    hide Wrote, Step, StageAnswered;
    SignalIs(h, a);
  }

  /** A delivery touches no submitter and takes no signal back. */
  lemma DeliverLeaves(h: Hub, a: Action)
    requires Enabled(h, a) && (a.Look? || a.Write? || a.Signal?)
    ensures Step(h, a).submits == h.submits && Step(h, a).pends.Keys == h.pends.Keys
    ensures forall r :: r in h.pends ==> h.pends[r].signalled ==> Step(h, a).pends[r].signalled
    ensures forall r :: r in h.pends ==> h.pends[r].place == Step(h, a).pends[r].place
  {}

  lemma StageGrows(h: Hub, g: Hub, s: Stage)
    requires StageAnswered(h, s) && h.pends.Keys == g.pends.Keys
    requires forall r :: r in h.pends ==> h.pends[r].signalled ==> g.pends[r].signalled
    requires forall r, x :: Wrote(h, r, x) ==> Wrote(g, r, x)
    ensures StageAnswered(g, s)
  {
    hide Wrote;
  }

  lemma LookIs(h: Hub, a: Action)
    requires Enabled(h, a) && a.Look?
    ensures Step(h, a).pends == h.pends
    ensures Step(h, a).delivers == h.delivers[a.id := Deliver(a.req, a.place, a.answer, Found)]
    ensures a.req in h.pends && h.pends[a.req].place == a.place
  {}

  lemma WriteIs(h: Hub, a: Action)
    requires Enabled(h, a) && a.Write?
    ensures
      var d, g := h.delivers[a.id], Step(h, a);
      && g.pends == h.pends[d.req := h.pends[d.req].(answer := Some(d.answer))]
      && g.delivers == h.delivers[a.id := d.(progress := Written)]
      && Wrote(g, d.req, d.answer)
  {
    assert a.id in Step(h, a).delivers;
  }

  lemma SignalIs(h: Hub, a: Action)
    requires Enabled(h, a) && a.Signal?
    ensures
      var d, g := h.delivers[a.id], Step(h, a);
      && g.pends == h.pends[d.req := h.pends[d.req].(signalled := true)]
      && g.delivers == h.delivers[a.id := d.(progress := Signalled)]
      && d.progress.Written?
  {}

  lemma WroteGrows(h: Hub, a: Action, r: nat, x: string)
    requires Enabled(h, a) && (a.Look? || a.Write? || a.Signal?)
    ensures Wrote(h, r, x) ==> Wrote(Step(h, a), r, x)
  {
    if Wrote(h, r, x) {
      var d :| d in h.delivers && h.delivers[d].req == r && h.delivers[d].answer == x && !h.delivers[d].progress.Found?;
      assert d in Step(h, a).delivers;
    }
  }

  // ------------------------------------------------------- handed out once

  /** The request's submitter has put it in the inbox. */
  ghost predicate Sent(h: Hub, r: nat, place: Place) {
    r in h.pends && h.pends[r].place == place && h.pends[r].owner in h.submits && !h.submits[h.pends[r].owner].stage.Parked?
  }

  /** A request is in its own probe's inbox, or has been handed to it, or neither: never twice, never elsewhere. */
  ghost predicate HandedOnce(h: Hub) {
    && (forall p, i :: 0 <= i < |Inbox(h, p)| ==> Sent(h, Inbox(h, p)[i], p))
    && (forall p, i, k :: 0 <= i < k < |Inbox(h, p)| ==> Inbox(h, p)[i] != Inbox(h, p)[k])
    && (forall i :: 0 <= i < |h.handed| ==> Sent(h, h.handed[i].req, h.handed[i].place))
    && (forall i, k :: 0 <= i < k < |h.handed| ==> h.handed[i].req != h.handed[k].req)
    && (forall p, i, k :: 0 <= i < |Inbox(h, p)| && 0 <= k < |h.handed| ==> Inbox(h, p)[i] != h.handed[k].req)
  }

  lemma SentKept(h: Hub, a: Action, r: nat, place: Place)
    requires Owned(h) && Enabled(h, a) && Sent(h, r, place)
    ensures Sent(Step(h, a), r, place)
  {
    hide Owned, Step, Enabled;
    if a.Arrive? || a.Park? {
      SentStays(h, a, r, place);
    } else {
      StepSame(h, a);
      NoneParks(h, a, h.pends[r].owner);
    }
  }

  lemma NoneParks(h: Hub, a: Action, i: nat)
    requires Enabled(h, a) && !a.Arrive? && !a.Park? && i in h.submits && !h.submits[i].stage.Parked?
    ensures i in Step(h, a).submits && !Step(h, a).submits[i].stage.Parked?
  {
    hide Inbox, ThrottleOf, Throttle.Promoted, Throttle.Demoted, Throttle.Free;
  }

  lemma SentStays(h: Hub, a: Action, r: nat, place: Place)
    requires Owned(h) && Enabled(h, a) && Sent(h, r, place) && (a.Arrive? || a.Park?)
    ensures Sent(Step(h, a), r, place)
  {
    hide ThrottleOf, Throttle.Promoted;
  }

  lemma HandedKept(h: Hub, a: Action)
    requires Owned(h) && HandedOnce(h) && Enabled(h, a)
    ensures HandedOnce(Step(h, a))
  {
    hide Owned, Sent, Step, Enabled, HandedOnce;
    forall r, p | Sent(h, r, p) ensures Sent(Step(h, a), r, p) { SentKept(h, a, r, p); }
    if a.Enqueue? {
      EnqueueIs(h, a);
      HandedEnqueue(h, Step(h, a), h.submits[a.id].place, h.submits[a.id].stage.req);
    } else if a.Poll? {
      PollIs(h, a);
      HandedPoll(h, Step(h, a), a.place);
    } else {
      OtherIs(h, a);
      HandedSame(h, Step(h, a));
    }
  }

  lemma OtherIs(h: Hub, a: Action)
    requires Enabled(h, a) && !a.Enqueue? && !a.Poll?
    ensures Step(h, a).inbox == h.inbox && Step(h, a).handed == h.handed
  {
    hide ThrottleOf, Throttle.Promoted, Throttle.Demoted, Throttle.Free;
  }

  lemma HandedSame(h: Hub, g: Hub)
    requires HandedOnce(h) && g.inbox == h.inbox && g.handed == h.handed
    requires forall r, p :: Sent(h, r, p) ==> Sent(g, r, p)
    ensures HandedOnce(g)
  {
    hide Sent;
    assert forall p :: Inbox(g, p) == Inbox(h, p);
  }

  lemma EnqueueIs(h: Hub, a: Action)
    requires Owned(h) && Enabled(h, a) && a.Enqueue?
    ensures a.id in h.submits && h.submits[a.id].stage.Parked?
    ensures
      var req, place, g := h.submits[a.id].stage.req, h.submits[a.id].place, Step(h, a);
      && g.handed == h.handed && g.inbox == h.inbox[place := Inbox(h, place) + [req]]
      && Sent(g, req, place) && forall p :: !Sent(h, req, p)
  {
    assert ReqOf(h.submits[a.id].stage).Some?;
  }

  lemma HandedEnqueue(h: Hub, g: Hub, place: Place, req: nat)
    requires HandedOnce(h) && g.handed == h.handed && g.inbox == h.inbox[place := Inbox(h, place) + [req]]
    requires forall r, p :: Sent(h, r, p) ==> Sent(g, r, p)
    requires Sent(g, req, place) && forall p :: !Sent(h, req, p)
    ensures HandedOnce(g)
  {
    hide Sent;
    forall p ensures Inbox(g, p) == if p == place then Inbox(h, place) + [req] else Inbox(h, p) {}
  }

  lemma PollIs(h: Hub, a: Action)
    requires Enabled(h, a) && a.Poll?
    ensures
      var q, g := Inbox(h, a.place), Step(h, a);
      q != [] && g.inbox == h.inbox[a.place := q[1..]] && g.handed == h.handed + [Handed(q[0], a.place)]
  {}

  lemma HandedPoll(h: Hub, g: Hub, place: Place)
    requires HandedOnce(h) && Inbox(h, place) != []
    requires g.inbox == h.inbox[place := Inbox(h, place)[1..]] && g.handed == h.handed + [Handed(Inbox(h, place)[0], place)]
    requires forall r, p :: Sent(h, r, p) ==> Sent(g, r, p)
    ensures HandedOnce(g)
  {
    PollApart(h, place);
    hide Sent;
    forall p ensures Inbox(g, p) == if p == place then Inbox(h, place)[1..] else Inbox(h, p) {}
  }

  /** Different inboxes hold different requests. */
  lemma PollApart(h: Hub, place: Place)
    requires HandedOnce(h) && Inbox(h, place) != []
    ensures forall p, i :: p != place && 0 <= i < |Inbox(h, p)| ==> Inbox(h, p)[i] != Inbox(h, place)[0]
  {
    hide Inbox;
    assert Sent(h, Inbox(h, place)[0], place);
    forall p, i | p != place && 0 <= i < |Inbox(h, p)| ensures Inbox(h, p)[i] != Inbox(h, place)[0] {
      assert Sent(h, Inbox(h, p)[i], p);
    }
  }

  // ------------------------------------------------------- nothing is lost

  /** What one probe has been handed so far, in order. */
  function HandedTo(handed: seq<Handed>, p: Place): seq<nat> {
    if handed == [] then []
    else HandedTo(handed[..|handed|-1], p) + (if handed[|handed|-1].place == p then [handed[|handed|-1].req] else [])
  }

  /** All that was ever put in a probe's inbox, in order: what was handed to it, then what waits there. */
  function Queue(h: Hub, p: Place): seq<nat> {
    HandedTo(h.handed, p) + Inbox(h, p)
  }

  /** The inbox is a queue: enqueuing adds the request behind all others, polling takes the first, and nothing else touches it. */
  lemma QueueGrows(h: Hub, a: Action, p: Place)
    requires Owned(h) && Enabled(h, a)
    ensures
      var g := Step(h, a);
      && Queue(g, p) == Queue(h, p) + (if a.Enqueue? && h.submits[a.id].place == p then [ReqOf(h.submits[a.id].stage).value] else [])
      && |Inbox(g, p)| == |Inbox(h, p)| + (if a.Enqueue? && h.submits[a.id].place == p then 1 else 0) - (if a.Poll? && a.place == p then 1 else 0)
  {
    hide Owned, Step, Enabled;
    if a.Enqueue? {
      EnqueueIs(h, a);
    } else if a.Poll? {
      PollIs(h, a);
      var q := Inbox(h, a.place);
      var more := h.handed + [Handed(q[0], a.place)];
      assert more[..|h.handed|] == h.handed;
      assert [q[0]] + q[1..] == q;
    } else {
      OtherIs(h, a);
    }
  }

  /** Every request that was put in an inbox is in its queue still. */
  ghost predicate AllQueued(h: Hub) {
    forall r, p :: Sent(h, r, p) ==> r in Queue(h, p)
  }

  lemma SentFrom(h: Hub, a: Action, r: nat, p: Place)
    requires Owned(h) && Enabled(h, a) && Sent(Step(h, a), r, p) && !Sent(h, r, p)
    ensures a.Enqueue? && a.id in h.submits && h.submits[a.id].place == p && ReqOf(h.submits[a.id].stage) == Some(r)
  {
    if a.Arrive? || a.Park? {
      hide ThrottleOf, Throttle.Promoted;
    } else {
      hide Step, Enabled;
      StepSame(h, a);
      Unparks(h, a, h.pends[r].owner);
    }
  }

  lemma Unparks(h: Hub, a: Action, i: nat)
    requires Enabled(h, a) && i in h.submits && h.submits[i].stage.Parked? && i in Step(h, a).submits && !Step(h, a).submits[i].stage.Parked?
    ensures a.Enqueue? && a.id == i
  {
    hide Inbox, ThrottleOf, Throttle.Promoted, Throttle.Demoted, Throttle.Free;
  }

  lemma QueuedKept(h: Hub, a: Action)
    requires Owned(h) && AllQueued(h) && Enabled(h, a)
    ensures AllQueued(Step(h, a))
  {
    hide Owned, Step, Enabled, Sent, Queue;
    var g := Step(h, a);
    forall r, p | Sent(g, r, p) ensures r in Queue(g, p) {
      QueueGrows(h, a, p);
      if !Sent(h, r, p) { SentFrom(h, a, r, p); }
    }
  }

  // ------------------------------------------------------------- throttles

  /** Who is inside a device's throttle. */
  ghost function Holders(h: Hub, target: Target): set<nat> {
    set i | i in h.submits && h.submits[i].target == target && Inside(h.submits[i].stage)
  }

  ghost predicate Throttled(h: Hub) {
    && Fresh0(h).Sound()
    && forall t :: ThrottleOf(h, t).Sound() && ThrottleOf(h, t).levels == h.ladder && ThrottleOf(h, t).active == |Holders(h, t)|
  }

  function Fresh0(h: Hub): Throttle.State {
    Throttle.Fresh(h.ladder)
  }

  /** Only `Grant` lets anyone in, when there is room at the level of the moment; only `Finish` lets them out. */
  lemma HoldersMove(h: Hub, a: Action, t: Target)
    requires Enabled(h, a)
    ensures
      var was, now := Holders(h, t), Holders(Step(h, a), t);
      if a.Grant? && t == h.submits[a.id].target then a.id !in was && now == was + {a.id}
      else if a.Finish? && t == h.submits[a.id].target then a.id in was && now == was - {a.id}
      else now == was
  {
    hide Step, Enabled, Inside;
    HolderMoves(h, a, t, 0);
    forall i { HolderMoves(h, a, t, i); }
    var was, now := Holders(h, t), Holders(Step(h, a), t);
    if a.Grant? && t == h.submits[a.id].target { assert now == was + {a.id}; }
    else if a.Finish? && t == h.submits[a.id].target { assert now == was - {a.id}; }
    else { assert now == was; }
  }

  lemma HolderMoves(h: Hub, a: Action, t: Target, i: nat)
    requires Enabled(h, a)
    ensures a.Grant? || a.Finish? ==> a.id in h.submits
    ensures i in Holders(Step(h, a), t)
            <==> (i in Holders(h, t) && !(a.Finish? && i == a.id)) || (a.Grant? && i == a.id && t == h.submits[a.id].target)
    ensures a.Grant? ==> a.id !in Holders(h, t)
    ensures a.Finish? && t == h.submits[a.id].target ==> a.id in Holders(h, t)
  {
    hide Inbox, ThrottleOf, Throttle.Promoted, Throttle.Demoted, Throttle.Free;
  }

  lemma ThrottleMove(h: Hub, a: Action, t: Target)
    requires Enabled(h, a)
    ensures Step(h, a).ladder == h.ladder
    ensures a.Grant? || a.Finish? ==> a.id in h.submits
    ensures
      var was, now := ThrottleOf(h, t), ThrottleOf(Step(h, a), t);
      if a.Grant? && t == h.submits[a.id].target then now == Throttle.Entered(was) && was.level < |was.levels| && Throttle.Free(was)
      else if a.Finish? && t == h.submits[a.id].target then now == Throttle.Left(was)
      else if a.Arrive? && t == a.target then now == Throttle.Promoted(was, a.now)
      else if a.Fail? && t == a.target then now == Throttle.Demoted(was, a.now)
      else now == was
  {
    hide Inbox, Throttle.Promoted, Throttle.Demoted, Throttle.Entered, Throttle.Left;
  }

  lemma LevelKept(s: Throttle.State, now: real)
    requires s.Sound()
    ensures Throttle.Promoted(s, now).Sound() && Throttle.Demoted(s, now).Sound()
    ensures Throttle.Promoted(s, now).active == s.active == Throttle.Demoted(s, now).active
    ensures Throttle.Promoted(s, now).levels == s.levels == Throttle.Demoted(s, now).levels
  {}

  lemma EnteredKept(s: Throttle.State)
    requires s.Sound() && Throttle.Free(s)
    ensures Throttle.Entered(s).Sound() && Throttle.Entered(s).levels == s.levels && Throttle.Entered(s).active == s.active + 1
  {
    Throttle.TopMost(s.levels, s.level);
  }

  lemma ThrottledKept(h: Hub, a: Action)
    requires Throttled(h) && Enabled(h, a)
    ensures Throttled(Step(h, a))
  {
    hide Step, Enabled, Holders, ThrottleOf, Throttle.State.Sound, Throttle.Promoted, Throttle.Demoted, Throttle.Entered, Throttle.Free, Inside;
    var g := Step(h, a);
    ThrottleMove(h, a, ("", 0));
    forall t ensures ThrottleOf(g, t).Sound() && ThrottleOf(g, t).levels == g.ladder && ThrottleOf(g, t).active == |Holders(g, t)| {
      ThrottleMove(h, a, t);
      HoldersMove(h, a, t);
      var was := ThrottleOf(h, t);
      if a.Grant? && t == h.submits[a.id].target { EnteredKept(was); }
      if a.Finish? && t == h.submits[a.id].target { LeftKept(was, Holders(h, t), a.id); }
      if a.Arrive? { LevelKept(was, a.now); }
      if a.Fail? { LevelKept(was, a.now); }
    }
  }

  lemma LeftKept(s: Throttle.State, holders: set<nat>, id: nat)
    requires s.Sound() && s.active == |holders| && id in holders
    ensures Throttle.Left(s).Sound() && Throttle.Left(s).levels == s.levels && Throttle.Left(s).active == |holders - {id}|
  {}

  /** A device gains a request only below the level of the moment. */
  lemma GrowsOnlyBelow(h: Hub, a: Action, t: Target)
    requires Throttled(h) && Enabled(h, a) && |Holders(Step(h, a), t)| > |Holders(h, t)|
    ensures ThrottleOf(h, t).level < |ThrottleOf(h, t).levels| && |Holders(h, t)| < ThrottleOf(h, t).Limit()
  {
    hide Step, Holders, Throttle.Promoted, Throttle.Demoted;
    HoldersMove(h, a, t);
    ThrottleMove(h, a, t);
  }

  // ------------------------------------------------------------- every run

  ghost predicate Safe(h: Hub) {
    Owned(h) && PendingExact(h) && Answered(h) && HandedOnce(h) && AllQueued(h) && Throttled(h)
  }

  lemma OpeningSafe(top: int)
    ensures Safe(Opening(top))
  {
    var h := Opening(top);
    assert forall t :: Holders(h, t) == {};
  }

  lemma NextSafe(h: Hub, a: Action)
    requires Safe(h)
    ensures Safe(Next(h, a)) && Next(h, a).ladder == h.ladder
  {
    hide Owned, PendingExact, Answered, HandedOnce, AllQueued, Throttled, Step, Enabled;
    if Enabled(h, a) {
      OwnedKept(h, a);
      PendingKept(h, a);
      AnsweredKept(h, a);
      HandedKept(h, a);
      QueuedKept(h, a);
      ThrottledKept(h, a);
      ThrottleMove(h, a, ("", 0));
    }
  }

  lemma {:induction false} RunSafe(top: int, actions: seq<Action>)
    ensures Safe(Run(Opening(top), actions)) && Run(Opening(top), actions).ladder == Throttle.Ladder(top)
  {
    hide Safe, Next;
    if actions == [] {
      OpeningSafe(top);
    } else {
      RunSafe(top, actions[..|actions|-1]);
      NextSafe(Run(Opening(top), actions[..|actions|-1]), actions[|actions|-1]);
    }
  }

  lemma SubmitsStay(h: Hub, a: Action, id: nat)
    ensures id in Next(h, a).submits <==> id in h.submits || (a.Arrive? && a.id == id)
    ensures id in h.submits ==> Next(h, a).submits[id].place == h.submits[id].place && Next(h, a).submits[id].target == h.submits[id].target
    ensures a.Arrive? && a.id == id && id !in h.submits ==> Next(h, a).submits[id] == Submit(a.place, a.target, Queued)
  {
    hide Inbox, ThrottleOf, Throttle.Promoted, Throttle.Demoted, Throttle.Free;
  }

  /** The submitters are those that arrived, each asking what it asked for when it first did. */
  lemma {:induction false} SubmittersArrived(top: int, actions: seq<Action>, id: nat) returns (k: nat)
    ensures id in Run(Opening(top), actions).submits <==> k < |actions|
    ensures forall j :: 0 <= j < |actions| && j < k ==> !(actions[j].Arrive? && actions[j].id == id)
    ensures k < |actions| ==>
              var s := Run(Opening(top), actions).submits[id];
              actions[k].Arrive? && actions[k].id == id && s.place == actions[k].place && s.target == actions[k].target
  {
    if actions == [] {
      k := 0;
    } else {
      hide Next;
      var n := |actions| - 1;
      var init, a := actions[..n], actions[n];
      k := SubmittersArrived(top, init, id);
      SubmitsStay(Run(Opening(top), init), a, id);
      if k >= n { k := if a.Arrive? && a.id == id then n else n + 1; }
    }
  }

  /** How a submitter's wait ended, once it has. */
  function Ended(s: Stage): Option<bool> {
    match s
    case Leaving(_, got) => Some(got)
    case Gone(_, got) => Some(got)
    case Back(_, got, _) => Some(got)
    case Done(_, got, _) => Some(got)
    case _ => None
  }

  lemma EndedFrom(h: Hub, a: Action, id: nat)
    requires id in Next(h, a).submits && Ended(Next(h, a).submits[id].stage).Some?
    ensures
      var got := Ended(Next(h, a).submits[id].stage);
      (id in h.submits && Ended(h.submits[id].stage) == got) || a == Wake(id, !got.value)
  {
    hide Inbox, ThrottleOf, Throttle.Promoted, Throttle.Demoted, Throttle.Free;
  }

  /** A wait that is over ended by being woken or by running out of time. */
  lemma {:induction false} WaitEnded(top: int, actions: seq<Action>, id: nat)
    requires id in Run(Opening(top), actions).submits && Ended(Run(Opening(top), actions).submits[id].stage).Some?
    ensures Wake(id, !Ended(Run(Opening(top), actions).submits[id].stage).value) in actions
  {
    hide Next, Ended;
    if actions != [] {
      var n := |actions| - 1;
      var h := Run(Opening(top), actions[..n]);
      EndedFrom(h, actions[n], id);
      if id in h.submits && Ended(h.submits[id].stage) == Ended(Next(h, actions[n]).submits[id].stage) {
        WaitEnded(top, actions[..n], id);
      }
      assert actions == actions[..n] + [actions[n]];
    }
  }

  /**
   A submitter that was woken returns an answer, one delivered for its own request by its own
   probe; one that returns nothing ran out of time.
   */
  lemma {:induction false} AnswersAreOwn(top: int, actions: seq<Action>, id: nat)
    requires id in Run(Opening(top), actions).submits && Run(Opening(top), actions).submits[id].stage.Done?
    ensures
      var h := Run(Opening(top), actions);
      var s := h.submits[id];
      && s.stage.req in h.pends && h.pends[s.stage.req].owner == id
      && match s.stage.result
         case None => Wake(id, true) in actions
         case Some(answer) =>
           && Wake(id, false) in actions
           && exists d :: d in h.delivers && h.delivers[d].req == s.stage.req && h.delivers[d].place == s.place
                          && h.delivers[d].answer == answer && !h.delivers[d].progress.Found?
  {
    hide Run, PendingExact, HandedOnce, AllQueued, Throttled;
    RunSafe(top, actions);
    WaitEnded(top, actions, id);
    var h := Run(Opening(top), actions);
    var s := h.submits[id];
    assert ReqOf(s.stage) == Some(s.stage.req) && StageAnswered(h, s.stage);
    if s.stage.result.Some? {
      var d :| d in h.delivers && h.delivers[d].req == s.stage.req && h.delivers[d].answer == s.stage.result.value
               && !h.delivers[d].progress.Found?;
      assert h.pends[s.stage.req].place == s.place;
    }
  }

  /** A submitter that waits for a request some delivery has signalled. */
  ghost predicate Called(h: Hub, id: nat) {
    id in h.submits && h.submits[id].stage.Waiting?
    && exists d :: d in h.delivers && h.delivers[d].req == h.submits[id].stage.req && h.delivers[d].progress.Signalled?
  }

  /**
   An answer delivered in time comes back: in any state a run reaches, a submitter whose
   request has been answered and signalled may wake, and if it does, and nobody answers the
   request again meanwhile, it takes its request off the list and returns that answer.
   */
  lemma {:induction false} DeliveredComesBack(top: int, actions: seq<Action>, id: nat)
    requires Called(Run(Opening(top), actions), id)
    ensures
      var h := Run(Opening(top), actions);
      var r := h.submits[id].stage.req;
      && r in h.pends && h.pends[r].answer.Some? && Wrote(h, r, h.pends[r].answer.value)
      && var g := Next(Next(Next(Next(h, Wake(id, false)), Remove(id)), Collect(id)), Finish(id));
         && id in g.submits && g.submits[id].stage == Done(r, true, h.pends[r].answer)
         && g.pending == h.pending - {r} && g.pends == h.pends
  {
    hide Run, PendingExact, HandedOnce, AllQueued, Throttled;
    RunSafe(top, actions);
    var h := Run(Opening(top), actions);
    assert ReqOf(h.submits[id].stage).Some?;
    hide Throttle.Left, ThrottleOf, Wrote, Owned, StageAnswered;
    ComesBack(h, id);
  }

  lemma ComesBack(h: Hub, id: nat)
    requires id in h.submits && h.submits[id].stage.Waiting? && h.submits[id].stage.req in h.pends && h.pends[h.submits[id].stage.req].signalled
    ensures
      var r := h.submits[id].stage.req;
      var g := Next(Next(Next(Next(h, Wake(id, false)), Remove(id)), Collect(id)), Finish(id));
      && id in g.submits && g.submits[id].stage == Done(r, true, h.pends[r].answer)
      && g.pending == h.pending - {r} && g.pends == h.pends
  {
    hide Throttle.Left, ThrottleOf;
    var a := Next(h, Wake(id, false));
    var b := Next(a, Remove(id));
    var c := Next(b, Collect(id));
    assert a.submits[id].stage == Leaving(h.submits[id].stage.req, true);
    assert b.submits[id].stage == Gone(h.submits[id].stage.req, true);
    assert c.submits[id].stage == Back(h.submits[id].stage.req, true, h.pends[h.submits[id].stage.req].answer);
  }

  /** Nobody is stuck: in any state a run reaches, whoever is not through yet can go on. */
  lemma {:induction false} NobodyIsStuck(top: int, actions: seq<Action>, id: nat)
    requires id in Run(Opening(top), actions).submits
    ensures
      var h := Run(Opening(top), actions);
      var s, t := h.submits[id], ThrottleOf(h, h.submits[id].target);
      match s.stage
      case Queued =>
        && t.level < |t.levels|
        && (Enabled(h, Grant(id)) <==> t.active < t.levels[t.level])
        && (Enabled(h, GiveUp(id)) <==> t.active >= t.levels[t.level])
      case Holding => Enabled(h, Park(id))
      case Parked(_) => Enabled(h, Enqueue(id))
      case Waiting(r) => r in h.pends && Enabled(h, Wake(id, true)) && (Enabled(h, Wake(id, false)) <==> h.pends[r].signalled)
      case Leaving(_, _) => Enabled(h, Remove(id))
      case Gone(_, _) => Enabled(h, Collect(id))
      case Back(_, _, _) => Enabled(h, Finish(id))
      case _ => true
  {
    hide Run, PendingExact, HandedOnce, AllQueued, Answered;
    RunSafe(top, actions);
    var h := Run(Opening(top), actions);
    assert ReqOf(h.submits[id].stage).Some? ==> ReqOf(h.submits[id].stage).value in h.pends;
    assert ThrottleOf(h, h.submits[id].target).Sound();
  }

  /** A probe may answer exactly the requests of its own that are still waited for. */
  lemma {:induction false} MayAnswer(top: int, actions: seq<Action>, d: nat, r: nat, place: Place, answer: string)
    ensures
      var h := Run(Opening(top), actions);
      Enabled(h, Look(d, r, place, answer))
      <==> d !in h.delivers
           && exists i :: i in h.submits && h.submits[i].place == place && Unfinished(h.submits[i].stage) && ReqOf(h.submits[i].stage) == Some(r)
  {
    hide Run, HandedOnce, AllQueued, Answered, Throttled;
    RunSafe(top, actions);
  }

  /** A request is handed out once at most, and to its own probe. */
  lemma {:induction false} PolledOnce(top: int, actions: seq<Action>, i: nat, k: nat)
    requires i < k < |Run(Opening(top), actions).handed|
    ensures
      var h := Run(Opening(top), actions);
      && h.handed[i].req != h.handed[k].req
      && h.handed[i].req in h.pends && h.handed[i].place == h.pends[h.handed[i].req].place
  {
    hide Run, Owned, PendingExact, Answered, AllQueued, Throttled;
    RunSafe(top, actions);
    var h := Run(Opening(top), actions);
    assert Sent(h, h.handed[i].req, h.handed[i].place);
  }

  /** Only requests still waited for are pending, and no two submitters share a request; requests are numbered without gaps. */
  lemma {:induction false} PendingIsUnfinished(top: int, actions: seq<Action>, r: nat)
    ensures
      var h := Run(Opening(top), actions);
      && (r in h.pending <==> exists i :: i in h.submits && Unfinished(h.submits[i].stage) && ReqOf(h.submits[i].stage) == Some(r))
      && (forall i, k :: i in h.submits && k in h.submits && ReqOf(h.submits[i].stage) == Some(r) == ReqOf(h.submits[k].stage) ==> i == k)
      && (r in h.pends <==> 1 <= r <= h.last)
  {
    hide Run, Answered, HandedOnce, AllQueued, Throttled;
    RunSafe(top, actions);
  }

  /** What the throttle counts is who is inside, and never more than the top of the ladder. */
  lemma {:induction false} ThrottleCounts(top: int, actions: seq<Action>, t: Target)
    ensures
      var h := Run(Opening(top), actions);
      ThrottleOf(h, t).active == |Holders(h, t)| <= (if top < 1 then 1 else top)
  {
    hide Run, Owned, PendingExact, Answered, HandedOnce, AllQueued, Holders;
    RunSafe(top, actions);
  }
}
