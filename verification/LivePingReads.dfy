/**
 The panel's cursor: what chained reads return against what the hub accepted.
 */
module LivePingReads {
  import opened Options
  import opened LivePing
  import opened LivePingLaws

  function Taken(s: Session, item: Item): seq<Sample> {
    if Accepts(s, item) then [Sample(item.no, Believed(item.rtt))] else []
  }

  /** The echoes of a batch that a session takes in. */
  function Accepted(s: Session, items: seq<Item>, now: real): seq<Sample> {
    if items == [] then []
    else
      Accepted(s, items[..|items|-1], now) + Taken(TakeAll(s, items[..|items|-1], now), items[|items|-1])
  }

  function Losses(xs: seq<Sample>): nat {
    if xs == [] then 0 else Losses(xs[..|xs|-1]) + (if xs[|xs|-1].rtt.None? then 1 else 0)
  }

  /** The newest samples, as many as the ring holds. */
  function Tail(xs: seq<Sample>): seq<Sample> {
    if |xs| <= RING then xs else xs[|xs|-RING..]
  }

  /** `xs` in strictly rising order, all of it after `floor`. */
  predicate Ascends(xs: seq<Sample>, floor: int) {
    && (forall i, k :: 0 <= i < k < |xs| ==> xs[i].no < xs[k].no)
    && (forall i :: 0 <= i < |xs| ==> xs[i].no > floor)
  }

  /** Between `a` and `b` the session took in exactly `xs`. */
  predicate Heard(a: Session, b: Session, xs: seq<Sample>) {
    && b.samples == Tail(a.samples + xs)
    && b.sent == a.sent + |xs|
    && b.lost == a.lost + Losses(xs)
    && b.high == (if xs == [] then a.high else xs[|xs|-1].no)
    && Ascends(xs, a.high)
  }

  // ------------------------------------------------------------ composing

  lemma {:induction false} LossesJoin(xs: seq<Sample>, ys: seq<Sample>)
    ensures Losses(xs + ys) == Losses(xs) + Losses(ys)
  {
    if ys == [] {
      assert xs + ys == xs;
    } else {
      var n := |ys| - 1;
      LossesJoin(xs, ys[..n]);
      assert (xs + ys)[..|xs + ys|-1] == xs + ys[..n];
    }
  }

  lemma TailJoin(xs: seq<Sample>, ys: seq<Sample>)
    ensures Tail(Tail(xs) + ys) == Tail(xs + ys)
  {
    if |xs| > RING {
      var d := |xs| - RING;
      assert xs + ys == xs[..d] + (xs[d..] + ys);
    }
  }

  lemma AscendsJoin(xs: seq<Sample>, ys: seq<Sample>, floor: int)
    requires Ascends(xs, floor) && Ascends(ys, if xs == [] then floor else xs[|xs|-1].no)
    ensures Ascends(xs + ys, floor)
  {
    assert forall i :: 0 <= i < |xs| ==> xs[i].no <= xs[|xs|-1].no;
  }

  lemma HeardOn(a: Session, b: Session, c: Session, xs: seq<Sample>, ys: seq<Sample>)
    requires Heard(a, b, xs) && Heard(b, c, ys)
    ensures Heard(a, c, xs + ys)
  {
    hide Tail, Losses, Ascends;
    LossesJoin(xs, ys);
    TailJoin(a.samples + xs, ys);
    assert a.samples + xs + ys == a.samples + (xs + ys);
    AscendsJoin(xs, ys, a.high);
    assert ys == [] ==> xs + ys == xs;
  }

  lemma QuietHears(lim: Limits, a: Session, b: Session, t: real)
    requires Good(lim, a, t) && Quiet(a, b)
    ensures Heard(a, b, [])
  {
    assert a.samples + [] == a.samples;
  }

  // ------------------------------------------------------------- one report

  lemma TakeHears(lim: Limits, s: Session, item: Item, now: real)
    requires Good(lim, s, now)
    ensures Heard(s, Take(s, item, now), Taken(s, item))
  {
    if Accepts(s, item) {
      var x := Sample(item.no, Believed(item.rtt));
      assert Losses([x]) == (if x.rtt.None? then 1 else 0);
      assert Push(s.samples, x) == Tail(s.samples + [x]);
    } else {
      QuietHears(lim, s, s, now);
    }
  }

  lemma {:induction false} TakeAllHears(lim: Limits, s: Session, items: seq<Item>, now: real)
    requires Good(lim, s, now)
    ensures Heard(s, TakeAll(s, items, now), Accepted(s, items, now))
  {
    hide Good, Heard, Take, Taken;
    if items == [] {
      QuietHears(lim, s, s, now);
    } else {
      var init, item := items[..|items|-1], items[|items|-1];
      var mid := TakeAll(s, init, now);
      TakeAllHears(lim, s, init, now);
      TakeAllGood(lim, s, init, now);
      TakeHears(lim, mid, item, now);
      HeardOn(s, mid, Take(mid, item, now), Accepted(s, init, now), Taken(mid, item));
    }
  }

  /** What a probe's report adds to its session. */
  function FedWith(lim: Limits, s: Session, items: seq<Item>, now: real): seq<Sample> {
    var arrived := Arrived(lim, s, now);
    if arrived.Live(now) then Accepted(arrived, items, now) else []
  }

  lemma FedHears(lim: Limits, s: Session, items: seq<Item>, t: real, now: real)
    requires Clamped(lim) && Good(lim, s, t) && t <= now
    ensures Heard(s, Fed(lim, s, items, now), FedWith(lim, s, items, now))
  {
    hide Good, Heard, TakeAll, Accepted;
    var arrived := Arrived(lim, s, now);
    ArrivedFollows(lim, s, t, now);
    QuietHears(lim, s, arrived, t);
    TakeAllHears(lim, arrived, items, now);
    HeardOn(s, arrived, TakeAll(arrived, items, now), [], Accepted(arrived, items, now));
    assert [] + Accepted(arrived, items, now) == Accepted(arrived, items, now);
  }

  // ----------------------------------------------------------- a step, a run

  /** What one operation adds to the session `sid`. */
  function AcceptedBy(lim: Limits, st: State, op: Op, sid: string): seq<Sample> {
    var i := Find(st.sessions, sid);
    if op.Ingest? && op.sid == sid && i < |st.sessions| && st.sessions[i].Is(op.org, op.node)
    then FedWith(lim, st.sessions[i], op.items, op.now)
    else []
  }

  /** What a run adds to the session `sid`. */
  function Log(lim: Limits, st: State, ops: seq<Op>, sid: string): seq<Sample> {
    if ops == [] then []
    else Log(lim, st, ops[..|ops|-1], sid) + AcceptedBy(lim, Run(lim, st, ops[..|ops|-1]), ops[|ops|-1], sid)
  }

  lemma SameSid(ss: seq<Session>, t: real, i: nat, j: nat)
    requires InOrder(ss, t) && i < |ss| && j < |ss| && ss[i].sid == ss[j].sid
    ensures i == j
  {
  }

  lemma StepHears(lim: Limits, st: State, op: Op, t: real, i: nat, k: nat)
    requires Clamped(lim) && Sound(lim, st.sessions, t) && t <= op.now && NewName(st.sessions, op)
    requires i < |st.sessions| && k < |Step(lim, st, op).sessions| && Step(lim, st, op).sessions[k].sid == st.sessions[i].sid
    ensures Heard(st.sessions[i], Step(lim, st, op).sessions[k], AcceptedBy(lim, st, op, st.sessions[i].sid))
  {
    hide Sound, Good, Reap, Heard, PickUpAll, InOrder, Follows, Find, Fed, FedWith, FindLive, LiveCount, Refuses;
    var ss := st.sessions;
    SoundParts(lim, ss, t);
    match op
    case Start(req, sid, now) =>
      assert Known(ss, ss[i].sid);
      ReapHears(lim, ss, t, now, i, k);
    case Stop(_, _, _, _, _, now) =>
      HaltKeeps(Reaped(st, now), op, k);
      ReapHears(lim, ss, t, now, i, k);
      QuietOn(lim, ss[i], Reap(ss, now)[k], Step(lim, st, op).sessions[k], t);
    case Ingest(org, node, sid, items, now) =>
      IngestHears(lim, st, op, t, i, k);
    case PickUp(org, node, now) =>
      PickUpQuiet(lim, ss, org, node, now, k);
      SameSid(ss, t, i, k);
      QuietHears(lim, ss[i], Step(lim, st, op).sessions[k], t);
    case Look(now) =>
      ReapHears(lim, ss, t, now, i, k);
  }

  lemma {:induction false} ReapHears(lim: Limits, ss: seq<Session>, t: real, now: real, i: nat, k: nat)
    requires t <= now && InOrder(ss, t) && forall i :: 0 <= i < |ss| ==> Good(lim, ss[i], t)
    requires i < |ss|
    ensures k < |Reap(ss, now)| && Reap(ss, now)[k].sid == ss[i].sid ==> Quiet(ss[i], Reap(ss, now)[k]) && Heard(ss[i], Reap(ss, now)[k], [])
  {
    hide Good, Reap, Heard, InOrder;
    if k < |Reap(ss, now)| && Reap(ss, now)[k].sid == ss[i].sid {
      var j := ReapFrom(lim, ss, k, t, now);
      SameSid(ss, t, i, j);
      QuietHears(lim, ss[i], Reap(ss, now)[k], t);
    }
  }

  lemma HaltKeeps(r: State, op: Op, k: nat)
    requires op.Stop? && k < |Halted(r, op).sessions|
    ensures k < |r.sessions| && Quiet(r.sessions[k], Halted(r, op).sessions[k]) && r.sessions[k].sid == Halted(r, op).sessions[k].sid
  {
    hide Find;
  }

  lemma QuietOn(lim: Limits, a: Session, b: Session, c: Session, t: real)
    requires Good(lim, a, t) && Quiet(a, b) && Quiet(b, c)
    ensures Heard(a, c, [])
  {
    hide Good, Heard;
    QuietHears(lim, a, c, t);
  }

  lemma {:induction false} PickUpQuiet(lim: Limits, ss: seq<Session>, org: string, node: string, now: real, k: nat)
    requires k < |PickUpAll(lim, ss, org, node, now)|
    ensures k < |ss| && Quiet(ss[k], PickUpAll(lim, ss, org, node, now)[k]) && PickUpAll(lim, ss, org, node, now)[k].sid == ss[k].sid
  {
    var n := |ss| - 1;
    PickUpLength(lim, ss, org, node, now);
    PickUpLength(lim, ss[..n], org, node, now);
    if k < n { PickUpQuiet(lim, ss[..n], org, node, now, k); }
  }

  lemma {:induction false} PickUpLength(lim: Limits, ss: seq<Session>, org: string, node: string, now: real)
    ensures |PickUpAll(lim, ss, org, node, now)| == |ss|
  {
    if ss != [] { PickUpLength(lim, ss[..|ss|-1], org, node, now); }
  }

  lemma IngestHears(lim: Limits, st: State, op: Op, t: real, i: nat, k: nat)
    requires Clamped(lim) && op.Ingest? && t <= op.now && InOrder(st.sessions, t)
    requires forall j :: 0 <= j < |st.sessions| ==> Good(lim, st.sessions[j], t)
    requires i < |st.sessions| && k < |Step(lim, st, op).sessions| && Step(lim, st, op).sessions[k].sid == st.sessions[i].sid
    ensures Heard(st.sessions[i], Step(lim, st, op).sessions[k], AcceptedBy(lim, st, op, st.sessions[i].sid))
  {
    hide Good, Heard, InOrder, Find, Fed, FedWith;
    var ss, after := st.sessions, Step(lim, st, op).sessions;
    FedFollows(lim, ss[k], op.items, t, op.now);
    assert after[k].sid == ss[k].sid;
    SameSid(ss, t, i, k);
    var f := Find(ss, op.sid);
    if f < |ss| && ss[f].sid == ss[i].sid { SameSid(ss, t, f, i); }
    FedHears(lim, ss[i], op.items, t, op.now);
    QuietHears(lim, ss[i], ss[i], t);
    assert Find(ss, ss[i].sid) == i by {
      assert Find(ss, ss[i].sid) <= i;
      SameSid(ss, t, Find(ss, ss[i].sid), i);
    }
  }

  /** Over a run, a session that is still listed took in exactly what the run gave it. */
  lemma {:induction false} RunHears(lim: Limits, st: State, ops: seq<Op>, t: real, i: nat, k: nat)
    requires Clamped(lim) && Sound(lim, st.sessions, t) && Lawful(st.sessions, ops, t)
    requires i < |st.sessions| && k < |Run(lim, st, ops).sessions| && Run(lim, st, ops).sessions[k].sid == st.sessions[i].sid
    ensures Heard(st.sessions[i], Run(lim, st, ops).sessions[k], Log(lim, st, ops, st.sessions[i].sid))
  {
    hide Sound, Good, Step, Heard, AcceptedBy, InOrder;
    SoundParts(lim, st.sessions, t);
    if ops == [] {
      SameSid(st.sessions, t, i, k);
      QuietHears(lim, st.sessions[i], st.sessions[k], t);
    } else {
      var n := |ops| - 1;
      var init, op := ops[..n], ops[n];
      var mid, u := Run(lim, st, init), EndTime(init, t);
      var a := st.sessions[i];
      RunsAreSound(lim, st, init, t);
      assert NewName(st.sessions, op) && Known(st.sessions, a.sid);
      assert NewName(mid.sessions, op);
      var j := StepFrom(lim, mid, op, u, k);
      SameName(lim, mid.sessions, j, op, Step(lim, mid, op).sessions[k], u);
      RunHears(lim, st, init, t, i, j);
      StepHears(lim, mid, op, u, j, k);
      HeardOn(a, mid.sessions[j], Step(lim, mid, op).sessions[k], Log(lim, st, init, a.sid), AcceptedBy(lim, mid, op, a.sid));
    }
  }

  // ------------------------------------------------------------ the cursor

  lemma {:induction false} AfterAll(xs: seq<Sample>, cursor: int)
    requires forall i :: 0 <= i < |xs| ==> xs[i].no > cursor
    ensures After(xs, cursor) == xs
  {
    if xs != [] { AfterAll(xs[..|xs|-1], cursor); }
  }

  lemma {:induction false} AfterNone(xs: seq<Sample>, ys: seq<Sample>, cursor: int)
    requires forall i :: 0 <= i < |xs| ==> xs[i].no <= cursor
    requires forall i :: 0 <= i < |ys| ==> ys[i].no > cursor
    ensures After(xs + ys, cursor) == ys
  {
    if ys == [] {
      assert xs + ys == xs;
      if xs != [] {
        assert xs[..|xs|-1] + [] == xs[..|xs|-1];
        AfterNone(xs[..|xs|-1], [], cursor);
      }
    } else {
      var n := |ys| - 1;
      assert (xs + ys)[..|xs + ys|-1] == xs + ys[..n];
      AfterNone(xs, ys[..n], cursor);
    }
  }

  /** One read from the cursor of the read before: the newest of what came in between, all of it when the ring holds it. */
  lemma ReadReturns(lim: Limits, a: Session, b: Session, xs: seq<Sample>, t: real)
    requires Good(lim, a, t) && Heard(a, b, xs)
    ensures After(b.samples, a.high) == Tail(xs)
    ensures After(b.samples, a.high) == xs <==> |xs| <= RING
  {
    var all := a.samples + xs;
    if |xs| >= RING {
      assert Tail(all) == Tail(xs);
      AfterAll(Tail(xs), a.high);
    } else {
      var cut := if |all| <= RING then 0 else |all| - RING;
      assert Tail(all) == a.samples[cut..] + xs;
      AfterNone(a.samples[cut..], xs, a.high);
    }
  }

  // --------------------------------------------------------- chained reads

  function At(st: State, sid: string): Option<Session> {
    var i := Find(st.sessions, sid);
    if i < |st.sessions| then Some(st.sessions[i]) else None
  }

  /** The hub at each read: one run of operations before each. */
  function Later(lim: Limits, st: State, parts: seq<seq<Op>>): State {
    if parts == [] then st else Run(lim, Later(lim, st, parts[..|parts|-1]), parts[|parts|-1])
  }

  function LaterTime(parts: seq<seq<Op>>, t: real): real {
    if parts == [] then t else EndTime(parts[|parts|-1], LaterTime(parts[..|parts|-1], t))
  }

  /** Every part is a lawful run from where the part before left the hub, and the session is still listed after each. */
  ghost predicate Watched(lim: Limits, st: State, parts: seq<seq<Op>>, t: real, sid: string) {
    && At(st, sid).Some?
    && (parts != [] ==>
          var before := Later(lim, st, parts[..|parts|-1]);
          && Watched(lim, st, parts[..|parts|-1], t, sid)
          && Lawful(before.sessions, parts[|parts|-1], LaterTime(parts[..|parts|-1], t))
          && At(Later(lim, st, parts), sid).Some?)
  }

  /** The concatenation of reads chained by their own cursors, the first with the cursor of the session as it was. */
  function Reads(lim: Limits, st: State, parts: seq<seq<Op>>, sid: string): seq<Sample> {
    if parts == [] then []
    else
      var before := At(Later(lim, st, parts[..|parts|-1]), sid);
      var now := At(Later(lim, st, parts), sid);
      Reads(lim, st, parts[..|parts|-1], sid)
      + (if before.Some? && now.Some? then After(now.value.samples, before.value.high) else [])
  }

  /** Everything accepted over the parts, and the most accepted between two reads. */
  function Whole(lim: Limits, st: State, parts: seq<seq<Op>>, sid: string): seq<Sample> {
    if parts == [] then []
    else Whole(lim, st, parts[..|parts|-1], sid) + Log(lim, Later(lim, st, parts[..|parts|-1]), parts[|parts|-1], sid)
  }

  function Busiest(lim: Limits, st: State, parts: seq<seq<Op>>, sid: string): nat {
    if parts == [] then 0
    else
      var earlier := Busiest(lim, st, parts[..|parts|-1], sid);
      var this_ := |Log(lim, Later(lim, st, parts[..|parts|-1]), parts[|parts|-1], sid)|;
      if this_ > earlier then this_ else earlier
  }

  lemma {:induction false} PartHeard(lim: Limits, st: State, ops: seq<Op>, t: real, sid: string)
    requires Clamped(lim) && Sound(lim, st.sessions, t) && Lawful(st.sessions, ops, t)
    requires At(st, sid).Some? && At(Run(lim, st, ops), sid).Some?
    ensures Heard(At(st, sid).value, At(Run(lim, st, ops), sid).value, Log(lim, st, ops, sid))
    ensures Good(lim, At(st, sid).value, t) && Sound(lim, Run(lim, st, ops).sessions, EndTime(ops, t))
  {
    hide Sound, Good, Heard, Find, Run, Log;
    SoundParts(lim, st.sessions, t);
    RunsAreSound(lim, st, ops, t);
    RunHears(lim, st, ops, t, Find(st.sessions, sid), Find(Run(lim, st, ops).sessions, sid));
  }

  /**
   Nothing is lost or repeated: however the operations of others are interleaved, reads
   chained by their own cursors return exactly the echoes accepted, in strictly rising
   order, as long as no more arrive between two reads than the ring holds; and the
   session's counts agree with what was read.
   */
  lemma {:induction false} ChainedReads(lim: Limits, st: State, parts: seq<seq<Op>>, t: real, sid: string)
    requires Clamped(lim) && Sound(lim, st.sessions, t) && Watched(lim, st, parts, t, sid)
    ensures Sound(lim, Later(lim, st, parts).sessions, LaterTime(parts, t)) && At(Later(lim, st, parts), sid).Some?
    ensures
      var a, b := At(st, sid).value, At(Later(lim, st, parts), sid).value;
      && Heard(a, b, Whole(lim, st, parts, sid))
      && (Busiest(lim, st, parts, sid) <= RING ==> Reads(lim, st, parts, sid) == Whole(lim, st, parts, sid))
  {
    hide Sound, Good, Heard, Find, Run, Log, Lawful;
    if parts == [] {
      SoundParts(lim, st.sessions, t);
      QuietHears(lim, At(st, sid).value, At(st, sid).value, t);
    } else {
      var n := |parts| - 1;
      var init, ops := parts[..n], parts[n];
      ChainedReads(lim, st, init, t, sid);
      var mid, u := Later(lim, st, init), LaterTime(init, t);
      PartHeard(lim, mid, ops, u, sid);
      var a, b, c := At(st, sid).value, At(mid, sid).value, At(Run(lim, mid, ops), sid).value;
      var xs := Log(lim, mid, ops, sid);
      HeardOn(a, b, c, Whole(lim, st, init, sid), xs);
      ReadReturns(lim, b, c, xs, u);
    }
  }
}
