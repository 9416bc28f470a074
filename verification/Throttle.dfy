/**
 `_ladder` and `_DeviceThrottle` of proxy.py: how many requests may be at one device at once,
 stepped down after connection failures and back up after a quiet spell.
 */
module Throttle {
  import opened Options

  const PROMOTE_AFTER := 10800.0

  /** `_ladder`: the most allowed, then two, as far as that is a step down. */
  function Ladder(top: int): (levels: seq<nat>)
    ensures levels != [] && Descending(levels)
    ensures levels[0] == (if top < 1 then 1 else top)
    ensures 1 <= levels[|levels|-1] <= 2
  {
    var most := if top < 1 then 1 else top;
    if most > 2 then [most, 2] else [most]
  }

  predicate Descending(levels: seq<nat>) {
    forall i, k :: 0 <= i < k < |levels| ==> levels[i] > levels[k] > 0
  }

  datatype State = State(levels: seq<nat>, level: nat, active: int, promoteAt: Option<real>)
  {
    /** The level is one of the ladder's, and no more are in than its top allows. */
    predicate Sound() {
      && levels != [] && Descending(levels) && levels[|levels|-1] > 0
      && level < |levels|
      && 0 <= active <= levels[0]
    }

    function Limit(): nat
      requires level < |levels|
    {
      levels[level]
    }
  }

  function Fresh(levels: seq<nat>): State {
    State(levels, 0, 0, None)
  }

  /** The start of `acquire`: a step up when a quiet spell is over. */
  function Promoted(s: State, now: real): State {
    if s.promoteAt.None? || now < s.promoteAt.value then s
    else s.(promoteAt := Some(now + PROMOTE_AFTER), level := if s.level > 0 then s.level - 1 else 0)
  }

  predicate Free(s: State)
    requires s.level < |s.levels|
  {
    s.active < s.Limit()
  }

  function Entered(s: State): State {
    s.(active := s.active + 1)
  }

  function Left(s: State): State {
    s.(active := s.active - 1)
  }

  function Demoted(s: State, now: real): State {
    s.(level := if s.level >= |s.levels| - 1 then s.level else s.level + 1, promoteAt := Some(now + PROMOTE_AFTER))
  }

  /** One throttle; `Pass` is one turn of the waiting loop of `acquire`. */
  class DeviceThrottle {
    const levels: seq<nat>
    var level: nat
    var active: int
    var promoteAt: Option<real>

    constructor (top: int)
      ensures View() == Fresh(Ladder(top)) && View().Sound()
    {
      levels := Ladder(top);
      level, active, promoteAt := 0, 0, None;
    }

    function View(): State
      reads this
    {
      State(levels, level, active, promoteAt)
    }

    method MaybePromote(now: real)
      modifies this
      ensures View() == Promoted(old(View()), now)
    {
      if promoteAt.None? || now < promoteAt.value {
        return;
      }
      promoteAt := Some(now + PROMOTE_AFTER);
      if level > 0 {
        level := level - 1;
      }
    }

    method Pass(timeUp: bool) returns (verdict: Option<bool>)
      requires View().Sound()
      modifies this
      ensures View().Sound()
      ensures verdict == Some(true) <==> old(Free(View()))
      ensures verdict == Some(false) <==> !old(Free(View())) && timeUp
      ensures View() == if verdict == Some(true) then Entered(old(View())) else old(View())
    {
      if active >= levels[level] {
        return if timeUp then Some(false) else None;
      }
      TopMost(levels, level);
      active := active + 1;
      verdict := Some(true);
    }

    method Release()
      modifies this
      ensures View() == Left(old(View()))
    {
      active := active - 1;
    }

    method Demote(now: real) returns (limit: Option<nat>)
      requires View().Sound()
      modifies this
      ensures View() == Demoted(old(View()), now) && View().Sound()
      ensures limit == if View().level == old(View().level) then None else Some(View().Limit())
    {
      if level >= |levels| - 1 {
        promoteAt := Some(now + PROMOTE_AFTER);
        return None;
      }
      level := level + 1;
      promoteAt := Some(now + PROMOTE_AFTER);
      limit := Some(levels[level]);
    }
  }

  lemma TopMost(levels: seq<nat>, level: nat)
    requires Descending(levels) && level < |levels|
    ensures levels[level] <= levels[0]
  {}

  // ------------------------------------------------------------------- runs

  datatype Op = Arrive(now: real) | Enter | Leave | Fail(now: real)

  /** Nobody enters past the level, and nobody leaves who is not in. */
  predicate Can(s: State, op: Op) {
    match op
    case Enter => s.level < |s.levels| && Free(s)
    case Leave => s.active > 0
    case _ => true
  }

  function Step(s: State, op: Op): State {
    match op
    case Arrive(now) => Promoted(s, now)
    case Enter => Entered(s)
    case Leave => Left(s)
    case Fail(now) => Demoted(s, now)
  }

  function Run(s: State, ops: seq<Op>): State {
    if ops == [] then s else Step(Run(s, ops[..|ops|-1]), ops[|ops|-1])
  }

  predicate Lawful(s: State, ops: seq<Op>) {
    ops == [] || (Lawful(s, ops[..|ops|-1]) && Can(Run(s, ops[..|ops|-1]), ops[|ops|-1]))
  }

  function Entries(ops: seq<Op>): nat {
    if ops == [] then 0 else Entries(ops[..|ops|-1]) + (if ops[|ops|-1].Enter? then 1 else 0)
  }

  function Exits(ops: seq<Op>): nat {
    if ops == [] then 0 else Exits(ops[..|ops|-1]) + (if ops[|ops|-1].Leave? then 1 else 0)
  }

  /** The count is exactly who went in less who came out, and never passes the top of the ladder. */
  lemma {:induction false} CountIsInside(s: State, ops: seq<Op>)
    requires s.Sound() && Lawful(s, ops)
    ensures Run(s, ops).Sound() && Run(s, ops).levels == s.levels
    ensures Run(s, ops).active == s.active + Entries(ops) - Exits(ops)
  {
    if ops != [] {
      var n := |ops| - 1;
      CountIsInside(s, ops[..n]);
      var mid := Run(s, ops[..n]);
      TopMost(mid.levels, mid.level);
    }
  }

  /** Whether three hours have passed since a moment, if there was one. */
  predicate QuietSince(last: Option<real>, now: real) {
    last.Some? && now >= last.value + 3.0 * 3600.0
  }

  /** The last time a failure was noted, or an arrival found three hours gone by since the time before. */
  function LastChange(ops: seq<Op>): Option<real> {
    if ops == [] then None
    else
      var op, before := ops[|ops|-1], LastChange(ops[..|ops|-1]);
      if op.Fail? || (op.Arrive? && QuietSince(before, op.now)) then Some(op.now) else before
  }

  lemma {:induction false} PromoteAfterChange(s: State, ops: seq<Op>)
    requires s.promoteAt.None?
    ensures
      var last := LastChange(ops);
      Run(s, ops).promoteAt == if last.Some? then Some(last.value + PROMOTE_AFTER) else None
  {
    if ops != [] { PromoteAfterChange(s, ops[..|ops|-1]); }
  }

  /**
   The limit goes one step down with every failure until it is at the bottom, and one step up
   exactly when a request arrives three hours after the last failure or step up; nothing else
   moves it.
   */
  lemma {:induction false} LevelMoves(s: State, ops: seq<Op>, op: Op)
    requires s.promoteAt.None? && s.Sound() && Lawful(s, ops)
    ensures
      var before, after := Run(s, ops), Run(s, ops + [op]);
      && after.levels == s.levels
      && after.level == match op
                        case Fail(_) => if before.level == |s.levels| - 1 then before.level else before.level + 1
                        case Arrive(now) => if before.level > 0 && QuietSince(LastChange(ops), now) then before.level - 1 else before.level
                        case _ => before.level
  {
    PromoteAfterChange(s, ops);
    CountIsInside(s, ops);
    assert (ops + [op])[..|ops|] == ops;
  }
}
