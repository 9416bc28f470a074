/**
 The fibre plant of fiber.py: cables with two ends, joints that splice one core to
 one core (or land a core on the equipment) at a point, the guarded edits on them,
 and the invariant every run of edits keeps.
 */
module FibrePlant {
  import opened Options
  import Sets

  type Point = int

  datatype Fibre = Fibre(cable: int, core: int)

  // `plumbing` is the verdict of `is_plumbing`: unnamed, one core, never traced.
  datatype Cable = Cable(a: Point, b: Point, plumbing: bool)

  // A port is held under its kind and its one normalized ref; `no` is that ref read
  // back as a number.
  datatype Port = Port(kind: string, key: string, no: Option<int>)

  datatype Joint = Joint(point: Point, a: Fibre, b: Option<Fibre>, port: Option<Port>)

  datatype Plant = Plant(cables: map<int, Cable>, joints: seq<Joint>)

  datatype Refusal = Absent | Self | PortSplice | Taken | PortTaken

  type Slot = (string, string)

  function PortSlot(p: Port): Slot {
    (p.kind, p.key)
  }

  predicate EndsAt(c: Cable, p: Point) {
    p == c.a || p == c.b
  }

  function OtherEnd(c: Cable, p: Point): Point {
    if p == c.a then c.b else c.a
  }

  predicate FibreEndsAt(cables: map<int, Cable>, f: Fibre, p: Point) {
    f.cable in cables && EndsAt(cables[f.cable], p)
  }

  /** Joint `j` uses up the end of fibre `f` at point `p`. */
  predicate Holds(j: Joint, f: Fibre, p: Point) {
    j.point == p && (j.a == f || j.b == Some(f))
  }

  /** Joint `j` lands a fibre on port slot `s` of point `p`. */
  predicate OnPort(j: Joint, s: Slot, p: Point) {
    j.point == p && j.b.None? && j.port.Some? && PortSlot(j.port.value) == s
  }

  function JointSurvives(j: Joint, cables: map<int, Cable>): bool {
    FibreEndsAt(cables, j.a, j.point)
    && (j.b.Some? ==> FibreEndsAt(cables, j.b.value, j.point))
  }

  function JointRefusal(a: Fibre, b: Option<Fibre>, point: Point, cables: map<int, Cable>,
                        taken: map<Fibre, Joint>, port: Option<Port>,
                        ports: map<Slot, Joint>): Option<Refusal>
  {
    if !FibreEndsAt(cables, a, point) then Some(Absent)
    else if b.Some? && !FibreEndsAt(cables, b.value, point) then Some(Absent)
    else if b.Some? && a == b.value then Some(Self)
    else if b.Some? && port.Some? then Some(PortSplice)
    else if a in taken || (b.Some? && b.value in taken) then Some(Taken)
    else if port.Some? && PortSlot(port.value) in ports then Some(PortTaken)
    else None
  }

  // ---------------------------------------------------------------- look-ups

  function Claim(out: map<Fibre, Joint>, j: Joint, point: Point): map<Fibre, Joint> {
    if j.point != point then out
    else if j.b.None? then out[j.a := j]
    else out[j.a := j][j.b.value := j]
  }

  function TakenSpec(joints: seq<Joint>, point: Point): map<Fibre, Joint> {
    if joints == [] then map[]
    else Claim(TakenSpec(joints[..|joints|-1], point), joints[|joints|-1], point)
  }

  function ClaimPort(out: map<Slot, Joint>, j: Joint, point: Point): map<Slot, Joint> {
    if j.point != point || j.b.Some? || j.port.None? then out
    else out[PortSlot(j.port.value) := j]
  }

  function PortsSpec(joints: seq<Joint>, point: Point): map<Slot, Joint> {
    if joints == [] then map[]
    else ClaimPort(PortsSpec(joints[..|joints|-1], point), joints[|joints|-1], point)
  }

  method TakenAt(joints: seq<Joint>, point: Point) returns (out: map<Fibre, Joint>)
    ensures out == TakenSpec(joints, point)
    ensures forall f :: f in out <==> exists i :: 0 <= i < |joints| && Holds(joints[i], f, point)
  {
    out := map[];
    for i := 0 to |joints|
      invariant out == TakenSpec(joints[..i], point)
    {
      assert joints[..i+1][..i] == joints[..i];
      var j := joints[i];
      if j.point == point {
        out := out[j.a := j];
        if j.b.Some? {
          out := out[j.b.value := j];
        }
      }
    }
    assert joints[..|joints|] == joints;
    TakenMeaning(joints, point);
  }

  method PortsTakenAt(joints: seq<Joint>, point: Point) returns (out: map<Slot, Joint>)
    ensures out == PortsSpec(joints, point)
    ensures forall s :: s in out <==> exists i :: 0 <= i < |joints| && OnPort(joints[i], s, point)
  {
    out := map[];
    for i := 0 to |joints|
      invariant out == PortsSpec(joints[..i], point)
    {
      assert joints[..i+1][..i] == joints[..i];
      var j := joints[i];
      if j.point == point && j.b.None? && j.port.Some? {
        out := out[PortSlot(j.port.value) := j];
      }
    }
    assert joints[..|joints|] == joints;
    PortsMeaning(joints, point);
  }

  lemma {:induction false} TakenMeaning(joints: seq<Joint>, point: Point)
    ensures forall f :: f in TakenSpec(joints, point)
                        <==> exists i :: 0 <= i < |joints| && Holds(joints[i], f, point)
  {
    if joints != [] {
      var n := |joints| - 1;
      TakenMeaning(joints[..n], point);
      forall f
        ensures f in TakenSpec(joints, point)
                <==> exists i :: 0 <= i < |joints| && Holds(joints[i], f, point)
      {
        if f in TakenSpec(joints[..n], point) {
          var i :| 0 <= i < n && Holds(joints[..n][i], f, point);
          assert Holds(joints[i], f, point);
        }
        if i :| 0 <= i < n && Holds(joints[i], f, point) {
          assert Holds(joints[..n][i], f, point);
        }
      }
    }
  }

  lemma {:induction false} PortsMeaning(joints: seq<Joint>, point: Point)
    ensures forall s :: s in PortsSpec(joints, point)
                        <==> exists i :: 0 <= i < |joints| && OnPort(joints[i], s, point)
  {
    if joints != [] {
      var n := |joints| - 1;
      PortsMeaning(joints[..n], point);
      forall s
        ensures s in PortsSpec(joints, point)
                <==> exists i :: 0 <= i < |joints| && OnPort(joints[i], s, point)
      {
        if s in PortsSpec(joints[..n], point) {
          var i :| 0 <= i < n && OnPort(joints[..n][i], s, point);
          assert OnPort(joints[i], s, point);
        }
        if i :| 0 <= i < n && OnPort(joints[i], s, point) {
          assert OnPort(joints[..n][i], s, point);
        }
      }
    }
  }

  // --------------------------------------------------------------- invariant

  ghost predicate JointSound(j: Joint, cables: map<int, Cable>) {
    && JointSurvives(j, cables)
    && j.b != Some(j.a)
    && (j.b.Some? ==> j.port.None?)
  }

  ghost predicate Exclusive(joints: seq<Joint>) {
    && (forall i, k, f, p :: 0 <= i < k < |joints| && Holds(joints[i], f, p) ==> !Holds(joints[k], f, p))
    && (forall i, k, s, p :: 0 <= i < k < |joints| && OnPort(joints[i], s, p) ==> !OnPort(joints[k], s, p))
  }

  /** Every joint stands where both its fibres end, and no fibre end or port is used twice. */
  ghost predicate WellFormed(pl: Plant) {
    && (forall c :: c in pl.cables ==> pl.cables[c].a != pl.cables[c].b)
    && (forall i :: 0 <= i < |pl.joints| ==> JointSound(pl.joints[i], pl.cables))
    && Exclusive(pl.joints)
  }

  // ------------------------------------------------------------------- edits

  datatype Edit =
    | Lay(id: int, a: Point, b: Point, plumbing: bool)
    | Join(fa: Fibre, fb: Option<Fibre>, point: Point, port: Option<Port>)
    | Unjoin(index: nat)
    | Reend(id: int, a: Point, b: Point)
    | Move(from: Point, to: Point, ids: set<int>)
    | Scrap(id: int)

  predicate Touches(j: Joint, ids: set<int>) {
    j.a.cable in ids || (j.b.Some? && j.b.value.cable in ids)
  }

  /** The joints of `js` that pass `keep`, in order. */
  function Keep(js: seq<Joint>, keep: Joint -> bool): (out: seq<Joint>)
  {
    if js == [] then []
    else Keep(js[..|js|-1], keep) + (if keep(js[|js|-1]) then [js[|js|-1]] else [])
  }

  function Shift(p: Point, from: Point, to: Point): Point {
    if p == from then to else p
  }

  /** The cables a move takes along: those named, present, and ending at `from`. */
  function Moving(pl: Plant, from: Point, ids: set<int>): set<int> {
    set c | c in ids && c in pl.cables && EndsAt(pl.cables[c], from)
  }

  function Moved(c: Cable, from: Point, to: Point): Cable {
    Cable(Shift(c.a, from, to), Shift(c.b, from, to), c.plumbing)
  }

  function AfterMove(cables: map<int, Cable>, from: Point, to: Point, moving: set<int>): map<int, Cable> {
    map c | c in cables :: if c in moving then Moved(cables[c], from, to) else cables[c]
  }

  function Loops(after: map<int, Cable>, moving: set<int>): set<int> {
    set c | c in moving && c in after && after[c].a == after[c].b
  }

  predicate Carries(j: Joint, from: Point, moving: set<int>) {
    j.point == from && j.a.cable in moving && (j.b.Some? ==> j.b.value.cable in moving)
  }

  function Prospective(j: Joint, from: Point, to: Point, moving: set<int>): Joint {
    if Carries(j, from, moving) then j.(point := to) else j
  }

  /** The verdict is read only for joints at `from` or on a moving cable. */
  predicate SurvivesMove(j: Joint, from: Point, to: Point, moving: set<int>, after: map<int, Cable>) {
    j.point == from || Touches(j, moving) ==> JointSurvives(Prospective(j, from, to, moving), after)
  }

  function Carried(j: Joint, from: Point, to: Point, moving: set<int>,
                   taken: map<Slot, Joint>): Joint
  {
    if !Carries(j, from, moving) then j
    else if j.port.Some? && PortSlot(j.port.value) in taken
    then j.(point := to, port := None)
    else j.(point := to)
  }

  function CarryAll(js: seq<Joint>, from: Point, to: Point, moving: set<int>,
                    taken: map<Slot, Joint>): (out: seq<Joint>)
    ensures |out| == |js|
    ensures forall i :: 0 <= i < |js| ==> out[i] == Carried(js[i], from, to, moving, taken)
  {
    seq(|js|, i requires 0 <= i < |js| => Carried(js[i], from, to, moving, taken))
  }

  /** `move_cable_ends`: every named end moves at once, then the survival rule is read once. */
  function MoveEnds(pl: Plant, from: Point, to: Point, ids: set<int>): Plant {
    var moving := Moving(pl, from, ids);
    var after := AfterMove(pl.cables, from, to, moving);
    var loops := Loops(after, moving);
    if from == to || moving == {} || (exists c :: c in loops && !pl.cables[c].plumbing) then pl
    else
      var kept := Keep(pl.joints, j => SurvivesMove(j, from, to, moving, after));
      var taken := PortsSpec(kept, to);
      var standing := Keep(kept, j => !Touches(j, loops));
      Plant(after - loops, CarryAll(standing, from, to, moving, taken))
  }

  predicate AtMost(f: Fibre, g: Fibre) {
    f.cable < g.cable || (f.cable == g.cable && f.core <= g.core)
  }

  /** The joint as it is stored: of two cores, the lower one first. */
  function Made(fa: Fibre, fb: Option<Fibre>, point: Point, port: Option<Port>): Joint {
    if fb.Some? && !AtMost(fa, fb.value) then Joint(point, fb.value, Some(fa), port) else Joint(point, fa, fb, port)
  }

  /** One edit; an edit the source refuses leaves the plant as it was. */
  function Apply(pl: Plant, e: Edit): Plant {
    match e
    case Lay(id, a, b, plumbing) =>
      if id in pl.cables || a == b then pl
      else pl.(cables := pl.cables[id := Cable(a, b, plumbing)])
    case Join(fa, fb, point, port) =>
      var why := JointRefusal(fa, fb, point, pl.cables, TakenSpec(pl.joints, point), port,
                              PortsSpec(pl.joints, point));
      if why.Some? then pl else pl.(joints := pl.joints + [Made(fa, fb, point, port)])
    case Unjoin(index) =>
      if index >= |pl.joints| then pl
      else pl.(joints := pl.joints[..index] + pl.joints[index+1..])
    case Reend(id, a, b) =>
      if id !in pl.cables || a == b then pl
      else
        var cables := pl.cables[id := pl.cables[id].(a := a, b := b)];
        Plant(cables, Keep(pl.joints, j => Touches(j, {id}) ==> JointSurvives(j, cables)))
    case Move(from, to, ids) => MoveEnds(pl, from, to, ids)
    case Scrap(id) => Plant(pl.cables - {id}, Keep(pl.joints, j => !Touches(j, {id})))
  }

  function Run(pl: Plant, edits: seq<Edit>): Plant {
    if edits == [] then pl else Apply(Run(pl, edits[..|edits|-1]), edits[|edits|-1])
  }

  // --------------------------------------------------- the invariant is kept

  /** Keep picks an increasing sequence of positions, each passing the test. */
  lemma {:induction false} KeepPicks(js: seq<Joint>, keep: Joint -> bool) returns (at: seq<nat>)
    ensures |at| == |Keep(js, keep)|
    ensures forall i :: 0 <= i < |at| ==> at[i] < |js| && Keep(js, keep)[i] == js[at[i]] && keep(js[at[i]])
    ensures forall i, k :: 0 <= i < k < |at| ==> at[i] < at[k]
  {
    if js == [] {
      at := [];
    } else {
      var n := |js| - 1;
      var init := js[..n];
      at := KeepPicks(init, keep);
      assert forall i :: 0 <= i < |at| ==> init[at[i]] == js[at[i]];
      if keep(js[n]) { at := at + [n]; }
    }
  }

  lemma {:induction false} KeepExclusive(js: seq<Joint>, keep: Joint -> bool)
    requires Exclusive(js)
    ensures Exclusive(Keep(js, keep))
    ensures forall j :: j in Keep(js, keep) ==> j in js && keep(j)
  {
    var at := KeepPicks(js, keep);
    var out := Keep(js, keep);
    forall i, k, f, p | 0 <= i < k < |out| && Holds(out[i], f, p)
      ensures !Holds(out[k], f, p)
    { assert at[i] < at[k]; }
    forall i, k, s, p | 0 <= i < k < |out| && OnPort(out[i], s, p)
      ensures !OnPort(out[k], s, p)
    { assert at[i] < at[k]; }
  }

  lemma KeepSound(pl: Plant, cables: map<int, Cable>, keep: Joint -> bool)
    requires WellFormed(pl)
    requires forall c :: c in cables ==> cables[c].a != cables[c].b
    requires forall j :: j in pl.joints && keep(j) ==> JointSurvives(j, cables)
    ensures WellFormed(Plant(cables, Keep(pl.joints, keep)))
  {
    KeepExclusive(pl.joints, keep);
    var out := Keep(pl.joints, keep);
    forall i | 0 <= i < |out| ensures JointSound(out[i], cables) {
      assert out[i] in pl.joints;
      var k :| 0 <= k < |pl.joints| && pl.joints[k] == out[i];
      assert JointSound(pl.joints[k], pl.cables);
    }
  }

  lemma JoinKeepsWellFormed(pl: Plant, fa: Fibre, fb: Option<Fibre>, point: Point, port: Option<Port>)
    requires WellFormed(pl)
    ensures WellFormed(Apply(pl, Join(fa, fb, point, port)))
  {
    var out := Apply(pl, Join(fa, fb, point, port)).joints;
    if out != pl.joints {
      var n := |pl.joints|;
      TakenMeaning(pl.joints, point);
      PortsMeaning(pl.joints, point);
      forall i, k, f, p | 0 <= i < k < |out| && Holds(out[i], f, p)
        ensures !Holds(out[k], f, p)
      {
        if k == n && p == point {
          assert Holds(pl.joints[i], f, point);
          assert f in TakenSpec(pl.joints, point);
        }
      }
      forall i, k, s, p | 0 <= i < k < |out| && OnPort(out[i], s, p)
        ensures !OnPort(out[k], s, p)
      {
        if k == n && p == point {
          assert OnPort(pl.joints[i], s, point);
          assert s in PortsSpec(pl.joints, point);
        }
      }
    }
  }

  lemma UnjoinKeepsWellFormed(pl: Plant, index: nat)
    requires WellFormed(pl)
    ensures WellFormed(Apply(pl, Unjoin(index)))
  {
    if index < |pl.joints| {
      var out := pl.joints[..index] + pl.joints[index+1..];
      forall i | 0 <= i < |out| ensures JointSound(out[i], pl.cables) {
        assert out[i] == pl.joints[if i < index then i else i + 1];
      }
      forall i, k, f, p | 0 <= i < k < |out| && Holds(out[i], f, p) ensures !Holds(out[k], f, p) {
        assert out[i] == pl.joints[if i < index then i else i + 1];
        assert out[k] == pl.joints[if k < index then k else k + 1];
      }
      forall i, k, s, p | 0 <= i < k < |out| && OnPort(out[i], s, p) ensures !OnPort(out[k], s, p) {
        assert out[i] == pl.joints[if i < index then i else i + 1];
        assert out[k] == pl.joints[if k < index then k else k + 1];
      }
    }
  }

  /** `gone` are cables that leave `from` for a point they did not end at before. */
  ghost predicate Leaves(cables: map<int, Cable>, gone: set<int>, from: Point, to: Point) {
    forall c :: c in gone ==> c in cables && EndsAt(cables[c], from) && !EndsAt(cables[c], to)
  }

  /** Carried joints land on fibre ends nothing else holds at the new point. */
  lemma CarriedFibres(cables: map<int, Cable>, js: seq<Joint>, from: Point, to: Point,
                      gone: set<int>, taken: map<Slot, Joint>)
    requires from != to && Leaves(cables, gone, from, to) && Exclusive(js)
    requires forall i :: 0 <= i < |js| ==> JointSound(js[i], cables)
    ensures forall i, k, f, p :: 0 <= i < k < |js| && Holds(Carried(js[i], from, to, gone, taken), f, p)
                                 ==> !Holds(Carried(js[k], from, to, gone, taken), f, p)
  {
    forall i, k, f, p | 0 <= i < k < |js| && Holds(Carried(js[i], from, to, gone, taken), f, p)
      ensures !Holds(Carried(js[k], from, to, gone, taken), f, p)
    {
      assert JointSound(js[i], cables) && JointSound(js[k], cables);
      assert Holds(js[i], f, js[i].point);
      assert !Holds(js[k], f, js[i].point);
    }
  }

  /** A carried termination gives up a port that is already spoken for. */
  lemma {:induction false} CarriedPorts(js: seq<Joint>, kept: seq<Joint>, from: Point, to: Point, gone: set<int>)
    requires from != to && Exclusive(js)
    requires forall j :: j in js ==> j in kept
    ensures forall i, k, s, p :: 0 <= i < k < |js| && OnPort(Carried(js[i], from, to, gone, PortsSpec(kept, to)), s, p)
                                 ==> !OnPort(Carried(js[k], from, to, gone, PortsSpec(kept, to)), s, p)
  {
    PortsMeaning(kept, to);
    forall j, s | j in js && OnPort(j, s, to) ensures s in PortsSpec(kept, to) {
      var m :| 0 <= m < |kept| && kept[m] == j;
      assert OnPort(kept[m], s, to);
    }
    forall i, k, s, p | 0 <= i < k < |js|
      && OnPort(Carried(js[i], from, to, gone, PortsSpec(kept, to)), s, p)
      ensures !OnPort(Carried(js[k], from, to, gone, PortsSpec(kept, to)), s, p)
    {
      assert OnPort(js[i], s, js[i].point);
      assert !OnPort(js[k], s, js[i].point);
      assert js[i] in js && js[k] in js;
    }
  }

  lemma MoveKeepsWellFormed(pl: Plant, from: Point, to: Point, ids: set<int>)
    requires WellFormed(pl)
    ensures WellFormed(MoveEnds(pl, from, to, ids))
  {
    var moving := Moving(pl, from, ids);
    var after := AfterMove(pl.cables, from, to, moving);
    var loops := Loops(after, moving);
    if !(from == to || moving == {} || (exists c :: c in loops && !pl.cables[c].plumbing)) {
      var survive := j => SurvivesMove(j, from, to, moving, after);
      var clear := j => !Touches(j, loops);
      var kept := Keep(pl.joints, survive);
      var standing := Keep(kept, clear);
      KeepExclusive(pl.joints, survive);
      KeepExclusive(kept, clear);
      var gone := moving - loops;
      var taken := PortsSpec(kept, to);
      forall i | 0 <= i < |standing|
        ensures JointSound(standing[i], pl.cables)
        ensures Carried(standing[i], from, to, moving, taken) == Carried(standing[i], from, to, gone, taken)
        ensures JointSound(Carried(standing[i], from, to, moving, taken), after - loops)
      {
        assert standing[i] in standing;
        SoundAfterMove(pl, from, to, moving, taken, standing[i]);
      }
      CarriedFibres(pl.cables, standing, from, to, gone, taken);
      CarriedPorts(standing, kept, from, to, gone);
      assert MoveEnds(pl, from, to, ids) == Plant(after - loops, CarryAll(standing, from, to, moving, taken));
    }
  }

  lemma SoundAfterMove(pl: Plant, from: Point, to: Point, moving: set<int>, taken: map<Slot, Joint>, j: Joint)
    requires WellFormed(pl) && j in pl.joints
    requires SurvivesMove(j, from, to, moving, AfterMove(pl.cables, from, to, moving))
    requires !Touches(j, Loops(AfterMove(pl.cables, from, to, moving), moving))
    ensures
      var after := AfterMove(pl.cables, from, to, moving);
      var loops := Loops(after, moving);
      && JointSound(j, pl.cables)
      && Carried(j, from, to, moving, taken) == Carried(j, from, to, moving - loops, taken)
      && JointSound(Carried(j, from, to, moving, taken), after - loops)
  {
    var i :| 0 <= i < |pl.joints| && pl.joints[i] == j;
    assert JointSound(pl.joints[i], pl.cables);
  }

  /** Keep loses no joint that passes the test. */
  lemma {:induction false} KeepHas(js: seq<Joint>, keep: Joint -> bool, j: Joint)
    requires j in js && keep(j)
    ensures j in Keep(js, keep)
  {
    var n := |js| - 1;
    if js[n] != j {
      assert js == js[..n] + [js[n]];
      KeepHas(js[..n], keep, j);
    }
  }

  // --------------------------------------------------- what each edit does

  /** The cable is there and the point is one of its two ends. */
  ghost predicate Opens(cables: map<int, Cable>, f: Fibre, p: Point) {
    f.cable in cables && (cables[f.cable].a == p || cables[f.cable].b == p)
  }

  ghost predicate Used(joints: seq<Joint>, f: Fibre, p: Point) {
    exists j :: j in joints && j.point == p && (j.a == f || (j.b.Some? && j.b.value == f))
  }

  ghost predicate Landed(joints: seq<Joint>, port: Port, p: Point) {
    exists j :: j in joints && j.point == p && j.b.None? && j.port.Some? && j.port.value.kind == port.kind && j.port.value.key == port.key
  }

  ghost predicate Names(j: Joint, id: int) {
    j.a.cable == id || (j.b.Some? && j.b.value.cable == id)
  }

  lemma {:induction false} UsedIsTaken(joints: seq<Joint>, p: Point)
    ensures forall f :: f in TakenSpec(joints, p) <==> Used(joints, f, p)
  {
    TakenMeaning(joints, p);
    forall f ensures f in TakenSpec(joints, p) <==> Used(joints, f, p) {
      if i :| 0 <= i < |joints| && Holds(joints[i], f, p) { assert joints[i] in joints; }
      if j :| j in joints && j.point == p && (j.a == f || (j.b.Some? && j.b.value == f)) {
        var i :| 0 <= i < |joints| && joints[i] == j;
        assert Holds(joints[i], f, p);
      }
    }
  }

  lemma {:induction false} LandedIsTaken(joints: seq<Joint>, p: Point)
    ensures forall port :: PortSlot(port) in PortsSpec(joints, p) <==> Landed(joints, port, p)
  {
    PortsMeaning(joints, p);
    forall port ensures PortSlot(port) in PortsSpec(joints, p) <==> Landed(joints, port, p) {
      if i :| 0 <= i < |joints| && OnPort(joints[i], PortSlot(port), p) { assert joints[i] in joints; }
      if j :| j in joints && j.point == p && j.b.None? && j.port.Some? && j.port.value.kind == port.kind && j.port.value.key == port.key {
        var i :| 0 <= i < |joints| && joints[i] == j;
        assert OnPort(joints[i], PortSlot(port), p);
      }
    }
  }

  /** Every reason to refuse a joint, as what is or is not in the plant; with none of them it is let through. */
  lemma {:induction false} RefusalMeans(pl: Plant, fa: Fibre, fb: Option<Fibre>, p: Point, port: Option<Port>)
    ensures
      var why := JointRefusal(fa, fb, p, pl.cables, TakenSpec(pl.joints, p), port, PortsSpec(pl.joints, p));
      var open := Opens(pl.cables, fa, p) && (fb.Some? ==> Opens(pl.cables, fb.value, p));
      var used := Used(pl.joints, fa, p) || (fb.Some? && Used(pl.joints, fb.value, p));
      && (why == Some(Absent) <==> !open)
      && (why == Some(Self) <==> open && fb == Some(fa))
      && (why == Some(PortSplice) <==> open && fb.Some? && fb.value != fa && port.Some?)
      && (why == Some(Taken) <==> open && fb != Some(fa) && (fb.None? || port.None?) && used)
      && (why == Some(PortTaken) <==> open && fb.None? && port.Some? && !used && Landed(pl.joints, port.value, p))
  {
    UsedIsTaken(pl.joints, p);
    LandedIsTaken(pl.joints, p);
    hide Used, Landed, TakenSpec, PortsSpec;
  }

  /**
   A joint is made exactly when both cores end at the point, are two, carry no port across a
   splice, are free there, and the port is: then it is added, the lower core first, and otherwise
   nothing changes.
   */
  lemma JoinedExactly(pl: Plant, fa: Fibre, fb: Option<Fibre>, p: Point, port: Option<Port>)
    ensures
      var may :=
        && Opens(pl.cables, fa, p) && !Used(pl.joints, fa, p)
        && (fb.Some? ==> Opens(pl.cables, fb.value, p) && !Used(pl.joints, fb.value, p) && fb.value != fa && port.None?)
        && (port.Some? ==> !Landed(pl.joints, port.value, p));
      var after := Apply(pl, Join(fa, fb, p, port));
      if !may then after == pl
      else
        && after.cables == pl.cables && |after.joints| == |pl.joints| + 1 && after.joints[..|pl.joints|] == pl.joints
        && var j := after.joints[|pl.joints|];
           && j.point == p && j.port == port
           && (fb.None? ==> j.a == fa && j.b == None)
           && (fb.Some? ==> {(j.a, j.b), (j.b.value, Some(j.a))} == {(fa, fb), (fb.value, Some(fa))})
           && (fb.Some? ==> j.a.cable < j.b.value.cable || (j.a.cable == j.b.value.cable && j.a.core < j.b.value.core))
  {
    RefusalMeans(pl, fa, fb, p, port);
    var why := JointRefusal(fa, fb, p, pl.cables, TakenSpec(pl.joints, p), port, PortsSpec(pl.joints, p));
    assert why.Some? ==> why.value.Absent? || why.value.Self? || why.value.PortSplice? || why.value.Taken? || why.value.PortTaken?;
    hide Used, Landed, Opens, TakenSpec, PortsSpec, JointRefusal;
  }

  /** Keep picks out the joints that pass, and nothing else. */
  lemma {:induction false} KeepIs(js: seq<Joint>, keep: Joint -> bool, j: Joint)
    ensures j in Keep(js, keep) <==> j in js && keep(j)
  {
    if j in Keep(js, keep) {
      var at := KeepPicks(js, keep);
      var i :| 0 <= i < |at| && Keep(js, keep)[i] == j;
    }
    if j in js && keep(j) { KeepHas(js, keep, j); }
  }

  lemma SoundOne(pl: Plant, j: Joint)
    requires WellFormed(pl) && j in pl.joints
    ensures JointSound(j, pl.cables)
  {
    var i :| 0 <= i < |pl.joints| && pl.joints[i] == j;
  }

  /** Laying a cable adds it, if its number is new and its ends are two points, and touches nothing else. */
  lemma LaidExactly(pl: Plant, id: int, a: Point, b: Point, plumbing: bool)
    ensures
      var after := Apply(pl, Lay(id, a, b, plumbing));
      && after.joints == pl.joints
      && (forall c :: c in after.cables <==> c in pl.cables || (c == id && a != b))
      && (forall c :: c in pl.cables ==> after.cables[c] == pl.cables[c])
      && (id !in pl.cables && a != b ==> after.cables[id] == Cable(a, b, plumbing))
  {}

  /**
   Giving a cable other ends costs exactly the joints it has at a point it no longer ends at.
   */
  lemma ReendCosts(pl: Plant, id: int, a: Point, b: Point, j: Joint)
    requires WellFormed(pl) && id in pl.cables && a != b
    ensures
      var after := Apply(pl, Reend(id, a, b));
      && after.cables == pl.cables[id := Cable(a, b, pl.cables[id].plumbing)]
      && (j in after.joints <==> j in pl.joints && !(Names(j, id) && j.point != a && j.point != b))
  {
    var cables := pl.cables[id := pl.cables[id].(a := a, b := b)];
    KeepIs(pl.joints, j => Touches(j, {id}) ==> JointSurvives(j, cables), j);
    if j in pl.joints { SoundOne(pl, j); }
  }

  /** A cable scrapped takes the joints that name it along, and no others. */
  lemma ScrapCosts(pl: Plant, id: int, j: Joint)
    ensures
      var after := Apply(pl, Scrap(id));
      && (forall c :: c in after.cables <==> c in pl.cables && c != id)
      && (forall c :: c in after.cables ==> after.cables[c] == pl.cables[c])
      && (j in after.joints <==> j in pl.joints && !Names(j, id))
  {
    KeepIs(pl.joints, j => !Touches(j, {id}), j);
  }

  /** Undoing a joint takes away that one only. */
  lemma UnjoinCosts(pl: Plant, index: nat, j: Joint)
    requires WellFormed(pl) && index < |pl.joints|
    ensures
      var after := Apply(pl, Unjoin(index));
      && after.cables == pl.cables
      && (j in after.joints <==> j in pl.joints && j != pl.joints[index])
  {
    var out := pl.joints[..index] + pl.joints[index+1..];
    forall k | 0 <= k < |pl.joints| && k != index ensures pl.joints[k] in out && pl.joints[k] != pl.joints[index] {
      assert pl.joints[k] == out[if k < index then k else k - 1];
      var x := pl.joints[k];
      assert Holds(x, x.a, x.point);
    }
    forall i | 0 <= i < |out| ensures out[i] in pl.joints {
      assert out[i] == pl.joints[if i < index then i else i + 1];
    }
  }

  /** The cable is named, and ends at the two points the move brings together. */
  ghost predicate Collapses(pl: Plant, from: Point, to: Point, ids: set<int>, c: int) {
    c in ids && c in pl.cables && ((pl.cables[c].a == from && pl.cables[c].b == to) || (pl.cables[c].a == to && pl.cables[c].b == from))
  }

  /** The move can be carried out: something moves somewhere, and no cable anybody laid is lost. */
  ghost predicate MayMove(pl: Plant, from: Point, to: Point, ids: set<int>) {
    && from != to
    && (exists c :: c in ids && c in pl.cables && (pl.cables[c].a == from || pl.cables[c].b == from))
    && (forall c :: Collapses(pl, from, to, ids, c) ==> pl.cables[c].plumbing)
  }

  lemma MayMoveIs(pl: Plant, from: Point, to: Point, ids: set<int>)
    requires WellFormed(pl)
    ensures
      var moving := Moving(pl, from, ids);
      var loops := Loops(AfterMove(pl.cables, from, to, moving), moving);
      && (from != to ==> forall c :: c in loops <==> Collapses(pl, from, to, ids, c))
      && (MayMove(pl, from, to, ids) <==> from != to && moving != {} && forall c :: c in loops ==> pl.cables[c].plumbing)
  {
    var moving := Moving(pl, from, ids);
    var loops := Loops(AfterMove(pl.cables, from, to, moving), moving);
    if from != to {
      forall c ensures c in loops <==> Collapses(pl, from, to, ids, c) {
        assert c in pl.cables ==> pl.cables[c].a != pl.cables[c].b;
      }
    }
    if c :| c in ids && c in pl.cables && (pl.cables[c].a == from || pl.cables[c].b == from) { assert c in moving; }
    if moving != {} { var c := Sets.Some(moving); }
  }

  /**
   A move that cannot be carried out changes nothing. One that can takes the ends of the named
   cables from the one point to the other; a cable left with both ends there goes, and its
   joints with it; every other cable stays as it is.
   */
  lemma MovedExactly(pl: Plant, from: Point, to: Point, ids: set<int>)
    requires WellFormed(pl)
    ensures
      var after := MoveEnds(pl, from, to, ids);
      if !MayMove(pl, from, to, ids) then after == pl
      else
        && (forall c :: c in after.cables <==> c in pl.cables && !Collapses(pl, from, to, ids, c))
        && (forall c :: c in after.cables ==>
              var was := pl.cables[c];
              after.cables[c] == if c !in ids then was
                                 else Cable(if was.a == from then to else was.a, if was.b == from then to else was.b, was.plumbing))
  {
    MayMoveIs(pl, from, to, ids);
    hide MayMove;
  }

  /** The joint stands at the old point and every cable it names moves, or some but not all of them do. */
  ghost predicate Travels(from: Point, ids: set<int>, j: Joint) {
    j.point == from && j.a.cable in ids && (j.b.Some? ==> j.b.value.cable in ids)
  }

  ghost predicate PulledApart(from: Point, ids: set<int>, j: Joint) {
    j.point == from && j.b.Some? && (j.a.cable in ids) != (j.b.value.cable in ids)
  }

  /** What becomes of a joint that travels; its port is given up if another core has that port at the new point. */
  ghost function Travelled(pl: Plant, from: Point, to: Point, ids: set<int>, j: Joint): Joint {
    if Travels(from, ids, j) then
      j.(point := to, port := if j.port.Some? && Landed(pl.joints, j.port.value, to) then None else j.port)
    else j
  }

  /**
   A move costs exactly the joints of collapsed cables and the splices it pulls apart. All others
   are there afterwards, carried to the new point when their cables moved, with their port
   unless it is spoken for there; and nothing else is.
   */
  lemma MoveCosts(pl: Plant, from: Point, to: Point, ids: set<int>, k: Joint)
    requires WellFormed(pl) && MayMove(pl, from, to, ids)
    ensures k in MoveEnds(pl, from, to, ids).joints
            <==> exists j :: && j in pl.joints && !PulledApart(from, ids, j)
                             && (forall c :: Collapses(pl, from, to, ids, c) ==> !Names(j, c))
                             && k == Travelled(pl, from, to, ids, j)
  {
    var standing, taken := MoveCarries(pl, from, to, ids);
    var out := MoveEnds(pl, from, to, ids).joints;
    var moving := Moving(pl, from, ids);
    hide *;
    if k in out {
      var m :| 0 <= m < |out| && out[m] == k;
      assert standing[m] in standing;
    }
    forall j | j in standing ensures Carried(j, from, to, moving, taken) in out {
      var m :| 0 <= m < |standing| && standing[m] == j;
      assert out[m] in out;
    }
  }

  /** The joints a move leaves standing, each as it is carried on. */
  lemma MoveCarries(pl: Plant, from: Point, to: Point, ids: set<int>) returns (standing: seq<Joint>, taken: map<Slot, Joint>)
    requires WellFormed(pl) && MayMove(pl, from, to, ids)
    ensures
      var out, moving := MoveEnds(pl, from, to, ids).joints, Moving(pl, from, ids);
      && |out| == |standing| && (forall i :: 0 <= i < |out| ==> out[i] == Carried(standing[i], from, to, moving, taken))
      && (forall j :: j in standing <==> j in pl.joints && !PulledApart(from, ids, j)
                                         && forall c :: Collapses(pl, from, to, ids, c) ==> !Names(j, c))
      && (forall j :: j in standing ==> Carried(j, from, to, moving, taken) == Travelled(pl, from, to, ids, j))
  {
    var moving := Moving(pl, from, ids);
    var after := AfterMove(pl.cables, from, to, moving);
    var loops := Loops(after, moving);
    var survive := j => SurvivesMove(j, from, to, moving, after);
    var clear := j => !Touches(j, loops);
    var kept := Keep(pl.joints, survive);
    standing, taken := Keep(kept, clear), PortsSpec(kept, to);
    MayMoveIs(pl, from, to, ids);
    hide Travelled, PulledApart, Names, Carried, Landed;
    assert MoveEnds(pl, from, to, ids).joints == CarryAll(standing, from, to, moving, taken);
    forall j ensures j in standing <==> j in pl.joints && survive(j) && clear(j) {
      KeepIs(pl.joints, survive, j);
      KeepIs(kept, clear, j);
    }
    forall j | j in pl.joints
      ensures survive(j) && clear(j) <==> !PulledApart(from, ids, j) && forall c :: Collapses(pl, from, to, ids, c) ==> !Names(j, c)
      ensures Carried(j, from, to, moving, taken) == Travelled(pl, from, to, ids, j)
    {
      JointMoves(pl, from, to, ids, j);
    }
  }

  /** One joint under a move, as the source sees it and as the plant has it. */
  lemma {:induction false} JointMoves(pl: Plant, from: Point, to: Point, ids: set<int>, j: Joint)
    requires WellFormed(pl) && MayMove(pl, from, to, ids) && j in pl.joints
    ensures
      var moving := Moving(pl, from, ids);
      var after := AfterMove(pl.cables, from, to, moving);
      var loops := Loops(after, moving);
      var kept := Keep(pl.joints, j => SurvivesMove(j, from, to, moving, after));
      && (SurvivesMove(j, from, to, moving, after) && !Touches(j, loops)
          <==> !PulledApart(from, ids, j) && forall c :: Collapses(pl, from, to, ids, c) ==> !Names(j, c))
      && Carried(j, from, to, moving, PortsSpec(kept, to)) == Travelled(pl, from, to, ids, j)
  {
    var moving := Moving(pl, from, ids);
    var after := AfterMove(pl.cables, from, to, moving);
    var loops := Loops(after, moving);
    SoundOne(pl, j);
    MayMoveIs(pl, from, to, ids);
    assert Carries(j, from, moving) <==> Travels(from, ids, j);
    assert Touches(j, loops) <==> exists c :: Collapses(pl, from, to, ids, c) && Names(j, c);
    assert SurvivesMove(j, from, to, moving, after) <==> !PulledApart(from, ids, j);
    if Carries(j, from, moving) && j.port.Some? { PortsStay(pl, from, to, ids, j.port.value); }
  }

  /** No termination at the new point is lost, so a port is spoken for there exactly when one stands on it. */
  lemma {:induction false} PortsStay(pl: Plant, from: Point, to: Point, ids: set<int>, port: Port)
    requires WellFormed(pl) && from != to
    ensures
      var moving := Moving(pl, from, ids);
      var after := AfterMove(pl.cables, from, to, moving);
      var kept := Keep(pl.joints, j => SurvivesMove(j, from, to, moving, after));
      PortSlot(port) in PortsSpec(kept, to) <==> Landed(pl.joints, port, to)
  {
    var moving := Moving(pl, from, ids);
    var after := AfterMove(pl.cables, from, to, moving);
    var survive := j => SurvivesMove(j, from, to, moving, after);
    var kept := Keep(pl.joints, survive);
    LandedIsTaken(kept, to);
    forall j | j in pl.joints && j.point == to && j.b.None? ensures j in kept {
      SoundOne(pl, j);
      KeepIs(pl.joints, survive, j);
    }
    forall j | j in kept ensures j in pl.joints { KeepIs(pl.joints, survive, j); }
  }

  lemma ApplyKeepsWellFormed(pl: Plant, e: Edit)
    requires WellFormed(pl)
    ensures WellFormed(Apply(pl, e))
  {
    match e
    case Lay(id, a, b, plumbing) =>
      forall i | 0 <= i < |pl.joints| && id !in pl.cables
        ensures JointSound(pl.joints[i], pl.cables[id := Cable(a, b, plumbing)])
      { assert JointSound(pl.joints[i], pl.cables); }
    case Join(fa, fb, point, port) => JoinKeepsWellFormed(pl, fa, fb, point, port);
    case Unjoin(index) => UnjoinKeepsWellFormed(pl, index);
    case Reend(id, a, b) =>
      if id in pl.cables && a != b {
        var cables := pl.cables[id := pl.cables[id].(a := a, b := b)];
        var keep := j => Touches(j, {id}) ==> JointSurvives(j, cables);
        forall j | j in pl.joints && keep(j) ensures JointSurvives(j, cables) {
          var i :| 0 <= i < |pl.joints| && pl.joints[i] == j;
          assert JointSound(pl.joints[i], pl.cables);
        }
        KeepSound(pl, cables, keep);
      }
    case Move(from, to, ids) => MoveKeepsWellFormed(pl, from, to, ids);
    case Scrap(id) =>
      var keep := j => !Touches(j, {id});
      forall j | j in pl.joints && keep(j) ensures JointSurvives(j, pl.cables - {id}) {
        var i :| 0 <= i < |pl.joints| && pl.joints[i] == j;
        assert JointSound(pl.joints[i], pl.cables);
      }
      KeepSound(pl, pl.cables - {id}, keep);
  }

  /** Every plant a run of edits reaches from nothing is well formed. */
  lemma {:induction false} RunsAreWellFormed(edits: seq<Edit>)
    ensures WellFormed(Run(Plant(map[], []), edits))
  {
    if edits != [] {
      RunsAreWellFormed(edits[..|edits|-1]);
      ApplyKeepsWellFormed(Run(Plant(map[], []), edits[..|edits|-1]), edits[|edits|-1]);
    }
  }
}
