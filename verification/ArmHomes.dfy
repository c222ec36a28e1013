/** Arm slots across tasks. Inside one task slots are always exclusive; across
    tasks they are exactly as long as nobody arms a slot that another task holds,
    which a session that was moved off its arms can do. */
module ArmHomes {
  import opened Wrappers
  import opened TaskLedger
  import opened TaskInvariants
  import opened SessionLedger
  import opened LedgerRuns

  /** The packet is armed, and this is its arm. */
  predicate ArmedWith(p: Packet, x: Attempt) {
    p.status.Armed? && OneLive(p.attempts) && Arm(p) == x
  }

  predicate HasArm(t: Task, x: Attempt) {
    exists i | 0 <= i < |t.packets| :: ArmedWith(t.packets[i], x)
  }

  /** Some packet of the task is armed for this parent session. */
  ghost predicate HasArmFor(t: Task, session: Id) {
    exists x | HasArm(t, x) :: x.parent == session
  }

  ghost predicate ArmedElsewhere(st: State, task: Id, session: Id) {
    exists b | b in st.tasks :: b != task && HasArmFor(st.tasks[b], session)
  }

  /** Another task holds the slot of this arm. */
  ghost predicate SlotTakenElsewhere(st: State, task: Id, arm: Attempt) {
    exists b, x | b in st.tasks && HasArm(st.tasks[b], x) :: b != task && Overlap(x, arm)
  }

  /** Every arm is in the task its parent session leads to, if to any. */
  ghost predicate Homes(st: State) {
    forall b, s | b in st.tasks && s in st.sessions :: HasArmFor(st.tasks[b], s) ==> st.sessions[s].task == b
  }

  /** No parent session has arms in two tasks. */
  ghost predicate NoSharedParent(st: State) {
    forall a, b, s | a in st.tasks && b in st.tasks && HasArmFor(st.tasks[a], s) && HasArmFor(st.tasks[b], s) :: a == b
  }

  /** No slot is armed in two tasks. */
  ghost predicate NoSharedSlot(st: State) {
    forall a, b, x, y | a in st.tasks && b in st.tasks && HasArm(st.tasks[a], x) && HasArm(st.tasks[b], y) && Overlap(x, y) ::
      a == b
  }

  /** The arm that arming makes. */
  function NewArm(a: ArmArgs): Attempt {
    Attempt(Live, a.session, a.expected, a.expiresAt)
  }

  // ----- only arming makes arms -----

  lemma ExpiryMakesNoArm(t: Task, now: int, x: Attempt)
    requires Expire(t.packets, now).Some? && HasArm(t.(packets := Expire(t.packets, now).value), x)
    ensures HasArm(t, x)
  {
    hide LiveArms, CloseLive;
    var qs := Expire(t.packets, now).value;
    var i :| 0 <= i < |qs| && ArmedWith(qs[i], x);
    assert ArmedWith(t.packets[i], x);
  }

  lemma ChangeMakesNoArm(t: Task, f: nat, q: Packet, x: Attempt)
    requires f < |t.packets| && !ArmedWith(q, x) && HasArm(t.(packets := t.packets[f := q]), x)
    ensures HasArm(t, x)
  {
    var qs := t.packets[f := q];
    var i :| 0 <= i < |qs| && ArmedWith(qs[i], x);
    assert ArmedWith(t.packets[i], x);
  }

  lemma ArmMakesItsArm(t: Task, a: ArmArgs, x: Attempt)
    requires Valid(t) && ArmPacket(t, a).Some? && HasArm(ArmPacket(t, a).value, x) && x != NewArm(a)
    ensures HasArm(t, x)
  {
    hide Expire, HasArm, TopologyOk, Collides, Contained, JobsContained, SlotsExclusive, UniqueIds, LiveArms;
    ExpiryKeepsValid(t, a.now);
    var u := t.(packets := Expire(t.packets, a.now).value);
    var f := Find(u.packets, a.id).value;
    var arm := NewArm(a);
    AppendedArm(u.packets[f].attempts, arm);
    ChangeMakesNoArm(u, f, ArmPacket(t, a).value.packets[f], x);
    ExpiryMakesNoArm(t, a.now, x);
  }

  lemma OthersMakeNoArm(t: Task, id: Id, depth: int, parentPacket: Id, update: UpdateArgs, allowed: bool, x: Attempt)
    ensures CreatePacket(t, id, depth, parentPacket, allowed).Some? && HasArm(CreatePacket(t, id, depth, parentPacket, allowed).value, x)
            ==> HasArm(t, x)
    ensures DisarmPacket(t, id, allowed).Some? && HasArm(DisarmPacket(t, id, allowed).value, x) ==> HasArm(t, x)
    ensures UpdatePacket(t, update).Some? && HasArm(UpdatePacket(t, update).value, x) ==> HasArm(t, x)
  {
    hide LiveArms, CloseLive, MayDispatch, HasActiveWork, HasArm;
    if CreatePacket(t, id, depth, parentPacket, allowed).Some? {
      var u := CreatePacket(t, id, depth, parentPacket, allowed).value;
      AppendMakesNoArm(t, u.packets[|t.packets|], x);
    }
    if DisarmPacket(t, id, allowed).Some? && HasArm(DisarmPacket(t, id, allowed).value, x) {
      var f := Find(t.packets, id).value;
      ChangeMakesNoArm(t, f, DisarmPacket(t, id, allowed).value.packets[f], x);
    }
    if UpdatePacket(t, update).Some? && HasArm(UpdatePacket(t, update).value, x) {
      var f := Find(t.packets, update.id).value;
      ChangeMakesNoArm(t, f, UpdatePacket(t, update).value.packets[f], x);
    }
  }

  lemma AppendMakesNoArm(t: Task, q: Packet, x: Attempt)
    requires !q.status.Armed?
    ensures HasArm(t.(packets := t.packets + [q]), x) ==> HasArm(t, x)
  {
    var u := t.(packets := t.packets + [q]);
    if i :| 0 <= i < |u.packets| && ArmedWith(u.packets[i], x) {
      assert ArmedWith(t.packets[i], x);
    }
  }

  lemma ObserveMakesNoArm(t: Task, a: StartArgs, x: Attempt)
    requires ObserveStart(t, a).Some? && HasArm(ObserveStart(t, a).value.0, x)
    ensures HasArm(t, x)
  {
    hide Expire, HasArm, TopologyOk, LiveArms, CloseLive;
    var u := t.(packets := Expire(t.packets, a.now).value);
    var found := OnlyCandidate(u.packets, a.session, a.agentType);
    if found.Some? && Consumable(u.packets, found.value, a) {
      ChangeMakesNoArm(u, found.value, ObserveStart(t, a).value.0.packets[found.value], x);
    }
    ExpiryMakesNoArm(t, a.now, x);
  }

  lemma SamePacketsSameArms(t: Task, u: Task, x: Attempt)
    requires u.packets == t.packets
    ensures HasArm(u, x) <==> HasArm(t, x)
  {
  }

  lemma SamePacketsSameParents(t: Task, u: Task, session: Id)
    requires u.packets == t.packets
    ensures HasArmFor(u, session) <==> HasArmFor(t, session)
  {
    forall x ensures HasArm(u, x) <==> HasArm(t, x) {
      SamePacketsSameArms(t, u, x);
    }
  }

  lemma EnsureKeepsPackets(st: State, task: Id, p: Packet)
    requires task in st.tasks && EnsureMapping(st, task, p).Some?
    ensures EnsureMapping(st, task, p).value.tasks.Keys == st.tasks.Keys
    ensures forall b | b in st.tasks :: EnsureMapping(st, task, p).value.tasks[b].packets == st.tasks[b].packets
  {
  }

  /** The session an arm is for leads to the task of the arm. */
  lemma ArmerIsHome(st: State, task: Id, a: ArmArgs)
    requires ArmIn(st, task, a).Some?
    ensures var after := ArmIn(st, task, a).value; a.session in after.sessions && after.sessions[a.session].task == task
  {
    hide Expire, TopologyOk, Collides;
    var t := ArmPacket(st.tasks[task], a).value;
    var ps := Expire(st.tasks[task].packets, a.now).value;
    var f := Find(ps, a.id).value;
    assert SameIds(ps, t.packets);
    FindSame(ps, t.packets, a.id);
    FindSame(ps, t.packets, t.packets[f].parentPacket);
  }

  lemma NewArmsAreArmed(st: State, c: Command, b: Id, x: Attempt)
    requires Inv(st) && b in Step(st, c).tasks && HasArm(Step(st, c).tasks[b], x)
    ensures (b in st.tasks && HasArm(st.tasks[b], x))
            || (c.ArmSlot? && c.task == b && NewArm(c.arm) == x && Result(st, c).Some?)
  {
    hide HasArm, EnsureMapping, ArmPacket, UpdatePacket, ObserveStart, CreatePacket, DisarmPacket, StartJob, UpdateJob;
    hide Coherent, Valid, NamedSessions;
    var after := Step(st, c);
    if SessionCommand(c) {
      SessionCommandKeepsWork(st, c);
      if b in st.tasks {
        SamePacketsSameArms(st.tasks[b], after.tasks[b], x);
      } else {
        NoPacketsNoArms(after.tasks[b], x);
      }
    } else if Result(st, c).Some? {
      match c
      case Create(on, id, depth, parentPacket, allowed) =>
        OthersMakeNoArm(st.tasks[on], id, depth, parentPacket, UpdateArgs("", Ready, "", 0, false), allowed, x);
      case Disarm(on, id, allowed) =>
        OthersMakeNoArm(st.tasks[on], id, 0, "", UpdateArgs("", Ready, "", 0, false), allowed, x);
      case ArmSlot(on, arm) =>
        if !(on == b && NewArm(arm) == x) {
          ArmStepArms(st, on, arm, b, x);
        }
      case Update(on, update) => UpdateStepArms(st, on, update, b, x);
      case Observe(start) => ObserveStepArms(st, start, b, x);
      case QueueJob(on, run, owner, allowed) => JobsMakeNoArm(st.tasks[on], run, owner, Queued, allowed, x);
      case MoveJob(on, run, status, allowed) => JobsMakeNoArm(st.tasks[on], run, "", status, allowed, x);
    }
  }

  lemma NoPacketsNoArms(t: Task, x: Attempt)
    requires t.packets == []
    ensures !HasArm(t, x)
  {
  }

  lemma JobsMakeNoArm(t: Task, run: Id, owner: Id, status: JobStatus, allowed: bool, x: Attempt)
    ensures StartJob(t, run, owner, allowed).Some? ==>
      (HasArm(StartJob(t, run, owner, allowed).value, x) <==> HasArm(t, x))
    ensures UpdateJob(t, run, status, allowed).Some? ==>
      (HasArm(UpdateJob(t, run, status, allowed).value, x) <==> HasArm(t, x))
  {
    hide OwnerOk;
  }

  lemma ArmStepArms(st: State, on: Id, a: ArmArgs, b: Id, x: Attempt)
    requires on in st.tasks && Valid(st.tasks[on]) && ArmIn(st, on, a).Some? && b in ArmIn(st, on, a).value.tasks
    requires HasArm(ArmIn(st, on, a).value.tasks[b], x) && !(on == b && NewArm(a) == x)
    ensures b in st.tasks && HasArm(st.tasks[b], x)
  {
    hide HasArm, EnsureMapping, ArmPacket, Coherent, Valid, NamedSessions;
    var t := ArmPacket(st.tasks[on], a).value;
    var p := t.packets[Find(t.packets, a.id).value];
    if p.depth != 1 {
      EnsureKeepsPackets(Put(st, on, t), on, t.packets[Find(t.packets, p.parentPacket).value]);
      SamePacketsSameArms(Put(st, on, t).tasks[b], ArmIn(st, on, a).value.tasks[b], x);
    }
    if b == on {
      ArmMakesItsArm(st.tasks[on], a, x);
    }
  }

  lemma UpdateStepArms(st: State, on: Id, a: UpdateArgs, b: Id, x: Attempt)
    requires UpdateIn(st, on, a).Some? && b in UpdateIn(st, on, a).value.tasks && HasArm(UpdateIn(st, on, a).value.tasks[b], x)
    ensures b in st.tasks && HasArm(st.tasks[b], x)
  {
    hide HasArm, EnsureMapping, UpdatePacket;
    var t := UpdatePacket(st.tasks[on], a).value;
    var p := t.packets[Find(t.packets, a.id).value];
    if a.status.Dispatched? && p.depth == 1 {
      EnsureKeepsPackets(Put(st, on, t), on, p);
      SamePacketsSameArms(Put(st, on, t).tasks[b], UpdateIn(st, on, a).value.tasks[b], x);
    }
    OthersMakeNoArm(st.tasks[on], "", 0, "", a, false, x);
  }

  lemma ObserveStepArms(st: State, a: StartArgs, b: Id, x: Attempt)
    requires ObserveIn(st, a).Some? && b in ObserveIn(st, a).value.tasks && HasArm(ObserveIn(st, a).value.tasks[b], x)
    ensures b in st.tasks && HasArm(st.tasks[b], x)
  {
    hide HasArm, EnsureMapping, ObserveStart;
    var on := st.sessions[a.session].task;
    var (t, started) := ObserveStart(st.tasks[on], a).value;
    if started.Some? && started.value < |t.packets| && EnsureMapping(Put(st, on, t), on, t.packets[started.value]).Some? {
      EnsureKeepsPackets(Put(st, on, t), on, t.packets[started.value]);
      SamePacketsSameArms(Put(st, on, t).tasks[b], ObserveIn(st, a).value.tasks[b], x);
    }
    if b == on && HasArm(t, x) {
      ObserveMakesNoArm(st.tasks[on], a, x);
    }
  }

  lemma NewParentsAreArmed(st: State, c: Command, b: Id, s: Id)
    requires Inv(st) && b in Step(st, c).tasks && HasArmFor(Step(st, c).tasks[b], s)
    ensures (b in st.tasks && HasArmFor(st.tasks[b], s))
            || (c.ArmSlot? && c.task == b && c.arm.session == s && Result(st, c).Some?)
  {
    hide Inv, HasArm, Step;
    var x :| HasArm(Step(st, c).tasks[b], x) && x.parent == s;
    NewArmsAreArmed(st, c, b, x);
  }

  // ----- arming, and the other tasks -----

  /** An accepted arm is there afterwards, and the arms of the other tasks are as
      they were. */
  lemma ArmingLeavesOthers(st: State, task: Id, a: ArmArgs)
    requires task in st.tasks && Valid(st.tasks[task]) && ArmIn(st, task, a).Some?
    ensures var after := ArmIn(st, task, a).value;
      && after.tasks.Keys == st.tasks.Keys
      && HasArm(after.tasks[task], NewArm(a))
      && (forall b | b in st.tasks && b != task :: after.tasks[b].packets == st.tasks[b].packets)
  {
    hide EnsureMapping, ArmPacket, Coherent, Valid, NamedSessions;
    var t := ArmPacket(st.tasks[task], a).value;
    NewArmIsThere(st.tasks[task], a);
    var p := t.packets[Find(t.packets, a.id).value];
    if p.depth != 1 {
      EnsureKeepsPackets(Put(st, task, t), task, t.packets[Find(t.packets, p.parentPacket).value]);
      SamePacketsSameArms(t, ArmIn(st, task, a).value.tasks[task], NewArm(a));
    }
  }

  lemma NewArmIsThere(t: Task, a: ArmArgs)
    requires Valid(t) && ArmPacket(t, a).Some?
    ensures HasArm(ArmPacket(t, a).value, NewArm(a))
  {
    hide Expire, TopologyOk, Collides, Contained, JobsContained, SlotsExclusive, UniqueIds, LiveArms;
    ExpiryKeepsValid(t, a.now);
    var ps := Expire(t.packets, a.now).value;
    var f := Find(ps, a.id).value;
    AppendedArm(ps[f].attempts, NewArm(a));
    assert ArmedWith(ArmPacket(t, a).value.packets[f], NewArm(a));
  }

  /** Arming keeps each parent session in one task if and only if no other task
      has an arm for that session: what a caller can look up before arming. */
  lemma ArmSharesNoParentIff(st: State, task: Id, a: ArmArgs)
    requires Inv(st) && NoSharedParent(st) && ArmIn(st, task, a).Some?
    ensures NoSharedParent(ArmIn(st, task, a).value) <==> !ArmedElsewhere(st, task, a.session)
  {
    hide HasArm, Valid, Coherent, NamedSessions, ArmPacket, EnsureMapping;
    var c := ArmSlot(task, a);
    var after := Step(st, c);
    ArmingLeavesOthers(st, task, a);
    if !ArmedElsewhere(st, task, a.session) {
      forall d, e, s | d in after.tasks && e in after.tasks && HasArmFor(after.tasks[d], s) && HasArmFor(after.tasks[e], s)
        ensures d == e
      {
        NewParentsAreArmed(st, c, d, s);
        NewParentsAreArmed(st, c, e, s);
      }
    } else {
      var b, x :| b in st.tasks && b != task && HasArm(st.tasks[b], x) && x.parent == a.session;
      SamePacketsSameArms(st.tasks[b], after.tasks[b], x);
      assert HasArmFor(after.tasks[b], a.session) && HasArmFor(after.tasks[task], a.session);
    }
  }

  /** Arming keeps slots exclusive across tasks if and only if no other task holds
      an overlapping slot. */
  lemma ArmSharesNoSlotIff(st: State, task: Id, a: ArmArgs)
    requires Inv(st) && NoSharedSlot(st) && ArmIn(st, task, a).Some?
    ensures NoSharedSlot(ArmIn(st, task, a).value) <==> !SlotTakenElsewhere(st, task, NewArm(a))
  {
    hide HasArm, Overlap, Valid, Coherent, NamedSessions, ArmPacket, EnsureMapping;
    var c := ArmSlot(task, a);
    var after := Step(st, c);
    ArmingLeavesOthers(st, task, a);
    OverlapIsSymmetric();
    if !SlotTakenElsewhere(st, task, NewArm(a)) {
      forall d, e, x, y | d in after.tasks && e in after.tasks && HasArm(after.tasks[d], x) && HasArm(after.tasks[e], y) && Overlap(x, y)
        ensures d == e
      {
        NewArmsAreArmed(st, c, d, x);
        NewArmsAreArmed(st, c, e, y);
      }
    } else {
      var b, x :| b in st.tasks && HasArm(st.tasks[b], x) && b != task && Overlap(x, NewArm(a));
      SamePacketsSameArms(st.tasks[b], after.tasks[b], x);
      assert HasArm(after.tasks[b], x) && HasArm(after.tasks[task], NewArm(a));
    }
  }

  /** No other command puts a slot into two tasks. */
  lemma OthersShareNoSlot(st: State, c: Command)
    requires Inv(st) && NoSharedSlot(st) && (!c.ArmSlot? || Result(st, c).None?)
    ensures NoSharedSlot(Step(st, c))
  {
    hide Inv, HasArm, Result, Overlap;
    var after := Step(st, c);
    forall d, e, x, y | d in after.tasks && e in after.tasks && HasArm(after.tasks[d], x) && HasArm(after.tasks[e], y) && Overlap(x, y)
      ensures d == e
    {
      NewArmsAreArmed(st, c, d, x);
      NewArmsAreArmed(st, c, e, y);
    }
  }

  /** Every accepted arm of the run takes a slot that no other task holds. */
  ghost predicate ArmsApart(st: State, commands: seq<Command>)
    decreases |commands|
  {
    commands == [] ||
    var c := commands[0];
    && (c.ArmSlot? && Result(st, c).Some? ==> !SlotTakenElsewhere(st, c.task, NewArm(c.arm)))
    && ArmsApart(Step(st, c), commands[1..])
  }

  /** In no state of the run is a slot armed in two tasks. */
  ghost predicate SlotsApartThroughout(st: State, commands: seq<Command>)
    decreases |commands|
  {
    NoSharedSlot(st) && (commands == [] || SlotsApartThroughout(Step(st, commands[0]), commands[1..]))
  }

  /** Over every run slots stay exclusive across tasks if and only if each
      accepted arm takes a slot that no other task holds. */
  lemma {:induction false} RunKeepsSlotsApartIff(st: State, commands: seq<Command>)
    requires Inv(st) && NoSharedSlot(st)
    ensures SlotsApartThroughout(st, commands) <==> ArmsApart(st, commands)
    decreases |commands|
  {
    hide Inv, NoSharedSlot, SlotTakenElsewhere, ArmIn, InitTask, BindSession, UnbindSession, UpdateIn, ObserveIn, EndTask, Restate;
    if commands != [] {
      var c := commands[0];
      StepKeepsInv(st, c);
      if c.ArmSlot? && Result(st, c).Some? {
        ArmSharesNoSlotIff(st, c.task, c.arm);
      } else {
        OthersShareNoSlot(st, c);
      }
      if NoSharedSlot(Step(st, c)) {
        RunKeepsSlotsApartIff(Step(st, c), commands[1..]);
      } else {
        assert !SlotsApartThroughout(Step(st, c), commands[1..]);
      }
    }
  }

  // ----- considerate runs -----

  /** The command leads no session to a task while another task still has an arm
      for it. */
  ghost predicate Considerate(st: State, c: Command) {
    forall s | s in Step(st, c).sessions && (s !in st.sessions || st.sessions[s].task != Step(st, c).sessions[s].task) ::
      !ArmedElsewhere(st, Step(st, c).sessions[s].task, s)
  }

  lemma ConsiderateStepKeepsHomes(st: State, c: Command)
    requires Inv(st) && Homes(st) && NoSharedParent(st) && Considerate(st, c)
    ensures Homes(Step(st, c)) && NoSharedParent(Step(st, c))
  {
    hide Inv, HasArmFor, Result;
    var after := Step(st, c);
    forall b, s | b in after.tasks && s in after.sessions && HasArmFor(after.tasks[b], s) ensures after.sessions[s].task == b {
      NewParentsAreArmed(st, c, b, s);
      if !(b in st.tasks && HasArmFor(st.tasks[b], s)) {
        ArmStepIsHome(st, c);
      }
    }
    forall a, b, s | a in after.tasks && b in after.tasks && HasArmFor(after.tasks[a], s) && HasArmFor(after.tasks[b], s)
      ensures a == b
    {
      NewParentsAreArmed(st, c, a, s);
      NewParentsAreArmed(st, c, b, s);
      if !(a in st.tasks && HasArmFor(st.tasks[a], s)) || !(b in st.tasks && HasArmFor(st.tasks[b], s)) {
        ArmStepIsHome(st, c);
      }
    }
  }

  lemma ArmStepIsHome(st: State, c: Command)
    requires c.ArmSlot? && Result(st, c).Some?
    ensures c.arm.session in Step(st, c).sessions && Step(st, c).sessions[c.arm.session].task == c.task
  {
    ArmerIsHome(st, c.task, c.arm);
  }

  ghost predicate ConsiderateRun(st: State, commands: seq<Command>)
    decreases |commands|
  {
    commands == [] || (Considerate(st, commands[0]) && ConsiderateRun(Step(st, commands[0]), commands[1..]))
  }

  /** Runs that lead no session away from its arms keep each parent session's arms
      in one task. */
  lemma {:induction false} ConsiderateRunsShareNoParent(st: State, commands: seq<Command>)
    requires Inv(st) && Homes(st) && NoSharedParent(st) && ConsiderateRun(st, commands)
    ensures Homes(Run(st, commands)) && NoSharedParent(Run(st, commands))
    decreases |commands|
  {
    hide Inv, Homes, NoSharedParent, Considerate, Step;
    if commands != [] {
      ConsiderateStepKeepsHomes(st, commands[0]);
      StepKeepsInv(st, commands[0]);
      ConsiderateRunsShareNoParent(Step(st, commands[0]), commands[1..]);
    }
  }

  lemma NoSharedParentNoSharedSlot(st: State)
    requires NoSharedParent(st)
    ensures NoSharedSlot(st)
  {
    hide HasArm;
    forall a, b, x, y | a in st.tasks && b in st.tasks && HasArm(st.tasks[a], x) && HasArm(st.tasks[b], y) && Overlap(x, y)
      ensures a == b
    {
      assert x.parent == y.parent;
      assert HasArmFor(st.tasks[a], x.parent) && HasArmFor(st.tasks[b], x.parent);
    }
  }

  lemma {:induction false} ConsiderateRunsKeepSlotsApart(st: State, commands: seq<Command>)
    requires Inv(st) && Homes(st) && NoSharedParent(st) && ConsiderateRun(st, commands)
    ensures SlotsApartThroughout(st, commands)
    decreases |commands|
  {
    hide Inv, Homes, NoSharedParent, NoSharedSlot, Considerate, Step;
    NoSharedParentNoSharedSlot(st);
    if commands != [] {
      ConsiderateStepKeepsHomes(st, commands[0]);
      StepKeepsInv(st, commands[0]);
      ConsiderateRunsKeepSlotsApart(Step(st, commands[0]), commands[1..]);
    }
  }

  /** Every run of a new ledger keeps slots exclusive across tasks exactly when each
      accepted arm takes a slot that no other task holds; and each does when no
      session is led away from its arms. */
  lemma RunsFromEmptyKeepSlotsApartIff(commands: seq<Command>)
    ensures SlotsApartThroughout(EMPTY, commands) <==> ArmsApart(EMPTY, commands)
    ensures ConsiderateRun(EMPTY, commands) ==> ArmsApart(EMPTY, commands) && NoSharedParent(Run(EMPTY, commands))
  {
    hide Run, Step, SlotsApartThroughout, ArmsApart, ConsiderateRun, Inv;
    EmptyHoldsInv();
    EmptySharesNothing();
    RunKeepsSlotsApartIff(EMPTY, commands);
    if ConsiderateRun(EMPTY, commands) {
      ConsiderateRunsKeepSlotsApart(EMPTY, commands);
      ConsiderateRunsShareNoParent(EMPTY, commands);
    }
  }

  lemma EmptySharesNothing()
    ensures NoSharedSlot(EMPTY) && NoSharedParent(EMPTY) && Homes(EMPTY)
  {
  }

  /** Binding a session keeps every arm at home if and only if no other task
      still has an arm for that session. */
  lemma BindKeepsHomesIff(st: State, task: Id, session: Id, force: bool)
    requires Inv(st) && Homes(st) && BindSession(st, task, session, force).Some?
    ensures Homes(BindSession(st, task, session, force).value) <==> !ArmedElsewhere(st, task, session)
  {
    hide HasArmFor, Inv, Without, Added;
    var after := BindSession(st, task, session, force).value;
    forall b, s | b in st.tasks ensures HasArmFor(after.tasks[b], s) <==> HasArmFor(st.tasks[b], s) {
      SamePacketsSameParents(st.tasks[b], after.tasks[b], s);
    }
    assert after.tasks.Keys == st.tasks.Keys;
    if !ArmedElsewhere(st, task, session) {
      forall b, s | b in after.tasks && s in after.sessions && HasArmFor(after.tasks[b], s) ensures after.sessions[s].task == b {
        assert s != session ==> s in st.sessions;
      }
    } else {
      var b :| b in st.tasks && b != task && HasArmFor(st.tasks[b], session);
      assert HasArmFor(after.tasks[b], session) && after.sessions[session].task == task;
    }
  }

  // ----- a run that is not considerate -----

  function PacketIn(status: PacketStatus): Packet {
    Packet("p", 1, "", 5, status, "", if status.Armed? then [Attempt(Live, "s", Exact("worker"), 10)] else [])
  }

  const THE_ARM: ArmArgs := ArmArgs("p", "s", Exact("worker"), 10, 0, true)

  const BOUND: Task := Task(Active, ["s"], [], [], [])
  const FREE: Task := Task(Active, [], [], [], [])

  function With(t: Task, status: PacketStatus): Task {
    t.(packets := [PacketIn(status)])
  }

  function One(a: Task): State {
    State(map["a" := a], map["s" := Mapping(Root, "a", "")])
  }

  function Two(b: Task): State {
    State(map["a" := With(BOUND, Armed), "b" := b], map["s" := Mapping(Root, "a", "")])
  }

  function Rebound(b: Task): State {
    State(map["a" := With(FREE, Armed), "b" := b], map["s" := Mapping(Root, "b", "")])
  }

  lemma FirstTask()
    ensures Step(EMPTY, Init("a", "s", true)) == One(BOUND)
    ensures Step(One(BOUND), Create("a", "p", 1, "", true)) == One(With(BOUND, Ready))
    ensures Step(One(With(BOUND, Ready)), ArmSlot("a", THE_ARM)) == One(With(BOUND, Armed))
  {
    assert Added([], "s") == ["s"];
    CreateTheOnlyPacket(BOUND);
    ArmTheOnlyPacket(BOUND);
  }

  lemma SecondTask()
    ensures Step(One(With(BOUND, Armed)), Init("b", "", true)) == Two(FREE)
    ensures Step(Two(FREE), Create("b", "p", 1, "", true)) == Two(With(FREE, Ready))
  {
    CreateTheOnlyPacket(FREE);
  }

  lemma Rebinding()
    ensures Step(Two(With(FREE, Ready)), Bind("b", "s", true)) == Rebound(With(BOUND, Ready))
  {
    hide PacketIn;
    assert Without(["s"], "s") == [] + Without([], "s");
    assert Added([], "s") == ["s"];
  }

  lemma SecondArm()
    ensures Step(Rebound(With(BOUND, Ready)), ArmSlot("b", THE_ARM)) == Rebound(With(BOUND, Armed))
  {
    ArmTheOnlyPacket(BOUND);
  }

  /** One task with its packet armed, and a second one ready. */
  const SETUP: seq<Command> := [
    Init("a", "s", true), Create("a", "p", 1, "", true), ArmSlot("a", THE_ARM), Init("b", "", true), Create("b", "p", 1, "", true)]

  lemma SetUp()
    ensures Run(EMPTY, SETUP) == Two(With(FREE, Ready))
  {
    hide Step, PacketIn;
    FirstTask();
    SecondTask();
    assert SETUP == SETUP[..1] + SETUP[1..2] + SETUP[2..3] + SETUP[3..4] + SETUP[4..];
    RunOne(EMPTY, SETUP);
    RunOne(One(BOUND), SETUP[1..]);
    RunOne(One(With(BOUND, Ready)), SETUP[1..][1..]);
    RunOne(One(With(BOUND, Armed)), SETUP[1..][1..][1..]);
    RunOne(Two(FREE), SETUP[1..][1..][1..][1..]);
  }

  lemma RunOne(st: State, commands: seq<Command>)
    requires commands != []
    ensures Run(st, commands) == Run(Step(st, commands[0]), commands[1..])
  {
  }

  lemma {:induction false} RunBoth(st: State, a: seq<Command>, b: seq<Command>)
    ensures Run(st, a + b) == Run(Run(st, a), b)
    decreases |a|
  {
    hide Step;
    if a == [] {
      assert a + b == b;
    } else {
      assert (a + b)[1..] == a[1..] + b;
      RunBoth(Step(st, a[0]), a[1..], b);
    }
  }

  lemma BothArmed()
    ensures var st := Rebound(With(BOUND, Armed));
      && HasArm(st.tasks["a"], NewArm(THE_ARM)) && HasArm(st.tasks["b"], NewArm(THE_ARM))
      && !NoSharedSlot(st) && !NoSharedParent(st)
  {
    var st := Rebound(With(BOUND, Armed));
    assert ArmedWith(st.tasks["a"].packets[0], NewArm(THE_ARM)) && ArmedWith(st.tasks["b"].packets[0], NewArm(THE_ARM));
    assert Overlap(NewArm(THE_ARM), NewArm(THE_ARM));
    assert HasArmFor(st.tasks["a"], "s") && HasArmFor(st.tasks["b"], "s");
  }

  /** A session that is bound by force to a second task takes its armed slot with
      it: both tasks end with a packet armed for one parent and agent type. */
  lemma ForcedRebindSharesASlot()
    ensures var st := Run(EMPTY, SETUP + [Bind("b", "s", true), ArmSlot("b", THE_ARM)]);
      && "a" in st.tasks && "b" in st.tasks
      && st.tasks["a"].packets == [PacketIn(Armed)] && st.tasks["b"].packets == [PacketIn(Armed)]
      && !NoSharedSlot(st) && !NoSharedParent(st)
  {
    hide Step, PacketIn, NoSharedSlot, NoSharedParent, SETUP;
    SetUp();
    Rebinding();
    SecondArm();
    BothArmed();
    var tail := [Bind("b", "s", true), ArmSlot("b", THE_ARM)];
    RunBoth(EMPTY, SETUP, tail);
    RunOne(Two(With(FREE, Ready)), tail);
    RunOne(Rebound(With(BOUND, Ready)), tail[1..]);
  }

  /** No force is needed: unbinding the session and binding it again does it. */
  lemma UnbindAndBindSharesASlot()
    ensures var st := Run(EMPTY, SETUP + [Unbind("s"), Bind("b", "s", false), ArmSlot("b", THE_ARM)]);
      !NoSharedSlot(st) && !NoSharedParent(st)
  {
    hide Step, PacketIn, NoSharedSlot, NoSharedParent, SETUP;
    SetUp();
    Unbinding();
    SecondArm();
    BothArmed();
    var tail := [Unbind("s"), Bind("b", "s", false), ArmSlot("b", THE_ARM)];
    RunBoth(EMPTY, SETUP, tail);
    RunOne(Two(With(FREE, Ready)), tail);
    RunOne(Loose(With(FREE, Ready)), tail[1..]);
    RunOne(Rebound(With(BOUND, Ready)), tail[1..][1..]);
  }

  function Loose(b: Task): State {
    State(map["a" := With(FREE, Armed), "b" := b], map[])
  }

  lemma Unbinding()
    ensures Step(Two(With(FREE, Ready)), Unbind("s")) == Loose(With(FREE, Ready))
    ensures Step(Loose(With(FREE, Ready)), Bind("b", "s", false)) == Rebound(With(BOUND, Ready))
  {
    hide PacketIn;
    assert Without(["s"], "s") == [] + Without([], "s");
    assert Added([], "s") == ["s"];
  }

  lemma CreateTheOnlyPacket(t: Task)
    requires Open(t) && t.packets == []
    ensures CreatePacket(t, "p", 1, "", true) == Some(t.(packets := [PacketIn(Ready)]))
  {
    assert [] + [PacketIn(Ready)] == [PacketIn(Ready)];
  }

  lemma ArmTheOnlyPacket(t: Task)
    requires Open(t) && t.roots == ["s"]
    ensures ArmPacket(t.(packets := [PacketIn(Ready)]), THE_ARM) == Some(t.(packets := [PacketIn(Armed)]))
    ensures Find([PacketIn(Armed)], "p") == Some(0)
  {
    var ps := [PacketIn(Ready)];
    assert Expire(ps, 0).value == ps;
    assert Find(ps, "p") == Some(0);
    assert ps[0 := PacketIn(Armed)] == [PacketIn(Armed)];
    assert [] + [Attempt(Live, "s", Exact("worker"), 10)] == PacketIn(Armed).attempts;
  }
}
