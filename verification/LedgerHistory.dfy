/** Properties of whole runs of the ledger: what is final stays final, what has
    passed was launched, and when arm slots stay exclusive across tasks. */
module LedgerHistory {
  import opened Wrappers
  import opened TaskLedger
  import opened TaskInvariants
  import opened SessionLedger
  import opened LedgerRuns

  // ----- final work -----

  /** Nothing is lost, and terminal packets and jobs keep their status. */
  predicate FinalKept(t: Task, u: Task) {
    && |t.packets| <= |u.packets| && |t.jobs| <= |u.jobs|
    && (forall i | 0 <= i < |t.packets| ::
          u.packets[i].id == t.packets[i].id && (Terminal(t.packets[i]) ==> u.packets[i].status == t.packets[i].status))
    && forall i | 0 <= i < |t.jobs| ::
         u.jobs[i].run == t.jobs[i].run && u.jobs[i].owner == t.jobs[i].owner
         && (!ActiveJob(t.jobs[i]) ==> u.jobs[i].status == t.jobs[i].status)
  }

  lemma ExpiryKeepsFinal(t: Task, now: int)
    requires Expire(t.packets, now).Some?
    ensures FinalKept(t, t.(packets := Expire(t.packets, now).value))
  {
    hide LiveArms, CloseLive;
  }

  lemma ChangeKeepsFinal(t: Task, u: Task, f: nat, q: Packet)
    requires FinalKept(t, u) && f < |u.packets| && q.id == u.packets[f].id && !Terminal(u.packets[f])
    ensures FinalKept(t, u.(packets := u.packets[f := q]))
  {
  }

  lemma ArmKeepsFinal(t: Task, a: ArmArgs)
    requires ArmPacket(t, a).Some?
    ensures FinalKept(t, ArmPacket(t, a).value)
  {
    hide Expire, FinalKept, TopologyOk, Collides, MayArm;
    ExpiryKeepsFinal(t, a.now);
    var u := t.(packets := Expire(t.packets, a.now).value);
    var f := Find(u.packets, a.id).value;
    ChangeKeepsFinal(t, u, f, ArmPacket(t, a).value.packets[f]);
  }

  lemma ObserveKeepsFinal(t: Task, a: StartArgs)
    requires ObserveStart(t, a).Some?
    ensures FinalKept(t, ObserveStart(t, a).value.0)
  {
    hide Expire, FinalKept, TopologyOk, LiveArms, CloseLive;
    ExpiryKeepsFinal(t, a.now);
    var u := t.(packets := Expire(t.packets, a.now).value);
    var found := OnlyCandidate(u.packets, a.session, a.agentType);
    if found.Some? && Consumable(u.packets, found.value, a) {
      ChangeKeepsFinal(t, u, found.value, ObserveStart(t, a).value.0.packets[found.value]);
    }
  }

  lemma PacketCommandsKeepFinal(t: Task, id: Id, depth: int, parentPacket: Id, a: UpdateArgs, allowed: bool)
    ensures CreatePacket(t, id, depth, parentPacket, allowed).Some? ==>
      FinalKept(t, CreatePacket(t, id, depth, parentPacket, allowed).value)
    ensures DisarmPacket(t, id, allowed).Some? ==> FinalKept(t, DisarmPacket(t, id, allowed).value)
    ensures UpdatePacket(t, a).Some? ==> FinalKept(t, UpdatePacket(t, a).value)
  {
    hide LiveArms, CloseLive, MayDispatch, HasActiveWork;
  }

  lemma JobCommandsKeepFinal(t: Task, run: Id, owner: Id, status: JobStatus, allowed: bool)
    ensures StartJob(t, run, owner, allowed).Some? ==> FinalKept(t, StartJob(t, run, owner, allowed).value)
    ensures UpdateJob(t, run, status, allowed).Some? ==> FinalKept(t, UpdateJob(t, run, status, allowed).value)
  {
    hide OwnerOk, FindJob;
  }

  lemma SameWorkKeepsFinal(t: Task, u: Task)
    requires u.packets == t.packets && u.jobs == t.jobs
    ensures FinalKept(t, u)
  {
  }

  lemma EnsureKeepsWork(st: State, task: Id, p: Packet)
    requires task in st.tasks && EnsureMapping(st, task, p).Some?
    ensures SameWork(st, EnsureMapping(st, task, p).value)
    ensures EnsureMapping(st, task, p).value.tasks.Keys == st.tasks.Keys
  {
  }

  lemma SessionCommandsKeepTasks(st: State, c: Command)
    requires SessionCommand(c)
    ensures st.tasks.Keys <= Step(st, c).tasks.Keys
  {
    hide Settled, UnbindAll, Without;
  }

  lemma StepKeepsFinal(st: State, c: Command, task: Id)
    requires task in st.tasks
    ensures task in Step(st, c).tasks && FinalKept(st.tasks[task], Step(st, c).tasks[task])
  {
    hide FinalKept, EnsureMapping, ArmPacket, UpdatePacket, ObserveStart, CreatePacket, DisarmPacket, StartJob, UpdateJob;
    var t := st.tasks[task];
    SameWorkKeepsFinal(t, t);
    if SessionCommand(c) {
      SessionCommandKeepsWork(st, c);
      SessionCommandsKeepTasks(st, c);
      SameWorkKeepsFinal(t, Step(st, c).tasks[task]);
    } else if Result(st, c).Some? {
      match c
      case Create(on, id, depth, parentPacket, allowed) =>
        PacketCommandsKeepFinal(st.tasks[on], id, depth, parentPacket, UpdateArgs("", Ready, "", 0, false), allowed);
      case Disarm(on, id, allowed) =>
        PacketCommandsKeepFinal(st.tasks[on], id, 0, "", UpdateArgs("", Ready, "", 0, false), allowed);
      case ArmSlot(on, arm) => ArmStepKeepsFinal(st, on, arm, task);
      case Update(on, update) => UpdateStepKeepsFinal(st, on, update, task);
      case Observe(start) => ObserveStepKeepsFinal(st, start, task);
      case QueueJob(on, run, owner, allowed) => JobCommandsKeepFinal(st.tasks[on], run, owner, Queued, allowed);
      case MoveJob(on, run, status, allowed) => JobCommandsKeepFinal(st.tasks[on], run, "", status, allowed);
    }
  }

  lemma FinalThroughEnsure(st: State, on: Id, u: Task, p: Packet, task: Id)
    requires on in st.tasks && task in st.tasks && FinalKept(st.tasks[on], u)
    requires EnsureMapping(Put(st, on, u), on, p).Some?
    ensures var after := EnsureMapping(Put(st, on, u), on, p).value;
      task in after.tasks && FinalKept(st.tasks[task], after.tasks[task])
  {
    var mid := Put(st, on, u);
    EnsureKeepsWork(mid, on, p);
  }

  lemma ArmStepKeepsFinal(st: State, on: Id, a: ArmArgs, task: Id)
    requires task in st.tasks && ArmIn(st, on, a).Some?
    ensures var after := ArmIn(st, on, a).value; task in after.tasks && FinalKept(st.tasks[task], after.tasks[task])
  {
    hide FinalKept, EnsureMapping, ArmPacket;
    ArmKeepsFinal(st.tasks[on], a);
    SameWorkKeepsFinal(st.tasks[task], st.tasks[task]);
    var u := ArmPacket(st.tasks[on], a).value;
    var p := u.packets[Find(u.packets, a.id).value];
    if p.depth != 1 {
      FinalThroughEnsure(st, on, u, u.packets[Find(u.packets, p.parentPacket).value], task);
    }
  }

  lemma UpdateStepKeepsFinal(st: State, on: Id, a: UpdateArgs, task: Id)
    requires task in st.tasks && UpdateIn(st, on, a).Some?
    ensures var after := UpdateIn(st, on, a).value; task in after.tasks && FinalKept(st.tasks[task], after.tasks[task])
  {
    hide FinalKept, EnsureMapping, UpdatePacket;
    PacketCommandsKeepFinal(st.tasks[on], "", 0, "", a, false);
    SameWorkKeepsFinal(st.tasks[task], st.tasks[task]);
    var u := UpdatePacket(st.tasks[on], a).value;
    var p := u.packets[Find(u.packets, a.id).value];
    if EnsureMapping(Put(st, on, u), on, p).Some? {
      FinalThroughEnsure(st, on, u, p, task);
    }
  }

  lemma ObserveStepKeepsFinal(st: State, a: StartArgs, task: Id)
    requires task in st.tasks && ObserveIn(st, a).Some?
    ensures var after := ObserveIn(st, a).value; task in after.tasks && FinalKept(st.tasks[task], after.tasks[task])
  {
    hide FinalKept, EnsureMapping, ObserveStart;
    var on := st.sessions[a.session].task;
    ObserveKeepsFinal(st.tasks[on], a);
    SameWorkKeepsFinal(st.tasks[task], st.tasks[task]);
    var (u, started) := ObserveStart(st.tasks[on], a).value;
    if started.Some? && started.value < |u.packets| && EnsureMapping(Put(st, on, u), on, u.packets[started.value]).Some? {
      FinalThroughEnsure(st, on, u, u.packets[started.value], task);
    }
  }

  /** Over every run, terminal packets and jobs never change status again. */
  lemma {:induction false} RunKeepsFinal(st: State, commands: seq<Command>, task: Id)
    requires task in st.tasks
    ensures task in Run(st, commands).tasks && FinalKept(st.tasks[task], Run(st, commands).tasks[task])
    decreases |commands|
  {
    hide Step, FinalKept;
    SameWorkKeepsFinal(st.tasks[task], st.tasks[task]);
    if commands != [] {
      var next := Step(st, commands[0]);
      StepKeepsFinal(st, commands[0], task);
      RunKeepsFinal(next, commands[1..], task);
      FinalIsTransitive(st.tasks[task], next.tasks[task], Run(st, commands).tasks[task]);
    }
  }

  lemma FinalIsTransitive(t: Task, u: Task, v: Task)
    requires FinalKept(t, u) && FinalKept(u, v)
    ensures FinalKept(t, v)
  {
  }

  // ----- passed jobs were launched -----

  predicate Launched(st: State, task: Id, i: nat) {
    task in st.tasks && i < |st.tasks[task].jobs| && st.tasks[task].jobs[i].launches > 0
  }

  /** The command is a running transition of this job, made under a dispatched
      top-level owner. */
  predicate Launch(st: State, c: Command, task: Id, run: Id, owner: Id) {
    && task in st.tasks
    && c == MoveJob(task, run, Running, true)
    && UpdateJob(st.tasks[task], run, Running, true).Some?
    && OwnerOk(st.tasks[task], owner)
  }

  lemma OnlyLaunchesLaunch(st: State, c: Command, task: Id, i: nat)
    requires !Launched(st, task, i) && Launched(Step(st, c), task, i)
    ensures Launch(st, c, task, Step(st, c).tasks[task].jobs[i].run, Step(st, c).tasks[task].jobs[i].owner)
  {
    hide OwnerOk, EnsureMapping, ArmPacket, UpdatePacket, ObserveStart, CreatePacket, DisarmPacket, Find;
    if SessionCommand(c) {
      SessionCommandKeepsWork(st, c);
    } else {
      match c
      case Create(on, id, depth, parentPacket, allowed) => PacketCommandsKeepJobs(st.tasks[on], c, ArmArgs("", "", Wildcard, 0, 0, false), UpdateArgs("", Ready, "", 0, false), StartArgs("", "", "", 0, false));
      case Disarm(on, id, allowed) => PacketCommandsKeepJobs(st.tasks[on], c, ArmArgs("", "", Wildcard, 0, 0, false), UpdateArgs("", Ready, "", 0, false), StartArgs("", "", "", 0, false));
      case ArmSlot(on, arm) => PacketCommandsKeepJobs(st.tasks[on], c, arm, UpdateArgs("", Ready, "", 0, false), StartArgs("", "", "", 0, false)); EnsuresKeepJobs(st, c);
      case Update(on, update) => PacketCommandsKeepJobs(st.tasks[on], c, ArmArgs("", "", Wildcard, 0, 0, false), update, StartArgs("", "", "", 0, false)); EnsuresKeepJobs(st, c);
      case Observe(start) => EnsuresKeepJobs(st, c);
      case _ =>
    }
  }

  lemma PacketCommandsKeepJobs(t: Task, c: Command, arm: ArmArgs, update: UpdateArgs, start: StartArgs)
    ensures ArmPacket(t, arm).Some? ==> ArmPacket(t, arm).value.jobs == t.jobs
    ensures UpdatePacket(t, update).Some? ==> UpdatePacket(t, update).value.jobs == t.jobs
    ensures ObserveStart(t, start).Some? ==> ObserveStart(t, start).value.0.jobs == t.jobs
    ensures c.Create? && CreatePacket(t, c.id, c.depth, c.parentPacket, c.allowed).Some? ==>
      CreatePacket(t, c.id, c.depth, c.parentPacket, c.allowed).value.jobs == t.jobs
    ensures c.Disarm? && DisarmPacket(t, c.id, c.allowed).Some? ==> DisarmPacket(t, c.id, c.allowed).value.jobs == t.jobs
  {
    hide Expire, Find, TopologyOk, OnlyCandidate;
  }

  lemma EnsuresKeepJobs(st: State, c: Command)
    requires c.ArmSlot? || c.Update? || c.Observe?
    ensures forall t | t in Step(st, c).tasks :: t in st.tasks && Step(st, c).tasks[t].jobs == st.tasks[t].jobs
  {
    hide ArmPacket, UpdatePacket, ObserveStart, Find;
    if Result(st, c).Some? {
      match c
      case ArmSlot(on, arm) =>
        PacketCommandsKeepJobs(st.tasks[on], c, arm, UpdateArgs("", Ready, "", 0, false), StartArgs("", "", "", 0, false));
      case Update(on, update) =>
        PacketCommandsKeepJobs(st.tasks[on], c, ArmArgs("", "", Wildcard, 0, 0, false), update, StartArgs("", "", "", 0, false));
      case Observe(start) =>
        PacketCommandsKeepJobs(st.tasks[st.sessions[start.session].task], c, ArmArgs("", "", Wildcard, 0, 0, false), UpdateArgs("", Ready, "", 0, false), start);
    }
  }

  lemma {:induction false} LaunchedEarlier(st: State, commands: seq<Command>, task: Id, i: nat) returns (k: nat)
    requires !Launched(st, task, i) && Launched(Run(st, commands), task, i)
    ensures k < |commands|
    ensures var j := Run(st, commands).tasks[task].jobs[i];
      Launch(Run(st, commands[..k]), commands[k], task, j.run, j.owner)
    decreases |commands|
  {
    hide Step, Launch;
    var next := Step(st, commands[0]);
    if Launched(next, task, i) {
      k := 0;
      OnlyLaunchesLaunch(st, commands[0], task, i);
      RunKeepsFinal(next, commands[1..], task);
      assert commands[..0] == [];
    } else {
      var later := LaunchedEarlier(next, commands[1..], task, i);
      k := later + 1;
      assert commands[..k][0] == commands[0] && commands[..k][1..] == commands[1..][..later];
    }
  }

  /** In every run from an empty ledger, a passing job has an earlier running
      transition under a dispatched owner - although the transition table by
      itself lets a queued job become unknown and then pass. */
  lemma PassedJobWasLaunched(commands: seq<Command>, task: Id, i: nat) returns (k: nat)
    requires task in Run(EMPTY, commands).tasks && i < |Run(EMPTY, commands).tasks[task].jobs|
    requires Run(EMPTY, commands).tasks[task].jobs[i].status.Pass?
    ensures k < |commands|
    ensures var j := Run(EMPTY, commands).tasks[task].jobs[i];
      Launch(Run(EMPTY, commands[..k]), commands[k], task, j.run, j.owner)
  {
    hide Run;
    EmptyHoldsInv();
    RunKeepsInv(EMPTY, commands);
    k := LaunchedEarlier(EMPTY, commands, task, i);
  }
}
