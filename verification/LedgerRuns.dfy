/** All runs of the ledger's commands, and what holds after every one of them. */
module LedgerRuns {
  import opened Wrappers
  import opened TaskLedger
  import opened TaskInvariants
  import opened SessionLedger

  datatype Command =
    | Init(task: Id, session: Id, allowed: bool)
    | Bind(task: Id, session: Id, force: bool)
    | Unbind(session: Id)
    | Create(task: Id, id: Id, depth: int, parentPacket: Id, allowed: bool)
    | ArmSlot(task: Id, arm: ArmArgs)
    | Disarm(task: Id, id: Id, allowed: bool)
    | Update(task: Id, update: UpdateArgs)
    | Observe(start: StartArgs)
    | QueueJob(task: Id, run: Id, owner: Id, allowed: bool)
    | MoveJob(task: Id, run: Id, status: JobStatus, allowed: bool)
    | Block(task: Id)
    | Phase(task: Id, blocked: Option<bool>)
    | Close(task: Id, allowed: bool)
    | Cancel(task: Id, allowed: bool)

  /** A task command that leaves the session index alone. */
  function Within(st: State, task: Id, t: Option<Task>): Option<State> {
    if task in st.tasks && t.Some? then Some(Put(st, task, t.value)) else None
  }

  function Result(st: State, c: Command): Option<State> {
    match c
    case Init(task, session, allowed) => InitTask(st, task, session, allowed)
    case Bind(task, session, force) => BindSession(st, task, session, force)
    case Unbind(session) => UnbindSession(st, session)
    case Create(task, id, depth, parentPacket, allowed) =>
      if task !in st.tasks then None else Within(st, task, CreatePacket(st.tasks[task], id, depth, parentPacket, allowed))
    case ArmSlot(task, arm) => ArmIn(st, task, arm)
    case Disarm(task, id, allowed) =>
      if task !in st.tasks then None else Within(st, task, DisarmPacket(st.tasks[task], id, allowed))
    case Update(task, update) => UpdateIn(st, task, update)
    case Observe(start) => ObserveIn(st, start)
    case QueueJob(task, run, owner, allowed) =>
      if task !in st.tasks then None else Within(st, task, StartJob(st.tasks[task], run, owner, allowed))
    case MoveJob(task, run, status, allowed) =>
      if task !in st.tasks then None else Within(st, task, UpdateJob(st.tasks[task], run, status, allowed))
    case Block(task) => BlockTask(st, task)
    case Phase(task, blocked) => SetPhase(st, task, blocked)
    case Close(task, allowed) => EndTask(st, task, Closed, allowed)
    case Cancel(task, allowed) => EndTask(st, task, Withdrawn, allowed)
  }

  /** A refused command leaves the ledger as it was. */
  function Step(st: State, c: Command): State {
    match Result(st, c)
    case None => st
    case Some(after) => after
  }

  function Run(st: State, commands: seq<Command>): State
    decreases |commands|
  {
    if commands == [] then st else Run(Step(st, commands[0]), commands[1..])
  }

  const EMPTY: State := State(map[], map[])

  predicate Inv(st: State) {
    TasksValid(st) && Coherent(st) && NamedSessions(st)
  }

  // ----- task commands keep the agents' places -----

  lemma ExpiryKeepsAgents(ps: seq<Packet>, now: int)
    requires Expire(ps, now).Some?
    ensures KeepsAgents(ps, Expire(ps, now).value)
  {
    hide LiveArms, CloseLive;
  }

  lemma ChangeKeepsAgents(ps: seq<Packet>, qs: seq<Packet>, f: nat, q: Packet)
    requires KeepsAgents(ps, qs) && f < |qs| && Replaces(qs[f], q) && (qs[f].agent != "" ==> q.agent == qs[f].agent)
    ensures KeepsAgents(ps, qs[f := q])
  {
  }

  lemma ArmKeepsAgents(t: Task, a: ArmArgs)
    requires ArmPacket(t, a).Some?
    ensures KeepsAgents(t.packets, ArmPacket(t, a).value.packets)
    ensures var u := ArmPacket(t, a).value;
      u.status == t.status && u.roots == t.roots && u.subs == t.subs
  {
    hide Expire, KeepsAgents, TopologyOk, Collides;
    ExpiryKeepsAgents(t.packets, a.now);
    var ps := Expire(t.packets, a.now).value;
    var f := Find(ps, a.id).value;
    ChangeKeepsAgents(t.packets, ps, f, ArmPacket(t, a).value.packets[f]);
  }

  lemma UpdateKeepsAgents(t: Task, a: UpdateArgs)
    requires UpdatePacket(t, a).Some?
    ensures KeepsAgents(t.packets, UpdatePacket(t, a).value.packets)
    ensures var u := UpdatePacket(t, a).value;
      u.status == t.status && u.roots == t.roots && u.subs == t.subs
  {
    hide LiveArms, CloseLive, TopologyOk;
    var f := Find(t.packets, a.id).value;
    ChangeKeepsAgents(t.packets, t.packets, f, UpdatedPacket(t.packets[f], a));
  }

  lemma StartKeepsAgents(t: Task, a: StartArgs)
    requires AgentsLate(t.packets) && ObserveStart(t, a).Some?
    ensures KeepsAgents(t.packets, ObserveStart(t, a).value.0.packets)
    ensures var u := ObserveStart(t, a).value.0;
      u.status == t.status && u.roots == t.roots && u.subs == t.subs
  {
    hide Expire, KeepsAgents, TopologyOk, LiveArms, CloseLive, AgentsLate;
    ExpiryKeepsAgents(t.packets, a.now);
    AgentsAfterExpiry(t.packets, a.now);
    var ps := Expire(t.packets, a.now).value;
    var found := OnlyCandidate(ps, a.session, a.agentType);
    if found.Some? && Consumable(ps, found.value, a) {
      ArmedIsUnnamed(ps, found.value);
      ChangeKeepsAgents(t.packets, ps, found.value, ObserveStart(t, a).value.0.packets[found.value]);
    }
  }

  lemma ArmedIsUnnamed(ps: seq<Packet>, i: nat)
    requires AgentsLate(ps) && i < |ps| && ps[i].status.Armed?
    ensures ps[i].agent == ""
  {
  }

  // ----- every step keeps the invariant -----

  lemma PutKeepsInv(st: State, task: Id, u: Task)
    requires Inv(st) && task in st.tasks && Valid(u)
    requires u.status == st.tasks[task].status && u.roots == st.tasks[task].roots && u.subs == st.tasks[task].subs
    requires KeepsAgents(st.tasks[task].packets, u.packets)
    ensures Inv(Put(st, task, u))
  {
    hide KeepsAgents, Coherent;
    TaskChangeKeepsIndex(st, task, u);
  }

  lemma EnsureKeepsInv(st: State, task: Id, i: nat)
    requires Inv(st) && task in st.tasks && Open(st.tasks[task]) && i < |st.tasks[task].packets|
    ensures var r := EnsureMapping(st, task, st.tasks[task].packets[i]); r.Some? ==> Inv(r.value)
  {
    hide Coherent, NamedSessions;
    EnsureKeepsIndex(st, task, i);
    ValidIgnoresIndex(st.tasks[task], Added(st.tasks[task].subs, st.tasks[task].packets[i].agent));
  }

  lemma ValidIgnoresIndex(t: Task, subs: seq<Id>)
    requires Valid(t)
    ensures Valid(t.(subs := subs))
  {
    assert forall owner :: OwnerOk(t.(subs := subs), owner) == OwnerOk(t, owner);
  }

  lemma ValidIgnoresRoots(t: Task, roots: seq<Id>, subs: seq<Id>, status: TaskStatus)
    requires Valid(t)
    ensures Valid(Task(status, roots, subs, t.packets, t.jobs))
  {
    assert forall owner :: OwnerOk(Task(status, roots, subs, t.packets, t.jobs), owner) == OwnerOk(t, owner);
  }

  /** The session commands leave packets and jobs alone. */
  predicate SameWork(st: State, after: State) {
    forall t | t in after.tasks ::
      if t in st.tasks then after.tasks[t].packets == st.tasks[t].packets && after.tasks[t].jobs == st.tasks[t].jobs
      else after.tasks[t].packets == [] && after.tasks[t].jobs == []
  }

  lemma SameWorkKeepsValid(st: State, after: State)
    requires TasksValid(st) && SameWork(st, after)
    ensures TasksValid(after)
  {
    hide Valid;
    forall t | t in after.tasks ensures Valid(after.tasks[t]) {
      var u := after.tasks[t];
      if t in st.tasks {
        ValidIgnoresRoots(st.tasks[t], u.roots, u.subs, u.status);
      } else {
        EmptyTaskIsValid(u);
      }
    }
  }

  lemma EmptyTaskIsValid(t: Task)
    requires t.packets == [] && t.jobs == []
    ensures Valid(t)
  {
  }

  predicate SessionCommand(c: Command) {
    c.Init? || c.Bind? || c.Unbind? || c.Block? || c.Phase? || c.Close? || c.Cancel?
  }

  lemma SessionCommandKeepsWork(st: State, c: Command)
    requires SessionCommand(c)
    ensures SameWork(st, Step(st, c))
  {
    hide Settled, UnbindAll, Without;
  }

  lemma SessionStepKeepsInv(st: State, c: Command)
    requires Inv(st) && SessionCommand(c)
    ensures Inv(Step(st, c))
  {
    hide TasksValid, Coherent, SameWork, NamedSessions, BindSession, UnbindSession, EndTask, InitTask, Restate;
    SessionCommandKeepsWork(st, c);
    SameWorkKeepsValid(st, Step(st, c));
    if Result(st, c).Some? {
      match c
      case Init(task, session, allowed) => InitKeepsIndex(st, task, session, allowed);
      case Bind(task, session, force) => BindKeepsIndex(st, task, session, force);
      case Unbind(session) => UnbindKeepsIndex(st, session);
      case Block(task) => StatusKeepsIndex(st, task, Blocked);
      case Phase(task, blocked) =>
        if blocked.Some? {
          StatusKeepsIndex(st, task, if blocked.value then Blocked else Active);
        }
      case Close(task, allowed) => EndKeepsIndex(st, task, Closed, allowed);
      case Cancel(task, allowed) => EndKeepsIndex(st, task, Withdrawn, allowed);
    }
  }

  lemma StatusKeepsIndex(st: State, task: Id, status: TaskStatus)
    requires status.Active? || status.Blocked?
    requires Coherent(st) && NamedSessions(st) && Restate(st, task, status).Some?
    ensures Coherent(Restate(st, task, status).value) && NamedSessions(Restate(st, task, status).value)
  {
    hide MatchCount;
    var after := Restate(st, task, status).value;
    forall s | s in after.sessions ensures MappingOk(after, s) {
      assert MappingOk(st, s);
    }
    forall t | t in after.tasks ensures BacklinksOk(after, t) {
      assert BacklinksOk(st, t);
    }
  }

  lemma ArmStepKeepsInv(st: State, task: Id, a: ArmArgs)
    requires Inv(st) && ArmIn(st, task, a).Some?
    ensures Inv(ArmIn(st, task, a).value)
  {
    hide ArmPacket, Valid, KeepsAgents, Coherent, EnsureMapping, NamedSessions;
    ArmKeepsValid(st.tasks[task], a);
    ArmKeepsAgents(st.tasks[task], a);
    ArmedTaskIsOpen(st.tasks[task], a);
    var t := ArmPacket(st.tasks[task], a).value;
    PutKeepsInv(st, task, t);
    var p := t.packets[Find(t.packets, a.id).value];
    if p.depth != 1 {
      EnsureKeepsInv(Put(st, task, t), task, Find(t.packets, p.parentPacket).value);
    }
  }

  lemma ArmedTaskIsOpen(t: Task, a: ArmArgs)
    requires ArmPacket(t, a).Some?
    ensures Open(t)
  {
  }

  lemma UpdateStepKeepsInv(st: State, task: Id, a: UpdateArgs)
    requires Inv(st) && UpdateIn(st, task, a).Some?
    ensures Inv(UpdateIn(st, task, a).value)
  {
    hide Valid, KeepsAgents, Coherent, EnsureMapping, NamedSessions, MayUpdate, UpdatedPacket;
    UpdateKeepsValid(st.tasks[task], a);
    UpdateKeepsAgents(st.tasks[task], a);
    var t := UpdatePacket(st.tasks[task], a).value;
    PutKeepsInv(st, task, t);
    EnsureKeepsInv(Put(st, task, t), task, Find(t.packets, a.id).value);
  }

  lemma ObserveStepKeepsInv(st: State, a: StartArgs)
    requires Inv(st) && ObserveIn(st, a).Some?
    ensures Inv(ObserveIn(st, a).value)
  {
    hide ObserveStart, KeepsAgents, Coherent, EnsureMapping, NamedSessions;
    hide UniqueIds, UniqueRuns, ArmsMatch, SlotsExclusive, Contained, JobsContained, AgentsLate;
    var task := st.sessions[a.session].task;
    MappedTask(st, a.session);
    StartKeepsValid(st.tasks[task], a);
    StartKeepsAgents(st.tasks[task], a);
    var (t, started) := ObserveStart(st.tasks[task], a).value;
    PutKeepsInv(st, task, t);
    if started.Some? && started.value < |t.packets| {
      EnsureKeepsInv(Put(st, task, t), task, started.value);
    }
  }

  lemma TaskStepKeepsInv(st: State, c: Command)
    requires Inv(st) && (c.Create? || c.Disarm? || c.QueueJob? || c.MoveJob?)
    ensures Inv(Step(st, c))
  {
    hide Valid, Coherent, NamedSessions, CreatePacket, DisarmPacket, StartJob, UpdateJob, KeepsAgents;
    if Result(st, c).Some? {
      var t := st.tasks[c.task];
      match c
      case Create(task, id, depth, parentPacket, allowed) =>
        CreateKeepsValid(t, id, depth, parentPacket, allowed);
        CreateKeepsAgents(t, id, depth, parentPacket, allowed);
        PutKeepsInv(st, task, CreatePacket(t, id, depth, parentPacket, allowed).value);
      case Disarm(task, id, allowed) =>
        DisarmKeepsValid(t, id, allowed);
        DisarmKeepsAgents(t, id, allowed);
        PutKeepsInv(st, task, DisarmPacket(t, id, allowed).value);
      case QueueJob(task, run, owner, allowed) =>
        StartJobKeepsValid(t, run, owner, allowed);
        JobsKeepAgents(t, run, owner, Queued, allowed);
        PutKeepsInv(st, task, StartJob(t, run, owner, allowed).value);
      case MoveJob(task, run, status, allowed) =>
        UpdateJobKeepsValid(t, run, status, allowed);
        JobsKeepAgents(t, run, "", status, allowed);
        PutKeepsInv(st, task, UpdateJob(t, run, status, allowed).value);
    }
  }

  lemma CreateKeepsAgents(t: Task, id: Id, depth: int, parentPacket: Id, allowed: bool)
    requires CreatePacket(t, id, depth, parentPacket, allowed).Some?
    ensures KeepsAgents(t.packets, CreatePacket(t, id, depth, parentPacket, allowed).value.packets)
    ensures var u := CreatePacket(t, id, depth, parentPacket, allowed).value;
      u.status == t.status && u.roots == t.roots && u.subs == t.subs
  {
  }

  lemma DisarmKeepsAgents(t: Task, id: Id, allowed: bool)
    requires DisarmPacket(t, id, allowed).Some?
    ensures KeepsAgents(t.packets, DisarmPacket(t, id, allowed).value.packets)
    ensures var u := DisarmPacket(t, id, allowed).value;
      u.status == t.status && u.roots == t.roots && u.subs == t.subs
  {
    hide LiveArms, CloseLive;
  }

  lemma JobsKeepAgents(t: Task, run: Id, owner: Id, status: JobStatus, allowed: bool)
    ensures StartJob(t, run, owner, allowed).Some? ==> var u := StartJob(t, run, owner, allowed).value;
      u.status == t.status && u.roots == t.roots && u.subs == t.subs && KeepsAgents(t.packets, u.packets)
    ensures UpdateJob(t, run, status, allowed).Some? ==> var u := UpdateJob(t, run, status, allowed).value;
      u.status == t.status && u.roots == t.roots && u.subs == t.subs && KeepsAgents(t.packets, u.packets)
  {
    hide OwnerOk, FindJob;
  }

  lemma StepKeepsInv(st: State, c: Command)
    requires Inv(st)
    ensures Inv(Step(st, c))
  {
    hide Inv, ArmIn, UpdateIn, ObserveIn;
    if SessionCommand(c) {
      SessionStepKeepsInv(st, c);
    } else if c.Create? || c.Disarm? || c.QueueJob? || c.MoveJob? {
      TaskStepKeepsInv(st, c);
    } else if Result(st, c).Some? {
      match c
      case ArmSlot(task, arm) => ArmStepKeepsInv(st, task, arm);
      case Update(task, update) => UpdateStepKeepsInv(st, task, update);
      case Observe(start) => ObserveStepKeepsInv(st, start);
    }
  }

  /** In every state that any run of the commands reaches, arms match their
      packets, arm slots are exclusive, work is contained, and the session index
      is coherent. */
  lemma {:induction false} RunKeepsInv(st: State, commands: seq<Command>)
    requires Inv(st)
    ensures Inv(Run(st, commands))
    decreases |commands|
  {
    hide Inv, Step;
    if commands != [] {
      StepKeepsInv(st, commands[0]);
      RunKeepsInv(Step(st, commands[0]), commands[1..]);
    }
  }

  lemma EmptyHoldsInv()
    ensures Inv(EMPTY)
  {
  }
}
