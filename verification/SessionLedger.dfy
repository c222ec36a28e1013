/** The tasks of the ledger and the index of sessions that leads to them. A
    mapping and the backlink of its kind have to agree at all times. */
module SessionLedger {
  import opened Wrappers
  import opened TaskLedger
  import opened TaskInvariants

  datatype Kind = Root | SubagentParent

  /** `packet` names the dispatched packet of a sub-agent parent. */
  datatype Mapping = Mapping(kind: Kind, task: Id, packet: Id)

  datatype State = State(tasks: map<Id, Task>, sessions: map<Id, Mapping>)

  // ----- coherence, as the doctor command checks it -----

  predicate IsAgentPacket(p: Packet, id: Id, agent: Id) {
    p.id == id && p.agent == agent && p.depth == 1
  }

  function MatchCount(ps: seq<Packet>, id: Id, agent: Id): nat {
    if ps == [] then 0
    else (if IsAgentPacket(ps[0], id, agent) then 1 else 0) + MatchCount(ps[1..], id, agent)
  }

  lemma {:induction false} NoMatchCountsZero(ps: seq<Packet>, id: Id, agent: Id)
    ensures MatchCount(ps, id, agent) == 0 <==> forall i | 0 <= i < |ps| :: !IsAgentPacket(ps[i], id, agent)
  {
    if ps != [] {
      NoMatchCountsZero(ps[1..], id, agent);
      assert forall i | 0 <= i < |ps[1..]| :: ps[1..][i] == ps[i + 1];
      if forall i | 0 <= i < |ps[1..]| :: !IsAgentPacket(ps[1..][i], id, agent) {
        forall i | 1 <= i < |ps| ensures !IsAgentPacket(ps[i], id, agent) {
          assert ps[1..][i - 1] == ps[i];
        }
      }
    }
  }

  predicate SomeMatch(ps: seq<Packet>, id: Id, agent: Id) {
    exists i | 0 <= i < |ps| :: IsAgentPacket(ps[i], id, agent)
  }

  lemma SomeMatchSplit(ps: seq<Packet>, id: Id, agent: Id)
    requires ps != []
    ensures SomeMatch(ps, id, agent) <==> IsAgentPacket(ps[0], id, agent) || SomeMatch(ps[1..], id, agent)
  {
    var rest := ps[1..];
    forall i | 0 <= i < |rest| && IsAgentPacket(rest[i], id, agent) ensures SomeMatch(ps, id, agent) {
      assert IsAgentPacket(ps[i + 1], id, agent);
    }
    forall i | 0 < i < |ps| && IsAgentPacket(ps[i], id, agent) ensures SomeMatch(rest, id, agent) {
      assert IsAgentPacket(rest[i - 1], id, agent);
    }
  }

  lemma {:induction false} MatchCountsOne(ps: seq<Packet>, id: Id, agent: Id)
    requires UniqueIds(ps)
    ensures MatchCount(ps, id, agent) == 1 <==> SomeMatch(ps, id, agent)
  {
    if ps != [] {
      var rest := ps[1..];
      SomeMatchSplit(ps, id, agent);
      MatchCountsOne(rest, id, agent);
      NoMatchCountsZero(rest, id, agent);
      if IsAgentPacket(ps[0], id, agent) {
        forall i | 0 <= i < |rest| ensures !IsAgentPacket(rest[i], id, agent) {
          assert rest[i] == ps[i + 1];
        }
      }
    }
  }

  /** A mapping leads to an open task that holds the backlink of its kind, and
      only of its kind; a sub-agent parent has its one depth-one packet. */
  predicate MappingOk(st: State, session: Id)
    requires session in st.sessions
  {
    var m := st.sessions[session];
    && m.task in st.tasks
    && var t := st.tasks[m.task];
    && Open(t)
    && match m.kind
       case Root => session in t.roots && session !in t.subs
       case SubagentParent => session in t.subs && session !in t.roots && MatchCount(t.packets, m.packet, session) == 1
  }

  /** Every backlink of an open task has its mapping. */
  predicate BacklinksOk(st: State, task: Id)
    requires task in st.tasks
  {
    Open(st.tasks[task]) ==>
      && (forall s | s in st.tasks[task].roots :: s in st.sessions && st.sessions[s].task == task && st.sessions[s].kind.Root?)
      && forall s | s in st.tasks[task].subs ::
           s in st.sessions && st.sessions[s].task == task && st.sessions[s].kind.SubagentParent?
  }

  predicate Coherent(st: State) {
    && (forall s | s in st.sessions :: MappingOk(st, s))
    && forall t | t in st.tasks :: BacklinksOk(st, t)
  }

  predicate TasksValid(st: State) {
    forall t | t in st.tasks :: Valid(st.tasks[t])
  }

  /** In a coherent index no session is both a root and a sub-agent parent. */
  lemma NoDoubleRole(st: State, a: Id, b: Id, s: Id)
    requires Coherent(st) && a in st.tasks && b in st.tasks && Open(st.tasks[a]) && Open(st.tasks[b])
    ensures !(s in st.tasks[a].roots && s in st.tasks[b].subs)
    ensures a != b ==> !(s in st.tasks[a].roots && s in st.tasks[b].roots)
  {
    assert BacklinksOk(st, a) && BacklinksOk(st, b);
  }

  // ----- the session commands -----

  function Added(ids: seq<Id>, s: Id): seq<Id> {
    if s in ids then ids else ids + [s]
  }

  function Without(ids: seq<Id>, s: Id): (r: seq<Id>)
    ensures forall x :: x in r <==> x in ids && x != s
  {
    if ids == [] then []
    else (if ids[0] == s then [] else [ids[0]]) + Without(ids[1..], s)
  }

  /** `ensure_subagent_parent_mapping_unlocked`: binds the agent of a depth-one
      packet, unless it is mapped otherwise already. */
  function EnsureMapping(st: State, task: Id, p: Packet): Option<State>
    requires task in st.tasks
  {
    var m := Mapping(SubagentParent, task, p.id);
    if p.depth != 1 || p.agent == "" then None
    else if p.agent in st.sessions && st.sessions[p.agent] != m then None
    else Some(State(
      st.tasks[task := st.tasks[task].(subs := Added(st.tasks[task].subs, p.agent))],
      st.sessions[p.agent := m]))
  }

  /** Takes the root backlink of the session from the task it was bound to. */
  function Released(st: State, session: Id): map<Id, Task> {
    if session in st.sessions && st.sessions[session].task in st.tasks && Open(st.tasks[st.sessions[session].task]) then
      var former := st.sessions[session].task;
      st.tasks[former := st.tasks[former].(roots := Without(st.tasks[former].roots, session))]
    else st.tasks
  }

  function BindSession(st: State, task: Id, session: Id, force: bool): Option<State> {
    if session == "" || task !in st.tasks || !Open(st.tasks[task]) then None
    else if session in st.sessions && st.sessions[session].kind.SubagentParent? then None
    else if session in st.sessions && st.sessions[session].task != task && !force then None
    else
      var tasks := if session in st.sessions && st.sessions[session].task != task then Released(st, session) else st.tasks;
      Some(State(
        tasks[task := tasks[task].(roots := Added(tasks[task].roots, session))],
        st.sessions[session := Mapping(Root, task, "")]))
  }

  function UnbindSession(st: State, session: Id): Option<State> {
    if session !in st.sessions || st.sessions[session].task !in st.tasks then None
    else
      var m := st.sessions[session];
      var t := st.tasks[m.task];
      var u := if !Open(t) then t
               else if m.kind.Root? then t.(roots := Without(t.roots, session))
               else t.(subs := Without(t.subs, session));
      Some(State(st.tasks[m.task := u], st.sessions - {session}))
  }

  /** `unbind_all_sessions_unlocked`: the mappings of this task's sessions. */
  function UnbindAll(st: State, task: Id): map<Id, Mapping>
    requires task in st.tasks
  {
    map s | s in st.sessions
      && !((s in st.tasks[task].roots || s in st.tasks[task].subs) && st.sessions[s].task == task) :: st.sessions[s]
  }

  function EndTask(st: State, task: Id, status: TaskStatus, allowed: bool): Option<State>
    requires status.Closed? || status.Withdrawn?
  {
    if task !in st.tasks || !Open(st.tasks[task]) || !allowed || !Settled(st.tasks[task]) then None
    else Some(State(st.tasks[task := st.tasks[task].(status := status)], UnbindAll(st, task)))
  }

  /** Gives an open task another status that leaves it open. */
  function Restate(st: State, task: Id, status: TaskStatus): Option<State>
    requires status.Active? || status.Blocked?
  {
    if task !in st.tasks || !Open(st.tasks[task]) then None
    else Some(st.(tasks := st.tasks[task := st.tasks[task].(status := status)]))
  }

  function BlockTask(st: State, task: Id): Option<State> {
    Restate(st, task, Blocked)
  }

  /** A change of phase, which may block the task or make it active again. */
  function SetPhase(st: State, task: Id, blocked: Option<bool>): Option<State> {
    if blocked.None? then (if task in st.tasks && Open(st.tasks[task]) then Some(st) else None)
    else Restate(st, task, if blocked.value then Blocked else Active)
  }

  /** The new task stays even when its session cannot be bound. */
  function InitTask(st: State, task: Id, session: Id, allowed: bool): Option<State> {
    if task in st.tasks || !allowed then None
    else
      var st1 := st.(tasks := st.tasks[task := Task(Active, [], [], [], [])]);
      match BindSession(st1, task, session, false)
      case None => Some(st1)
      case Some(st2) => Some(st2)
  }

  // ----- packet commands that touch the index -----

  function Put(st: State, task: Id, t: Task): State {
    st.(tasks := st.tasks[task := t])
  }

  function ArmIn(st: State, task: Id, a: ArmArgs): Option<State> {
    if task !in st.tasks then None
    else
      match ArmPacket(st.tasks[task], a)
      case None => None
      case Some(t) =>
        if Find(t.packets, a.id).None? then None
        else
          var p := t.packets[Find(t.packets, a.id).value];
          if p.depth == 1 then
            if a.session in st.sessions && st.sessions[a.session].task == task && st.sessions[a.session].kind.Root? then Some(Put(st, task, t))
            else None
          else if Find(t.packets, p.parentPacket).None? then None
          else EnsureMapping(Put(st, task, t), task, t.packets[Find(t.packets, p.parentPacket).value])
  }

  function UpdateIn(st: State, task: Id, a: UpdateArgs): Option<State> {
    if task !in st.tasks then None
    else
      match UpdatePacket(st.tasks[task], a)
      case None => None
      case Some(t) =>
        if Find(t.packets, a.id).None? then None
        else
          var p := t.packets[Find(t.packets, a.id).value];
          if a.status.Dispatched? && p.depth == 1 then EnsureMapping(Put(st, task, t), task, p) else Some(Put(st, task, t))
  }

  /** Whether a mapping may be used to look up its task. */
  predicate Loadable(st: State, session: Id) {
    && session in st.sessions && st.sessions[session].task in st.tasks
    && var t := st.tasks[st.sessions[session].task];
    match st.sessions[session].kind
    case Root => session in t.roots
    case SubagentParent =>
      && session in t.subs
      && Find(t.packets, st.sessions[session].packet).Some?
      && var p := t.packets[Find(t.packets, st.sessions[session].packet).value];
      p.depth == 1 && p.agent == session
  }

  /** The hook: a dispatch it observes stands even when the agent cannot be
      mapped as a parent of its own. */
  function ObserveIn(st: State, a: StartArgs): Option<State> {
    if !Loadable(st, a.session) then None
    else
      var task := st.sessions[a.session].task;
      match ObserveStart(st.tasks[task], a)
      case None => None
      case Some((t, started)) =>
        var st1 := Put(st, task, t);
        if started.None? || started.value >= |t.packets| || t.packets[started.value].depth != 1 then Some(st1)
        else if EnsureMapping(st1, task, t.packets[started.value]).None? then Some(st1)
        else EnsureMapping(st1, task, t.packets[started.value])
  }

  // ----- coherence of each kind of change -----

  /** Packets keep their places, names and depths, and an agent once named. */
  predicate KeepsAgents(ps: seq<Packet>, qs: seq<Packet>) {
    |ps| <= |qs| && forall i | 0 <= i < |ps| ::
      qs[i].id == ps[i].id && qs[i].depth == ps[i].depth && (ps[i].agent != "" ==> qs[i].agent == ps[i].agent)
  }

  lemma MatchKept(ps: seq<Packet>, qs: seq<Packet>, id: Id, agent: Id)
    requires UniqueIds(ps) && UniqueIds(qs) && KeepsAgents(ps, qs) && agent != ""
    requires MatchCount(ps, id, agent) == 1
    ensures MatchCount(qs, id, agent) == 1
  {
    MatchCountsOne(ps, id, agent);
    MatchCountsOne(qs, id, agent);
    var i :| 0 <= i < |ps| && IsAgentPacket(ps[i], id, agent);
    assert IsAgentPacket(qs[i], id, agent);
  }

  /** Session identities are never empty. */
  predicate NamedSessions(st: State) {
    "" !in st.sessions
  }

  lemma TaskChangeKeepsIndex(st: State, task: Id, u: Task)
    requires Coherent(st) && NamedSessions(st) && task in st.tasks
    requires UniqueIds(st.tasks[task].packets) && UniqueIds(u.packets)
    requires Open(u) == Open(st.tasks[task]) && u.roots == st.tasks[task].roots && u.subs == st.tasks[task].subs
    requires KeepsAgents(st.tasks[task].packets, u.packets)
    ensures Coherent(Put(st, task, u))
  {
    hide UniqueIds, KeepsAgents, MatchCount;
    var after := Put(st, task, u);
    forall s | s in after.sessions ensures MappingOk(after, s) {
      assert MappingOk(st, s);
      if st.sessions[s].task == task && st.sessions[s].kind.SubagentParent? {
        MatchKept(st.tasks[task].packets, u.packets, st.sessions[s].packet, s);
      }
    }
    forall t | t in after.tasks ensures BacklinksOk(after, t) {
      assert BacklinksOk(st, t);
    }
  }

  lemma EnsureKeepsIndex(st: State, task: Id, i: nat)
    requires Coherent(st) && NamedSessions(st) && task in st.tasks && i < |st.tasks[task].packets|
    requires Open(st.tasks[task]) && UniqueIds(st.tasks[task].packets)
    ensures var r := EnsureMapping(st, task, st.tasks[task].packets[i]);
      r.Some? ==> Coherent(r.value) && NamedSessions(r.value)
  {
    hide UniqueIds, MatchCount;
    var t, p := st.tasks[task], st.tasks[task].packets[i];
    var r := EnsureMapping(st, task, p);
    if r.Some? {
      var after := r.value;
      MatchCountsOne(t.packets, p.id, p.agent);
      assert IsAgentPacket(p, p.id, p.agent);
      assert BacklinksOk(st, task);
      forall s | s in after.sessions ensures MappingOk(after, s) {
        assert s != p.agent ==> MappingOk(st, s);
      }
      forall u | u in after.tasks ensures BacklinksOk(after, u) {
        assert BacklinksOk(st, u);
      }
    }
  }

  lemma UnbindKeepsIndex(st: State, session: Id)
    requires Coherent(st) && NamedSessions(st) && UnbindSession(st, session).Some?
    ensures Coherent(UnbindSession(st, session).value) && NamedSessions(UnbindSession(st, session).value)
  {
    hide MatchCount, Without;
    var after := UnbindSession(st, session).value;
    var m := st.sessions[session];
    var t, u := st.tasks[m.task], after.tasks[m.task];
    assert MappingOk(st, session);
    assert u == if m.kind.Root? then t.(roots := Without(t.roots, session)) else t.(subs := Without(t.subs, session));
    UnboundBacklinks(st, session);
    hide BacklinksOk;
    forall s | s in after.sessions ensures MappingOk(after, s) {
      assert MappingOk(st, s) && s != session;
    }
  }

  lemma UnboundBacklinks(st: State, session: Id)
    requires Coherent(st) && UnbindSession(st, session).Some?
    ensures forall v | v in UnbindSession(st, session).value.tasks :: BacklinksOk(UnbindSession(st, session).value, v)
  {
    hide MatchCount, Without;
    var after := UnbindSession(st, session).value;
    assert MappingOk(st, session);
    forall v | v in after.tasks ensures BacklinksOk(after, v) {
      assert BacklinksOk(st, v);
    }
  }

  /** Binding a session that is free, or bound to this task already. */
  lemma AddRootKeepsIndex(st: State, task: Id, session: Id)
    requires Coherent(st) && NamedSessions(st) && task in st.tasks && Open(st.tasks[task]) && session != ""
    requires session in st.sessions ==> st.sessions[session].kind.Root? && st.sessions[session].task == task
    ensures var after := State(
        st.tasks[task := st.tasks[task].(roots := Added(st.tasks[task].roots, session))],
        st.sessions[session := Mapping(Root, task, "")]);
      Coherent(after) && NamedSessions(after)
  {
    hide MatchCount;
    var after := State(
      st.tasks[task := st.tasks[task].(roots := Added(st.tasks[task].roots, session))],
      st.sessions[session := Mapping(Root, task, "")]);
    assert BacklinksOk(st, task);
    forall s | s in after.sessions ensures MappingOk(after, s) {
      assert s in st.sessions ==> MappingOk(st, s);
    }
    forall u | u in after.tasks ensures BacklinksOk(after, u) {
      assert BacklinksOk(st, u);
    }
  }

  lemma BindKeepsIndex(st: State, task: Id, session: Id, force: bool)
    requires Coherent(st) && NamedSessions(st) && BindSession(st, task, session, force).Some?
    ensures Coherent(BindSession(st, task, session, force).value) && NamedSessions(BindSession(st, task, session, force).value)
  {
    hide MatchCount, Coherent, Without, Added;
    if session in st.sessions && st.sessions[session].task != task {
      MappedTask(st, session);
      UnbindKeepsIndex(st, session);
      AddRootKeepsIndex(UnbindSession(st, session).value, task, session);
      assert (st.sessions - {session})[session := Mapping(Root, task, "")] == st.sessions[session := Mapping(Root, task, "")];
    } else {
      AddRootKeepsIndex(st, task, session);
    }
  }

  lemma MappedTask(st: State, session: Id)
    requires Coherent(st) && session in st.sessions
    ensures st.sessions[session].task in st.tasks && Open(st.tasks[st.sessions[session].task])
  {
    assert MappingOk(st, session);
  }

  lemma EndKeepsIndex(st: State, task: Id, status: TaskStatus, allowed: bool)
    requires status.Closed? || status.Withdrawn?
    requires Coherent(st) && NamedSessions(st) && EndTask(st, task, status, allowed).Some?
    ensures Coherent(EndTask(st, task, status, allowed).value) && NamedSessions(EndTask(st, task, status, allowed).value)
  {
    hide MatchCount;
    var after := EndTask(st, task, status, allowed).value;
    forall s | s in after.sessions ensures MappingOk(after, s) {
      assert MappingOk(st, s);
    }
    forall u | u in after.tasks ensures BacklinksOk(after, u) {
      assert BacklinksOk(st, u);
    }
  }

  lemma InitKeepsIndex(st: State, task: Id, session: Id, allowed: bool)
    requires Coherent(st) && NamedSessions(st) && InitTask(st, task, session, allowed).Some?
    ensures Coherent(InitTask(st, task, session, allowed).value) && NamedSessions(InitTask(st, task, session, allowed).value)
  {
    hide MatchCount, BindSession;
    var st1 := st.(tasks := st.tasks[task := Task(Active, [], [], [], [])]);
    forall s | s in st1.sessions ensures MappingOk(st1, s) {
      assert MappingOk(st, s);
    }
    forall u | u in st1.tasks ensures BacklinksOk(st1, u) {
      assert u != task ==> BacklinksOk(st, u);
    }
    if BindSession(st1, task, session, false).Some? {
      BindKeepsIndex(st1, task, session, false);
    }
  }
}
