/** The ledger commands as they run: dictionaries updated in place under the
    state lock, loops over packets and attempts, and the doctor's full scan. */
module LedgerCommands {
  import opened Wrappers
  import opened TaskLedger
  import opened TaskInvariants
  import opened SessionLedger
  import opened LedgerRuns

  // ----- loops over packets and attempts -----

  lemma FindIsUnique(ps: seq<Packet>, id: Id)
    ensures Find(ps, id).Some? ==> forall j | 0 <= j < |ps| && ps[j].id == id :: j == Find(ps, id).value
    ensures forall i | 0 <= i < |ps| && ps[i].id == id && (forall j | 0 <= j < |ps| && ps[j].id == id :: j == i) ::
              Find(ps, id) == Some(i)
  {
    var first := FirstPacket(ps, id);
    if first.Some? {
      var later := ps[first.value + 1..];
      assert forall k | 0 <= k < |later| :: later[k] == ps[first.value + 1 + k];
      assert forall j | first.value < j < |ps| :: ps[j] == later[j - first.value - 1];
      FirstIsFirst(ps, id);
      if Find(ps, id).None? {
        var k := FirstPacket(later, id).value;
        assert ps[first.value + 1 + k].id == id;
      }
    }
  }

  lemma {:induction false} FirstIsFirst(ps: seq<Packet>, id: Id)
    ensures FirstPacket(ps, id).Some? ==> forall j | 0 <= j < FirstPacket(ps, id).value :: ps[j].id != id
  {
    if ps != [] && ps[0].id != id {
      FirstIsFirst(ps[1..], id);
      assert forall j | 0 <= j < |ps[1..]| :: ps[1..][j] == ps[j + 1];
      if FirstPacket(ps[1..], id).Some? {
        forall j | 1 <= j < FirstPacket(ps, id).value ensures ps[j].id != id {
          assert ps[1..][j - 1] == ps[j];
        }
      }
    }
  }

  method PacketById(ps: seq<Packet>, id: Id) returns (r: Option<nat>)
    ensures r == Find(ps, id)
  {
    var matches: seq<nat> := [];
    for i := 0 to |ps|
      invariant forall k | 0 <= k < |matches| :: matches[k] < i && ps[matches[k]].id == id
      invariant forall k, m | 0 <= k < m < |matches| :: matches[k] < matches[m]
      invariant forall j | 0 <= j < i && ps[j].id == id :: j in matches
    {
      if ps[i].id == id {
        matches := matches + [i];
      }
    }
    FindIsUnique(ps, id);
    if |matches| != 1 {
      if |matches| > 1 {
        assert ps[matches[0]].id == id && ps[matches[1]].id == id && matches[0] < matches[1];
      }
      return None;
    }
    return Some(matches[0]);
  }

  method ActiveDispatchAttempts(attempts: seq<Attempt>) returns (matches: seq<Attempt>)
    ensures matches == LiveArms(attempts)
  {
    matches := [];
    assert attempts[0..] == attempts;
    for i := 0 to |attempts|
      invariant matches + LiveArms(attempts[i..]) == LiveArms(attempts)
    {
      assert attempts[i..][1..] == attempts[i + 1..];
      if attempts[i].status.Live? {
        assert matches + ([attempts[i]] + LiveArms(attempts[i + 1..])) == (matches + [attempts[i]]) + LiveArms(attempts[i + 1..]);
        matches := matches + [attempts[i]];
      } else {
        assert [] + LiveArms(attempts[i + 1..]) == LiveArms(attempts[i + 1..]);
      }
    }
    assert attempts[|attempts|..] == [];
  }

  /** Closes the arm of a packet in place. */
  method CloseArm(attempts: seq<Attempt>, status: AttemptStatus) returns (r: seq<Attempt>)
    requires !status.Live?
    ensures r == CloseLive(attempts, status)
  {
    r := attempts;
    for i := 0 to |attempts|
      invariant |r| == |attempts|
      invariant forall k | 0 <= k < i :: r[k] == if attempts[k].status.Live? then attempts[k].(status := status) else attempts[k]
      invariant forall k | i <= k < |r| :: r[k] == attempts[k]
    {
      if r[i].status.Live? {
        r := r[i := r[i].(status := status)];
      }
    }
  }

  /** Expires stale arms; None when an armed packet has not exactly one arm. */
  method ExpireDispatchArms(packets: seq<Packet>, now: int) returns (r: Option<seq<Packet>>)
    ensures r == Expire(packets, now)
  {
    hide LiveArms, CloseLive;
    var ps := packets;
    for i := 0 to |packets|
      invariant |ps| == |packets|
      invariant forall k | 0 <= k < i && packets[k].status.Armed? :: OneLive(packets[k].attempts)
      invariant forall k | 0 <= k < i :: ps[k] == ExpirePacket(packets[k], now)
      invariant forall k | i <= k < |ps| :: ps[k] == packets[k]
    {
      if !ps[i].status.Armed? {
        continue;
      }
      var matches := ActiveDispatchAttempts(ps[i].attempts);
      if |matches| != 1 {
        assert !OneLive(packets[i].attempts);
        return None;
      }
      if matches[0].expiresAt > now {
        continue;
      }
      var closed := CloseArm(ps[i].attempts, Expired);
      ps := ps[i := ps[i].(status := Ready, attempts := closed)];
    }
    assert ArmsReadable(packets);
    assert ps == Expire(packets, now).value;
    return Some(ps);
  }

  /** The armed packets whose slot the new arm would share. */
  method Collisions(ps: seq<Packet>, arm: Attempt) returns (found: seq<Id>)
    requires ArmsReadable(ps)
    ensures found != [] <==> exists k | 0 <= k < |ps| :: Collides(ps[k], arm)
  {
    hide LiveArms;
    found := [];
    for i := 0 to |ps|
      invariant found != [] <==> exists k | 0 <= k < i :: Collides(ps[k], arm)
    {
      if !ps[i].status.Armed? {
        continue;
      }
      var matches := ActiveDispatchAttempts(ps[i].attempts);
      var other := matches[0];
      if other.parent != arm.parent {
        continue;
      }
      if arm.expected.Wildcard? || other.expected.Wildcard? || other.expected == arm.expected {
        found := found + [ps[i].id];
      }
    }
  }

  lemma ExpiredAreReadable(ps: seq<Packet>, now: int)
    requires Expire(ps, now).Some?
    ensures ArmsReadable(Expire(ps, now).value)
  {
  }

  // ----- the doctor's scan -----

  datatype Finding =
    | MissingTask(session: Id) | ClosedTask(session: Id) | NoBacklink(session: Id) | WrongBacklink(session: Id)
    | NoParentPacket(session: Id) | RootWithoutMapping(task: Id, session: Id) | SubWithoutMapping(task: Id, session: Id)

  class Ledger {
    var tasks: map<Id, Task>
    var sessions: map<Id, Mapping>

    constructor ()
      ensures Stored() == EMPTY
    {
      tasks, sessions := map[], map[];
    }

    function Stored(): State
      reads this
    {
      State(tasks, sessions)
    }

    // ----- sessions -----

    method BindSession(task: Id, session: Id, force: bool) returns (done: bool)
      modifies this
      ensures Stored() == Step(old(Stored()), Bind(task, session, force))
      ensures done == Result(old(Stored()), Bind(task, session, force)).Some?
    {
      hide Without, Added;
      if session == "" || task !in tasks || !Open(tasks[task]) {
        return false;
      }
      if session in sessions {
        var current := sessions[session];
        if current.kind.SubagentParent? {
          return false;
        }
        if current.task != task && !force {
          return false;
        }
        if current.task != task && current.task in tasks {
          var former := tasks[current.task];
          if Open(former) {
            tasks := tasks[current.task := former.(roots := Without(former.roots, session))];
          }
        }
      }
      sessions := sessions[session := Mapping(Root, task, "")];
      tasks := tasks[task := tasks[task].(roots := Added(tasks[task].roots, session))];
      return true;
    }

    method UnbindSession(session: Id) returns (done: bool)
      modifies this
      ensures Stored() == Step(old(Stored()), Unbind(session))
      ensures done == Result(old(Stored()), Unbind(session)).Some?
    {
      hide Without;
      if session !in sessions || sessions[session].task !in tasks {
        return false;
      }
      var m := sessions[session];
      sessions := sessions - {session};
      var t := tasks[m.task];
      ghost var before := tasks;
      if Open(t) {
        if m.kind.SubagentParent? {
          t := t.(subs := Without(t.subs, session));
        } else {
          t := t.(roots := Without(t.roots, session));
        }
      }
      tasks := tasks[m.task := t];
      return true;
    }

    method EnsureSubagentParentMapping(task: Id, p: Packet) returns (done: bool)
      requires task in tasks
      modifies this
      ensures done == EnsureMapping(old(Stored()), task, p).Some?
      ensures Stored() == if done then EnsureMapping(old(Stored()), task, p).value else old(Stored())
    {
      if p.depth != 1 || p.agent == "" {
        return false;
      }
      var expected := Mapping(SubagentParent, task, p.id);
      if p.agent in sessions {
        if sessions[p.agent] != expected {
          return false;
        }
        assert sessions[p.agent := expected] == sessions;
      } else {
        sessions := sessions[p.agent := expected];
      }
      if p.agent !in tasks[task].subs {
        tasks := tasks[task := tasks[task].(subs := tasks[task].subs + [p.agent])];
      } else {
        assert tasks[task := tasks[task].(subs := tasks[task].subs)] == tasks;
      }
      return true;
    }

    method UnbindAllSessions(task: Id)
      requires task in tasks
      modifies `sessions
      ensures sessions == UnbindAll(old(Stored()), task)
    {
      var listed := tasks[task].roots + tasks[task].subs;
      ghost var before := sessions;
      for i := 0 to |listed|
        invariant forall s | s in sessions :: s in before && sessions[s] == before[s]
        invariant forall s | s in before :: s in sessions <==> !(s in listed[..i] && before[s].task == task)
      {
        assert listed[..i + 1] == listed[..i] + [listed[i]];
        if listed[i] in sessions && sessions[listed[i]].task == task {
          sessions := sessions - {listed[i]};
        }
      }
      assert listed[..|listed|] == listed;
    }

    method EndTask(task: Id, status: TaskStatus, allowed: bool) returns (done: bool)
      requires status.Closed? || status.Withdrawn?
      modifies this
      ensures Stored() == Step(old(Stored()), if status.Closed? then Close(task, allowed) else Cancel(task, allowed))
      ensures done == Result(old(Stored()), if status.Closed? then Close(task, allowed) else Cancel(task, allowed)).Some?
    {
      hide UnbindAll;
      if task !in tasks || !Open(tasks[task]) || !allowed || !Settled(tasks[task]) {
        return false;
      }
      ghost var before := Stored();
      tasks := tasks[task := tasks[task].(status := status)];
      ghost var listed := Stored();
      UnbindAllSessions(task);
      UnbindIgnoresStatus(before, listed, task);
      return true;
    }

    lemma UnbindIgnoresStatus(a: State, b: State, task: Id)
      requires task in a.tasks && task in b.tasks && a.sessions == b.sessions
      requires a.tasks[task].roots == b.tasks[task].roots && a.tasks[task].subs == b.tasks[task].subs
      ensures UnbindAll(a, task) == UnbindAll(b, task)
    {
    }

    method InitTask(task: Id, session: Id, allowed: bool) returns (done: bool)
      modifies this
      ensures Stored() == Step(old(Stored()), Init(task, session, allowed))
      ensures done == Result(old(Stored()), Init(task, session, allowed)).Some?
    {
      if task in tasks || !allowed {
        return false;
      }
      tasks := tasks[task := Task(Active, [], [], [], [])];
      var bound := BindSession(task, session, false);
      return true;
    }

    method BlockTask(task: Id) returns (done: bool)
      modifies this
      ensures Stored() == Step(old(Stored()), Block(task))
      ensures done == Result(old(Stored()), Block(task)).Some?
    {
      if task !in tasks || !Open(tasks[task]) {
        return false;
      }
      tasks := tasks[task := tasks[task].(status := Blocked)];
      return true;
    }

    method SetPhase(task: Id, blocked: Option<bool>) returns (done: bool)
      modifies this
      ensures Stored() == Step(old(Stored()), Phase(task, blocked))
      ensures done == Result(old(Stored()), Phase(task, blocked)).Some?
    {
      if task !in tasks || !Open(tasks[task]) {
        return false;
      }
      if blocked.Some? {
        tasks := tasks[task := tasks[task].(status := if blocked.value then Blocked else Active)];
      }
      return true;
    }

    // ----- packets -----

    method CreatePacket(task: Id, id: Id, depth: int, parentPacket: Id, allowed: bool) returns (done: bool)
      modifies this
      ensures Stored() == Step(old(Stored()), Create(task, id, depth, parentPacket, allowed))
      ensures done == Result(old(Stored()), Create(task, id, depth, parentPacket, allowed)).Some?
    {
      hide Find;
      if task !in tasks || !Open(tasks[task]) || !allowed {
        return false;
      }
      var t := tasks[task];
      if depth == 1 {
        if parentPacket != "" {
          return false;
        }
      } else {
        var parent := PacketById(t.packets, parentPacket);
        if depth != 2 || parent.None? {
          return false;
        }
        if !t.packets[parent.value].status.Dispatched? || t.packets[parent.value].depth != 1 {
          return false;
        }
      }
      if exists i | 0 <= i < |t.packets| :: t.packets[i].id == id {
        return false;
      }
      var packet := Packet(id, depth, parentPacket, 5, Ready, "", []);
      tasks := tasks[task := t.(packets := t.packets + [packet])];
      return true;
    }

    method PacketArm(task: Id, a: ArmArgs) returns (done: bool)
      modifies this
      ensures Stored() == Step(old(Stored()), ArmSlot(task, a))
      ensures done == Result(old(Stored()), ArmSlot(task, a)).Some?
    {
      hide Expire, Find, EnsureMapping, TopologyOk, LiveArms, Collides, Overlap;
      if a.expiresAt <= a.now || task !in tasks || !Open(tasks[task]) || !a.allowed {
        return false;
      }
      var t := tasks[task];
      var expired := ExpireDispatchArms(t.packets, a.now);
      if expired.None? {
        return false;
      }
      var ps := expired.value;
      var found := PacketById(ps, a.id);
      if found.None? {
        return false;
      }
      var p := ps[found.value];
      if !p.status.Ready? {
        return false;
      }
      var parent: Option<nat> := None;
      if p.depth == 1 {
        if a.session !in t.roots || a.session !in sessions || sessions[a.session].task != task || !sessions[a.session].kind.Root? {
          ArmedPacketKeepsDepth(t, a, found.value);
          return false;
        }
      } else {
        parent := PacketById(ps, p.parentPacket);
        if parent.None? || ps[parent.value].agent != a.session {
          return false;
        }
      }
      var arm := Attempt(Live, a.session, a.expected, a.expiresAt);
      ExpiredAreReadable(t.packets, a.now);
      var collisions := Collisions(ps, arm);
      if collisions != [] || !TopologyOk(ps, found.value) {
        return false;
      }
      var armed := ps[found.value := p.(status := Armed, schema := 5, attempts := p.attempts + [arm])];
      ArmedPacketKeepsDepth(t, a, found.value);
      if p.depth != 1 {
        ghost var whole := t.(packets := armed);
        ParentUntouched(ps, found.value, armed, parent.value);
        if !MayEnsure(task, ps[parent.value]) {
          EnsureIgnoresPackets(Stored(), Put(Stored(), task, whole), task, ps[parent.value]);
          return false;
        }
        ghost var before := Stored();
        tasks := tasks[task := t.(packets := armed)];
        EnsureIgnoresPackets(before, Stored(), task, ps[parent.value]);
        done := EnsureSubagentParentMapping(task, ps[parent.value]);
        return;
      }
      tasks := tasks[task := t.(packets := armed)];
      return true;
    }

    predicate MayEnsure(task: Id, p: Packet)
      requires task in tasks
      reads this
    {
      EnsureMapping(Stored(), task, p).Some?
    }

    lemma EnsureIgnoresPackets(a: State, b: State, task: Id, p: Packet)
      requires task in a.tasks && task in b.tasks && a.sessions == b.sessions
      ensures EnsureMapping(a, task, p).Some? <==> EnsureMapping(b, task, p).Some?
    {
    }

    /** Arming leaves packets in place, so the parent is found where it was. */
    lemma ParentUntouched(ps: seq<Packet>, f: nat, armed: seq<Packet>, j: nat)
      requires f < |ps| && Find(ps, ps[f].parentPacket) == Some(j) && ps[f].status.Ready?
      requires |armed| == |ps| && Replaces(ps[f], armed[f]) && armed[f].agent == ps[f].agent
      requires armed == ps[f := armed[f]] && TopologyOk(ps, f) && ps[f].depth != 1
      ensures Find(armed, armed[f].parentPacket) == Some(j) && armed[j] == ps[j]
    {
      FindSame(ps, armed, ps[f].parentPacket);
    }

    lemma ArmedPacketKeepsDepth(t: Task, a: ArmArgs, f: nat)
      requires Expire(t.packets, a.now).Some? && Find(Expire(t.packets, a.now).value, a.id) == Some(f)
      ensures ArmPacket(t, a).Some? ==>
        var u := ArmPacket(t, a).value;
        && Find(u.packets, a.id) == Some(f) && f < |u.packets|
        && Replaces(Expire(t.packets, a.now).value[f], u.packets[f])
    {
      hide Expire, TopologyOk, Collides, MayArm, Find;
      if ArmPacket(t, a).Some? {
        FindSame(Expire(t.packets, a.now).value, ArmPacket(t, a).value.packets, a.id);
      }
    }

    method PacketDisarm(task: Id, id: Id, allowed: bool) returns (done: bool)
      modifies this
      ensures Stored() == Step(old(Stored()), Disarm(task, id, allowed))
      ensures done == Result(old(Stored()), Disarm(task, id, allowed)).Some?
    {
      hide Find, LiveArms, CloseLive;
      if task !in tasks || !Open(tasks[task]) || !allowed {
        return false;
      }
      var ps := tasks[task].packets;
      var found := PacketById(ps, id);
      if found.None? || !ps[found.value].status.Armed? {
        return false;
      }
      var p := ps[found.value];
      var matches := ActiveDispatchAttempts(p.attempts);
      if |matches| != 1 {
        return false;
      }
      var closed := CloseArm(p.attempts, Disarmed);
      ps := ps[found.value := p.(status := Ready, attempts := closed)];
      tasks := tasks[task := tasks[task].(packets := ps)];
      return true;
    }

    /** The packet of an update, checked and rewritten. */
    method RewritePacket(t: Task, a: UpdateArgs) returns (r: Option<Task>)
      ensures r == UpdatePacket(t, a)
    {
      hide Find, LiveArms, CloseLive, MayDispatch, HasActiveWork;
      if !Open(t) || !a.allowed {
        return None;
      }
      var found := PacketById(t.packets, a.id);
      if found.None? {
        return None;
      }
      var p := t.packets[found.value];
      if a.status.Dispatched? && !MayDispatch(t, found.value, a.now) {
        return None;
      }
      if !PacketMoves(p.status, a.status) {
        return None;
      }
      if p.agent != "" && a.agent != "" && p.agent != a.agent {
        return None;
      }
      var agent := if p.agent != "" then p.agent else a.agent;
      if (a.status.Dispatched? || p.status.Dispatched?) && agent == "" {
        return None;
      }
      if !a.status.Dispatched? && p.depth == 1 && HasActiveWork(t, a.id) {
        return None;
      }
      var attempts := p.attempts;
      if p.status.Armed? {
        var matches := ActiveDispatchAttempts(p.attempts);
        if |matches| != 1 {
          return None;
        }
        attempts := CloseArm(p.attempts, Disarmed);
      }
      var q := p.(status := a.status, attempts := attempts);
      if a.status.Dispatched? && !p.status.Dispatched? {
        q := q.(schema := 5);
      }
      if a.agent != "" {
        q := q.(agent := agent);
      }
      return Some(t.(packets := t.packets[found.value := q]));
    }

    method PacketUpdate(task: Id, a: UpdateArgs) returns (done: bool)
      modifies this
      ensures Stored() == Step(old(Stored()), Update(task, a))
      ensures done == Result(old(Stored()), Update(task, a)).Some?
    {
      hide Find, EnsureMapping, UpdatePacket;
      if task !in tasks {
        return false;
      }
      var rewritten := RewritePacket(tasks[task], a);
      if rewritten.None? {
        return false;
      }
      var t := rewritten.value;
      var found := PacketById(t.packets, a.id);
      if found.None? {
        return false;
      }
      var p := t.packets[found.value];
      ghost var before := Stored();
      if a.status.Dispatched? && p.depth == 1 {
        EnsureIgnoresPackets(before, Put(before, task, t), task, p);
        if !MayEnsure(task, p) {
          return false;
        }
        tasks := tasks[task := t];
        done := EnsureSubagentParentMapping(task, p);
        return;
      }
      tasks := tasks[task := t];
      return true;
    }

    /** The packets armed for one parent session and agent type. */
    method MatchingArmedPackets(ps: seq<Packet>, session: Id, agentType: string) returns (found: seq<nat>)
      requires ArmsReadable(ps)
      ensures forall k | 0 <= k < |found| :: found[k] < |ps| && Candidate(ps[found[k]], session, agentType)
      ensures forall k, m | 0 <= k < m < |found| :: found[k] < found[m]
      ensures forall i | 0 <= i < |ps| && Candidate(ps[i], session, agentType) :: i in found
    {
      hide LiveArms;
      found := [];
      for i := 0 to |ps|
        invariant forall k | 0 <= k < |found| :: found[k] < i && Candidate(ps[found[k]], session, agentType)
        invariant forall k, m | 0 <= k < m < |found| :: found[k] < found[m]
        invariant forall j | 0 <= j < i && Candidate(ps[j], session, agentType) :: j in found
      {
        if !ps[i].status.Armed? {
          continue;
        }
        var matches := ActiveDispatchAttempts(ps[i].attempts);
        if matches[0].parent == session && Matches(matches[0].expected, agentType) {
          found := found + [i];
        }
      }
    }

    lemma MatchesDecideCandidate(ps: seq<Packet>, session: Id, agentType: string, found: seq<nat>)
      requires forall k | 0 <= k < |found| :: found[k] < |ps| && Candidate(ps[found[k]], session, agentType)
      requires forall k, m | 0 <= k < m < |found| :: found[k] < found[m]
      requires forall i | 0 <= i < |ps| && Candidate(ps[i], session, agentType) :: i in found
      ensures OnlyCandidate(ps, session, agentType) == if |found| == 1 then Some(found[0]) else None
    {
      hide Candidate;
      if |found| >= 2 {
        var a, b := found[0], found[1];
        assert Candidate(ps[a], session, agentType) && Candidate(ps[b], session, agentType) && a < b;
      }
    }

    method ObserveSubagentStart(a: StartArgs) returns (dispatched: Option<nat>)
      modifies this
      ensures Stored() == Step(old(Stored()), Observe(a))
      ensures dispatched == if !Loadable(old(Stored()), a.session) then None
                            else match ObserveStart(old(tasks)[old(sessions)[a.session].task], a)
                                 case None => None
                                 case Some(outcome) => outcome.1
    {
      hide Expire, Find, LiveArms, CloseLive, EnsureMapping, TopologyOk, OnlyCandidate, Candidate;
      if !Loadable(Stored(), a.session) {
        return None;
      }
      var task := sessions[a.session].task;
      var t := tasks[task];
      var expired := ExpireDispatchArms(t.packets, a.now);
      if expired.None? {
        return None;
      }
      var ps := expired.value;
      ExpiredAreReadable(t.packets, a.now);
      var candidates := MatchingArmedPackets(ps, a.session, a.agentType);
      MatchesDecideCandidate(ps, a.session, a.agentType, candidates);
      if |candidates| != 1 || !Consumable(ps, candidates[0], a) {
        tasks := tasks[task := t.(packets := ps)];
        return None;
      }
      var i := candidates[0];
      var closed := CloseArm(ps[i].attempts, Consumed);
      ps := ps[i := ps[i].(status := Dispatched, agent := a.agent, attempts := closed)];
      tasks := tasks[task := t.(packets := ps)];
      if ps[i].depth == 1 {
        var mapped := EnsureSubagentParentMapping(task, ps[i]);
      }
      return Some(i);
    }

    // ----- jobs -----

    method JobStart(task: Id, run: Id, owner: Id, allowed: bool) returns (done: bool)
      modifies this
      ensures Stored() == Step(old(Stored()), QueueJob(task, run, owner, allowed))
      ensures done == Result(old(Stored()), QueueJob(task, run, owner, allowed)).Some?
    {
      hide OwnerOk, FindJob;
      if task !in tasks || !Open(tasks[task]) || !allowed {
        return false;
      }
      var t := tasks[task];
      if !OwnerOk(t, owner) || FindJob(t.jobs, run).Some? {
        return false;
      }
      tasks := tasks[task := t.(jobs := t.jobs + [Job(run, owner, Queued, 0)])];
      return true;
    }

    method JobUpdate(task: Id, run: Id, status: JobStatus, allowed: bool) returns (done: bool)
      modifies this
      ensures Stored() == Step(old(Stored()), MoveJob(task, run, status, allowed))
      ensures done == Result(old(Stored()), MoveJob(task, run, status, allowed)).Some?
    {
      hide OwnerOk, FindJob;
      if task !in tasks || !Open(tasks[task]) || !allowed {
        return false;
      }
      var t := tasks[task];
      var found := FindJob(t.jobs, run);
      if found.None? || !JobMoves(t.jobs[found.value].status, status) {
        return false;
      }
      var j := t.jobs[found.value];
      if status.Running? {
        if !OwnerOk(t, j.owner) {
          return false;
        }
        j := j.(launches := j.launches + 1);
      }
      if status.Pass? && j.launches == 0 {
        return false;
      }
      j := j.(status := status);
      tasks := tasks[task := t.(jobs := t.jobs[found.value := j])];
      return true;
    }

    // ----- the doctor -----

    /** What is wrong with one mapping. */
    method MappingFindings(session: Id) returns (found: seq<Finding>)
      requires session in sessions
      ensures found == [] <==> MappingOk(Stored(), session)
    {
      hide MatchCount;
      found := [];
      var m := sessions[session];
      if m.task !in tasks {
        return [MissingTask(session)];
      }
      var t := tasks[m.task];
      if !Open(t) {
        found := found + [ClosedTask(session)];
      }
      match m.kind
      case Root =>
        if session !in t.roots {
          found := found + [NoBacklink(session)];
        }
        if session in t.subs {
          found := found + [WrongBacklink(session)];
        }
      case SubagentParent =>
        if session !in t.subs {
          found := found + [NoBacklink(session)];
        }
        if session in t.roots {
          found := found + [WrongBacklink(session)];
        }
        if MatchCount(t.packets, m.packet, session) != 1 {
          found := found + [NoParentPacket(session)];
        }
    }

    /** What is wrong with the backlinks of one task. */
    method BacklinkFindings(task: Id) returns (found: seq<Finding>)
      requires task in tasks
      ensures found == [] <==> BacklinksOk(Stored(), task)
    {
      found := [];
      var t := tasks[task];
      if !Open(t) {
        return;
      }
      for i := 0 to |t.roots|
        invariant found == [] <==> forall k | 0 <= k < i ::
          t.roots[k] in sessions && sessions[t.roots[k]].task == task && sessions[t.roots[k]].kind.Root?
      {
        var s := t.roots[i];
        if s !in sessions || sessions[s].task != task || !sessions[s].kind.Root? {
          found := found + [RootWithoutMapping(task, s)];
        }
      }
      ghost var rootsFine := found == [];
      for i := 0 to |t.subs|
        invariant found == [] <==> rootsFine && forall k | 0 <= k < i ::
          t.subs[k] in sessions && sessions[t.subs[k]].task == task && sessions[t.subs[k]].kind.SubagentParent?
      {
        var s := t.subs[i];
        if s !in sessions || sessions[s].task != task || !sessions[s].kind.SubagentParent? {
          found := found + [SubWithoutMapping(task, s)];
        }
      }
    }

    /** The doctor's scan of every mapping and every task, in any order. */
    method Doctor(mappingOrder: seq<Id>, taskOrder: seq<Id>) returns (found: seq<Finding>)
      requires (forall s :: s in mappingOrder <==> s in sessions) && forall t :: t in taskOrder <==> t in tasks
      ensures found == [] <==> Coherent(Stored())
    {
      hide MappingOk, BacklinksOk;
      found := [];
      for i := 0 to |mappingOrder|
        invariant found == [] <==> forall k | 0 <= k < i :: mappingOrder[k] in sessions && MappingOk(Stored(), mappingOrder[k])
      {
        var more := MappingFindings(mappingOrder[i]);
        found := found + more;
      }
      ghost var mappingsFine := found == [];
      for i := 0 to |taskOrder|
        invariant found == [] <==> mappingsFine && forall k | 0 <= k < i :: taskOrder[k] in tasks && BacklinksOk(Stored(), taskOrder[k])
      {
        var more := BacklinkFindings(taskOrder[i]);
        found := found + more;
      }
      assert mappingsFine <==> forall s | s in sessions :: MappingOk(Stored(), s);
      assert (forall k | 0 <= k < |taskOrder| :: taskOrder[k] in tasks && BacklinksOk(Stored(), taskOrder[k]))
             <==> forall t | t in tasks :: BacklinksOk(Stored(), t);
    }
  }
}
