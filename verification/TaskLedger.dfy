/** One task of the ledger: its work packets, their dispatch attempts, and its
    external jobs, with the commands as functions of the stored lists. A command
    that is refused yields None and writes nothing. */
module TaskLedger {
  import opened Wrappers

  type Id = string

  // ----- entities -----

  datatype AttemptStatus = Live | Disarmed | Expired | Consumed

  /** The transport type an arm waits for; the wildcard waits for any. */
  datatype AgentType = Wildcard | Exact(name: string)

  datatype Attempt = Attempt(status: AttemptStatus, parent: Id, expected: AgentType, expiresAt: int)

  datatype PacketStatus = Ready | Armed | Dispatched | Done | Failed | Cancelled

  /** `agent` is empty until a dispatch names one. */
  datatype Packet = Packet(
    id: Id, depth: int, parentPacket: Id, schema: int,
    status: PacketStatus, agent: Id, attempts: seq<Attempt>)

  datatype JobStatus = Queued | Running | Unknown | Pass | Fail | Stopped

  /** `launches` counts the entries of the launch-authority log. */
  datatype Job = Job(run: Id, owner: Id, status: JobStatus, launches: nat)

  datatype TaskStatus = Active | Blocked | Closed | Withdrawn

  /** `roots` and `subs` are the backlinks of root and sub-agent sessions. */
  datatype Task = Task(status: TaskStatus, roots: seq<Id>, subs: seq<Id>, packets: seq<Packet>, jobs: seq<Job>)

  predicate Open(t: Task) {
    t.status.Active? || t.status.Blocked?
  }

  predicate Executing(p: Packet) {
    p.status.Armed? || p.status.Dispatched?
  }

  predicate Terminal(p: Packet) {
    p.status.Done? || p.status.Failed? || p.status.Cancelled?
  }

  predicate ActiveJob(j: Job) {
    j.status.Queued? || j.status.Running? || j.status.Unknown?
  }

  // ----- attempts -----

  /** The live arms of a packet, in order. */
  function LiveArms(attempts: seq<Attempt>): seq<Attempt> {
    if attempts == [] then []
    else (if attempts[0].status.Live? then [attempts[0]] else []) + LiveArms(attempts[1..])
  }

  predicate OneLive(attempts: seq<Attempt>) {
    |LiveArms(attempts)| == 1
  }

  /** The arm of a packet that has exactly one. */
  function Arm(p: Packet): Attempt
    requires OneLive(p.attempts)
  {
    LiveArms(p.attempts)[0]
  }

  function CloseLive(attempts: seq<Attempt>, status: AttemptStatus): (r: seq<Attempt>)
    ensures |r| == |attempts|
  {
    seq(|attempts|, i requires 0 <= i < |attempts| =>
      if attempts[i].status.Live? then attempts[i].(status := status) else attempts[i])
  }

  lemma {:induction false} ClosedHasNone(attempts: seq<Attempt>, status: AttemptStatus)
    requires !status.Live?
    ensures LiveArms(CloseLive(attempts, status)) == []
  {
    if attempts != [] {
      ClosedHasNone(attempts[1..], status);
      assert CloseLive(attempts, status)[1..] == CloseLive(attempts[1..], status);
    }
  }

  lemma {:induction false} AppendedArm(attempts: seq<Attempt>, a: Attempt)
    requires LiveArms(attempts) == [] && a.status.Live?
    ensures LiveArms(attempts + [a]) == [a]
  {
    if attempts != [] {
      AppendedArm(attempts[1..], a);
      assert (attempts + [a])[1..] == attempts[1..] + [a];
    } else {
      assert (attempts + [a])[1..] == [];
    }
  }

  predicate Matches(expected: AgentType, name: string) {
    expected == Exact(name) || expected.Wildcard?
  }

  /** Two arms of one parent overlap when some agent type would match both. */
  predicate Overlap(a: Attempt, b: Attempt) {
    a.parent == b.parent && (a.expected.Wildcard? || b.expected.Wildcard? || a.expected == b.expected)
  }

  lemma OverlapMeaning(a: Attempt, b: Attempt)
    ensures Overlap(a, b) <==> a.parent == b.parent && exists name :: Matches(a.expected, name) && Matches(b.expected, name)
  {
    if Overlap(a, b) {
      var name := if a.expected.Exact? then a.expected.name else if b.expected.Exact? then b.expected.name else "";
      assert Matches(a.expected, name) && Matches(b.expected, name);
    }
  }

  // ----- finding packets and jobs -----

  function FirstPacket(ps: seq<Packet>, id: Id): (r: Option<nat>)
    ensures r.Some? ==> r.value < |ps| && ps[r.value].id == id
    ensures r.None? ==> forall i | 0 <= i < |ps| :: ps[i].id != id
  {
    if ps == [] then None
    else if ps[0].id == id then Some(0)
    else
      match FirstPacket(ps[1..], id)
      case None => None
      case Some(i) => Some(i + 1)
  }

  /** `_packet_by_id`: the packet of that name, when there is exactly one. */
  function Find(ps: seq<Packet>, id: Id): (r: Option<nat>)
    ensures r.Some? ==> r.value < |ps| && ps[r.value].id == id
  {
    match FirstPacket(ps, id)
    case None => None
    case Some(i) => if FirstPacket(ps[i + 1..], id).Some? then None else Some(i)
  }

  predicate UniqueIds(ps: seq<Packet>) {
    forall i, j | 0 <= i < j < |ps| :: ps[i].id != ps[j].id
  }

  lemma FindAt(ps: seq<Packet>, i: nat)
    requires UniqueIds(ps) && i < |ps|
    ensures Find(ps, ps[i].id) == Some(i)
  {
    var first := FirstPacket(ps, ps[i].id);
    assert first == Some(i);
    var later := ps[i + 1..];
    forall k | 0 <= k < |later| ensures later[k].id != ps[i].id {
      assert later[k] == ps[i + 1 + k];
    }
  }

  function FindJob(js: seq<Job>, run: Id): (r: Option<nat>)
    ensures r.Some? ==> r.value < |js| && js[r.value].run == run
    ensures r.None? ==> forall i | 0 <= i < |js| :: js[i].run != run
  {
    if js == [] then None
    else if js[0].run == run then Some(0)
    else
      match FindJob(js[1..], run)
      case None => None
      case Some(i) => Some(i + 1)
  }

  predicate UniqueRuns(js: seq<Job>) {
    forall i, j | 0 <= i < j < |js| :: js[i].run != js[j].run
  }

  // ----- packet commands -----

  predicate ArmsReadable(ps: seq<Packet>) {
    forall i | 0 <= i < |ps| && ps[i].status.Armed? :: OneLive(ps[i].attempts)
  }

  function ExpirePacket(p: Packet, now: int): Packet {
    if p.status.Armed? && OneLive(p.attempts) && Arm(p).expiresAt <= now then
      p.(status := Ready, attempts := CloseLive(p.attempts, Expired))
    else p
  }

  function Expire(ps: seq<Packet>, now: int): Option<seq<Packet>> {
    if ArmsReadable(ps) then Some(seq(|ps|, i requires 0 <= i < |ps| => ExpirePacket(ps[i], now))) else None
  }

  function CreatePacket(t: Task, id: Id, depth: int, parentPacket: Id, allowed: bool): Option<Task> {
    var parent := Find(t.packets, parentPacket);
    if !Open(t) || !allowed || (exists i | 0 <= i < |t.packets| :: t.packets[i].id == id) then None
    else if depth == 1 then
      if parentPacket != "" then None
      else Some(t.(packets := t.packets + [Packet(id, 1, "", 5, Ready, "", [])]))
    else if depth != 2 || parent.None? then None
    else if !t.packets[parent.value].status.Dispatched? || t.packets[parent.value].depth != 1 then None
    else Some(t.(packets := t.packets + [Packet(id, 2, parentPacket, 5, Ready, "", [])]))
  }

  /** Activation: a nested packet needs its dispatched parent and no sibling at
      work. What a top-level packet needs is part of `allowed`. */
  predicate TopologyOk(ps: seq<Packet>, i: nat)
    requires i < |ps|
  {
    if ps[i].depth == 1 then true
    else
      && ps[i].depth == 2
      && Find(ps, ps[i].parentPacket).Some?
      && ps[Find(ps, ps[i].parentPacket).value].status.Dispatched?
      && ps[Find(ps, ps[i].parentPacket).value].depth == 1
      && forall k | 0 <= k < |ps| && k != i && Executing(ps[k]) && ps[k].depth == 2 ::
           ps[k].parentPacket != ps[i].parentPacket
  }

  predicate Collides(p: Packet, a: Attempt) {
    p.status.Armed? && OneLive(p.attempts) && Overlap(Arm(p), a)
  }

  /** Whether the session may arm this packet: a bound root session for a
      top-level packet, the dispatched parent's own agent for a nested one. */
  predicate MayArm(t: Task, ps: seq<Packet>, p: Packet, session: Id) {
    if p.depth == 1 then session in t.roots
    else Find(ps, p.parentPacket).Some? && ps[Find(ps, p.parentPacket).value].agent == session
  }

  datatype ArmArgs = ArmArgs(id: Id, session: Id, expected: AgentType, expiresAt: int, now: int, allowed: bool)

  function ArmPacket(t: Task, a: ArmArgs): Option<Task> {
    if !Open(t) || !a.allowed || a.expiresAt <= a.now || Expire(t.packets, a.now).None? then None
    else
      var ps := Expire(t.packets, a.now).value;
      var found := Find(ps, a.id);
      var arm := Attempt(Live, a.session, a.expected, a.expiresAt);
      if found.None? then None
      else if !ps[found.value].status.Ready? || !MayArm(t, ps, ps[found.value], a.session) then None
      else if exists k | 0 <= k < |ps| :: Collides(ps[k], arm) then None
      else if !TopologyOk(ps, found.value) then None
      else Some(t.(packets := ps[found.value :=
        ps[found.value].(status := Armed, schema := 5, attempts := ps[found.value].attempts + [arm])]))
  }

  function DisarmPacket(t: Task, id: Id, allowed: bool): Option<Task> {
    var found := Find(t.packets, id);
    if !Open(t) || !allowed || found.None? then None
    else
      var p := t.packets[found.value];
      if !p.status.Armed? || !OneLive(p.attempts) then None
      else Some(t.(packets := t.packets[found.value := p.(status := Ready, attempts := CloseLive(p.attempts, Disarmed))]))
  }

  predicate PacketMoves(from: PacketStatus, to: PacketStatus) {
    match from
    case Ready => to.Dispatched? || to.Cancelled?
    case Armed => to.Dispatched? || to.Cancelled?
    case Dispatched => to.Dispatched? || to.Done? || to.Failed? || to.Cancelled?
    case _ => false
  }

  datatype UpdateArgs = UpdateArgs(id: Id, status: PacketStatus, agent: Id, now: int, allowed: bool)

  function AgentAfter(p: Packet, supplied: Id): Id {
    if p.agent != "" then p.agent else supplied
  }

  /** Work that has to end before a top-level packet may. */
  predicate HasActiveWork(t: Task, id: Id) {
    || (exists k | 0 <= k < |t.packets| :: t.packets[k].parentPacket == id && Executing(t.packets[k]))
    || (exists k | 0 <= k < |t.jobs| :: t.jobs[k].owner == id && ActiveJob(t.jobs[k]))
  }

  predicate MayDispatch(t: Task, i: nat, now: int)
    requires i < |t.packets|
  {
    var p := t.packets[i];
    && TopologyOk(t.packets, i)
    && (p.status.Armed? ==> OneLive(p.attempts) && Arm(p).expiresAt > now)
    && !(p.status.Ready? && p.schema == 5)
  }

  predicate MayUpdate(t: Task, i: nat, a: UpdateArgs)
    requires i < |t.packets|
  {
    var p := t.packets[i];
    && (a.status.Dispatched? ==> MayDispatch(t, i, a.now))
    && PacketMoves(p.status, a.status)
    && (p.agent != "" && a.agent != "" ==> p.agent == a.agent)
    && (a.status.Dispatched? || p.status.Dispatched? ==> AgentAfter(p, a.agent) != "")
    && (!a.status.Dispatched? && p.depth == 1 ==> !HasActiveWork(t, a.id))
    && (p.status.Armed? ==> OneLive(p.attempts))
  }

  function UpdatedPacket(p: Packet, a: UpdateArgs): Packet {
    p.(status := a.status,
       attempts := if p.status.Armed? then CloseLive(p.attempts, Disarmed) else p.attempts,
       schema := if a.status.Dispatched? && !p.status.Dispatched? then 5 else p.schema,
       agent := if a.agent != "" then AgentAfter(p, a.agent) else p.agent)
  }

  function UpdatePacket(t: Task, a: UpdateArgs): Option<Task> {
    var found := Find(t.packets, a.id);
    if !Open(t) || !a.allowed || found.None? then None
    else if !MayUpdate(t, found.value, a) then None
    else Some(t.(packets := t.packets[found.value := UpdatedPacket(t.packets[found.value], a)]))
  }

  // ----- an observed start of an agent -----

  datatype StartArgs = StartArgs(session: Id, agentType: string, agent: Id, now: int, allowed: bool)

  /** The packets armed for this parent session and agent type. */
  predicate Candidate(p: Packet, session: Id, agentType: string) {
    p.status.Armed? && OneLive(p.attempts) && Arm(p).parent == session && Matches(Arm(p).expected, agentType)
  }

  /** The one candidate, when there is exactly one. */
  function OnlyCandidate(ps: seq<Packet>, session: Id, agentType: string): (r: Option<nat>)
    ensures r.Some? ==> r.value < |ps| && Candidate(ps[r.value], session, agentType)
  {
    var found := FirstCandidate(ps, session, agentType, 0);
    if found.None? || FirstCandidate(ps, session, agentType, found.value + 1).Some? then None else found
  }

  function FirstCandidate(ps: seq<Packet>, session: Id, agentType: string, from: nat): (r: Option<nat>)
    requires from <= |ps|
    ensures r.Some? ==> from <= r.value < |ps| && Candidate(ps[r.value], session, agentType)
    ensures r.Some? ==> forall i | from <= i < r.value :: !Candidate(ps[i], session, agentType)
    ensures r.None? ==> forall i | from <= i < |ps| :: !Candidate(ps[i], session, agentType)
    decreases |ps| - from
  {
    if from == |ps| then None
    else if Candidate(ps[from], session, agentType) then Some(from)
    else FirstCandidate(ps, session, agentType, from + 1)
  }

  predicate Consumable(ps: seq<Packet>, i: nat, a: StartArgs)
    requires i < |ps|
  {
    && a.allowed
    && a.agent != "" && a.agentType != ""
    && (forall k | 0 <= k < |ps| && Executing(ps[k]) :: ps[k].agent != a.agent)
    && TopologyOk(ps, i)
  }

  /** Expires stale arms and consumes the one arm that waits for this start. The
      second part names the packet dispatched; without one the start is an
      incident, and only the expiry is kept. */
  function ObserveStart(t: Task, a: StartArgs): Option<(Task, Option<nat>)> {
    match Expire(t.packets, a.now)
    case None => None
    case Some(ps) =>
      var found := OnlyCandidate(ps, a.session, a.agentType);
      if found.None? || !Consumable(ps, found.value, a) then Some((t.(packets := ps), None))
      else Some((t.(packets := ps[found.value := ps[found.value].(
        status := Dispatched, agent := a.agent, attempts := CloseLive(ps[found.value].attempts, Consumed))]), found))
  }

  // ----- job commands -----

  /** A job runs under a dispatched top-level packet. */
  predicate OwnerOk(t: Task, owner: Id) {
    && Find(t.packets, owner).Some?
    && t.packets[Find(t.packets, owner).value].status.Dispatched?
    && t.packets[Find(t.packets, owner).value].depth == 1
  }

  function StartJob(t: Task, run: Id, owner: Id, allowed: bool): Option<Task> {
    if !Open(t) || !allowed || !OwnerOk(t, owner) || FindJob(t.jobs, run).Some? then None
    else Some(t.(jobs := t.jobs + [Job(run, owner, Queued, 0)]))
  }

  predicate JobMoves(from: JobStatus, to: JobStatus) {
    match from
    case Queued => to.Running? || to.Fail? || to.Stopped? || to.Unknown?
    case Running => to.Pass? || to.Fail? || to.Stopped? || to.Unknown?
    case Unknown => !to.Queued?
    case _ => false
  }

  function UpdateJob(t: Task, run: Id, status: JobStatus, allowed: bool): Option<Task> {
    var found := FindJob(t.jobs, run);
    if !Open(t) || !allowed || found.None? then None
    else
      var j := t.jobs[found.value];
      if !JobMoves(j.status, status) then None
      else if status.Running? && !OwnerOk(t, j.owner) then None
      else if status.Pass? && j.launches == 0 then None
      else Some(t.(jobs := t.jobs[found.value :=
        j.(status := status, launches := if status.Running? then j.launches + 1 else j.launches)]))
  }

  /** Closing and cancelling wait for every packet and job. */
  predicate Settled(t: Task) {
    && (forall i | 0 <= i < |t.packets| :: Terminal(t.packets[i]))
    && (forall i | 0 <= i < |t.jobs| :: !ActiveJob(t.jobs[i]))
  }

  // ----- what every command keeps -----

  /** A packet is armed exactly when one of its attempts is, and only one. */
  predicate ArmsMatch(ps: seq<Packet>) {
    forall i | 0 <= i < |ps| ::
      if ps[i].status.Armed? then OneLive(ps[i].attempts) else LiveArms(ps[i].attempts) == []
  }

  /** No two armed packets of one parent session overlap in agent type. */
  predicate SlotsExclusive(ps: seq<Packet>) {
    forall i, j | 0 <= i < j < |ps| && ps[i].status.Armed? && ps[j].status.Armed? ::
      OneLive(ps[i].attempts) && OneLive(ps[j].attempts) ==> !Overlap(Arm(ps[i]), Arm(ps[j]))
  }

  /** Every armed or dispatched child is under its dispatched parent, which has
      no other child at work. */
  predicate Contained(ps: seq<Packet>) {
    && (forall i | 0 <= i < |ps| :: ps[i].depth == 1 || ps[i].depth == 2)
    && forall i | 0 <= i < |ps| && Executing(ps[i]) :: TopologyOk(ps, i)
  }

  /** Every active job is under its dispatched owner, and a job has passed only
      if it was launched under validated authority. */
  predicate JobsContained(t: Task) {
    forall i | 0 <= i < |t.jobs| ::
      && (ActiveJob(t.jobs[i]) ==> OwnerOk(t, t.jobs[i].owner))
      && (t.jobs[i].status.Pass? ==> t.jobs[i].launches > 0)
  }

  /** A packet has no agent before its dispatch. */
  predicate AgentsLate(ps: seq<Packet>) {
    forall i | 0 <= i < |ps| && (ps[i].status.Ready? || ps[i].status.Armed?) :: ps[i].agent == ""
  }

  predicate Valid(t: Task) {
    && UniqueIds(t.packets) && UniqueRuns(t.jobs) && AgentsLate(t.packets)
    && ArmsMatch(t.packets) && SlotsExclusive(t.packets)
    && Contained(t.packets) && JobsContained(t)
  }
}
