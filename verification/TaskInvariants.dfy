/** Every packet and job command keeps the invariants of a task: arms match
    their packets, arm slots are exclusive, and work stays contained. */
module TaskInvariants {
  import opened Wrappers
  import opened TaskLedger

  // ----- the same packets -----

  predicate SameIds(ps: seq<Packet>, qs: seq<Packet>) {
    |ps| == |qs| && forall i | 0 <= i < |ps| :: ps[i].id == qs[i].id
  }

  lemma {:induction false} FirstSame(ps: seq<Packet>, qs: seq<Packet>, id: Id)
    requires SameIds(ps, qs)
    ensures FirstPacket(ps, id) == FirstPacket(qs, id)
    decreases |ps|
  {
    if ps != [] && ps[0].id != id {
      FirstSame(ps[1..], qs[1..], id);
    }
  }

  lemma FindSame(ps: seq<Packet>, qs: seq<Packet>, id: Id)
    requires SameIds(ps, qs)
    ensures Find(ps, id) == Find(qs, id)
  {
    FirstSame(ps, qs, id);
    if FirstPacket(ps, id).Some? {
      var i := FirstPacket(ps, id).value;
      FirstSame(ps[i + 1..], qs[i + 1..], id);
    }
  }

  /** A packet list that differs in one entry, which keeps its place. */
  predicate Replaces(p: Packet, q: Packet) {
    q.id == p.id && q.depth == p.depth && q.parentPacket == p.parentPacket
  }

  lemma FindAfterChange(ps: seq<Packet>, f: nat, q: Packet, id: Id)
    requires f < |ps| && Replaces(ps[f], q)
    ensures Find(ps[f := q], id) == Find(ps, id)
  {
    FindSame(ps, ps[f := q], id);
  }

  // ----- containment -----

  /** Nothing at work depends on the packet as a dispatched parent. */
  predicate NoChildAtWork(ps: seq<Packet>, f: nat)
    requires f < |ps|
  {
    forall k | 0 <= k < |ps| && Executing(ps[k]) && ps[k].depth == 2 :: ps[k].parentPacket != ps[f].id
  }

  lemma ContainedAfterChange(ps: seq<Packet>, f: nat, q: Packet)
    requires Contained(ps) && UniqueIds(ps) && f < |ps| && Replaces(ps[f], q)
    requires Executing(q) ==> TopologyOk(ps, f)
    requires ps[f].status.Dispatched? && !q.status.Dispatched? ==> NoChildAtWork(ps, f)
    ensures Contained(ps[f := q])
  {
    var qs := ps[f := q];
    forall i | 0 <= i < |qs| && Executing(qs[i]) ensures TopologyOk(qs, i) {
      FindAfterChange(ps, f, q, qs[i].parentPacket);
      assert TopologyOk(ps, i);
      if qs[i].depth == 2 {
        var j := Find(ps, qs[i].parentPacket).value;
        assert qs[j].depth == ps[j].depth;
        assert j == f ==> q.status.Dispatched?;
        forall k | 0 <= k < |qs| && k != i && Executing(qs[k]) && qs[k].depth == 2 ensures qs[k].parentPacket != qs[i].parentPacket {
          if k == f {
            assert TopologyOk(ps, f);
          }
        }
      }
    }
  }

  lemma ContainedAfterExpiry(ps: seq<Packet>, now: int)
    requires Contained(ps) && UniqueIds(ps) && Expire(ps, now).Some?
    ensures Contained(Expire(ps, now).value) && UniqueIds(Expire(ps, now).value)
  {
    hide LiveArms, CloseLive;
    var qs := Expire(ps, now).value;
    assert SameIds(ps, qs);
    forall i | 0 <= i < |qs| && Executing(qs[i]) ensures TopologyOk(qs, i) {
      FindSame(ps, qs, qs[i].parentPacket);
      assert TopologyOk(ps, i);
    }
  }

  // ----- arms -----

  lemma ArmsAfterExpiry(ps: seq<Packet>, now: int)
    requires ArmsMatch(ps) && SlotsExclusive(ps)
    ensures Expire(ps, now).Some?
    ensures ArmsMatch(Expire(ps, now).value) && SlotsExclusive(Expire(ps, now).value)
  {
    var qs := Expire(ps, now).value;
    forall i | 0 <= i < |qs|
      ensures if qs[i].status.Armed? then OneLive(qs[i].attempts) else LiveArms(qs[i].attempts) == []
      ensures qs[i].status.Armed? ==> qs[i] == ps[i]
    {
      ClosedHasNone(ps[i].attempts, Expired);
    }
  }

  lemma AgentsAfterExpiry(ps: seq<Packet>, now: int)
    requires AgentsLate(ps) && Expire(ps, now).Some?
    ensures AgentsLate(Expire(ps, now).value)
  {
  }

  lemma ArmsAfterChange(ps: seq<Packet>, f: nat, q: Packet)
    requires ArmsMatch(ps) && SlotsExclusive(ps) && f < |ps|
    requires if q.status.Armed? then OneLive(q.attempts) else LiveArms(q.attempts) == []
    requires q.status.Armed? ==> forall k | 0 <= k < |ps| && k != f :: !Collides(ps[k], Arm(q))
    ensures ArmsMatch(ps[f := q]) && SlotsExclusive(ps[f := q])
  {
    var qs := ps[f := q];
    forall i, j | 0 <= i < j < |qs| && qs[i].status.Armed? && qs[j].status.Armed?
      ensures OneLive(qs[i].attempts) && OneLive(qs[j].attempts) ==> !Overlap(Arm(qs[i]), Arm(qs[j]))
    {
      if i == f {
        assert !Collides(ps[j], Arm(q));
      } else if j == f {
        assert !Collides(ps[i], Arm(q));
      }
    }
  }

  // ----- jobs -----

  lemma OwnersAfterChange(t: Task, f: nat, q: Packet)
    requires JobsContained(t) && f < |t.packets| && Replaces(t.packets[f], q)
    requires t.packets[f].status.Dispatched? && t.packets[f].depth == 1 && !q.status.Dispatched? ==>
      forall k | 0 <= k < |t.jobs| && ActiveJob(t.jobs[k]) :: t.jobs[k].owner != q.id
    ensures JobsContained(t.(packets := t.packets[f := q]))
  {
    var u := t.(packets := t.packets[f := q]);
    forall i | 0 <= i < |u.jobs| && ActiveJob(u.jobs[i]) ensures OwnerOk(u, u.jobs[i].owner) {
      FindAfterChange(t.packets, f, q, u.jobs[i].owner);
      assert OwnerOk(t, t.jobs[i].owner);
    }
  }

  lemma OwnersAfterExpiry(t: Task, now: int)
    requires JobsContained(t) && Expire(t.packets, now).Some?
    ensures JobsContained(t.(packets := Expire(t.packets, now).value))
  {
    hide LiveArms, CloseLive;
    var u := t.(packets := Expire(t.packets, now).value);
    assert SameIds(t.packets, u.packets);
    forall i | 0 <= i < |u.jobs| && ActiveJob(u.jobs[i]) ensures OwnerOk(u, u.jobs[i].owner) {
      FindSame(t.packets, u.packets, u.jobs[i].owner);
      assert OwnerOk(t, t.jobs[i].owner);
    }
  }

  // ----- the commands -----

  lemma ExpiryKeepsValid(t: Task, now: int)
    requires Valid(t)
    ensures Expire(t.packets, now).Some? && Valid(t.(packets := Expire(t.packets, now).value))
  {
    hide Contained, JobsContained, ArmsMatch, SlotsExclusive, Expire, UniqueIds;
    ArmsAfterExpiry(t.packets, now);
    AgentsAfterExpiry(t.packets, now);
    ContainedAfterExpiry(t.packets, now);
    OwnersAfterExpiry(t, now);
  }

  /** One packet changes, in a way that keeps each part of the invariant. */
  lemma ChangeKeepsValid(t: Task, f: nat, q: Packet)
    requires Valid(t) && f < |t.packets| && Replaces(t.packets[f], q)
    requires if q.status.Armed? then OneLive(q.attempts) else LiveArms(q.attempts) == []
    requires q.status.Armed? ==> forall k | 0 <= k < |t.packets| && k != f :: !Collides(t.packets[k], Arm(q))
    requires Executing(q) ==> TopologyOk(t.packets, f)
    requires q.status.Ready? || q.status.Armed? ==> q.agent == ""
    requires t.packets[f].status.Dispatched? && !q.status.Dispatched? ==>
      && NoChildAtWork(t.packets, f)
      && (t.packets[f].depth == 1 ==> forall k | 0 <= k < |t.jobs| && ActiveJob(t.jobs[k]) :: t.jobs[k].owner != q.id)
    ensures Valid(t.(packets := t.packets[f := q]))
  {
    hide Contained, JobsContained, ArmsMatch, SlotsExclusive, TopologyOk, Collides, OneLive, LiveArms;
    ContainedAfterChange(t.packets, f, q);
    ArmsAfterChange(t.packets, f, q);
    OwnersAfterChange(t, f, q);
  }

  lemma ArmKeepsValid(t: Task, a: ArmArgs)
    requires Valid(t) && ArmPacket(t, a).Some?
    ensures Valid(ArmPacket(t, a).value)
  {
    hide Expire, Contained, JobsContained, SlotsExclusive, UniqueIds;
    ExpiryKeepsValid(t, a.now);
    var u := t.(packets := Expire(t.packets, a.now).value);
    var f := Find(u.packets, a.id).value;
    var p := u.packets[f];
    var arm := Attempt(Live, a.session, a.expected, a.expiresAt);
    AppendedArm(p.attempts, arm);
    var q := p.(status := Armed, schema := 5, attempts := p.attempts + [arm]);
    OverlapIsSymmetric();
    ChangeKeepsValid(u, f, q);
  }

  lemma OverlapIsSymmetric()
    ensures forall a, b :: Overlap(a, b) <==> Overlap(b, a)
  {
  }

  lemma DisarmKeepsValid(t: Task, id: Id, allowed: bool)
    requires Valid(t) && DisarmPacket(t, id, allowed).Some?
    ensures Valid(DisarmPacket(t, id, allowed).value)
  {
    var f := Find(t.packets, id).value;
    ClosedHasNone(t.packets[f].attempts, Disarmed);
    ChangeKeepsValid(t, f, t.packets[f].(status := Ready, attempts := CloseLive(t.packets[f].attempts, Disarmed)));
  }

  lemma NestedPacketsAreNoParents(ps: seq<Packet>, f: nat)
    requires Contained(ps) && UniqueIds(ps) && f < |ps| && ps[f].depth == 2
    ensures NoChildAtWork(ps, f)
  {
    forall k | 0 <= k < |ps| && Executing(ps[k]) && ps[k].depth == 2 ensures ps[k].parentPacket != ps[f].id {
      assert TopologyOk(ps, k);
      FindAt(ps, f);
    }
  }

  lemma UpdateKeepsValid(t: Task, a: UpdateArgs)
    requires Valid(t) && UpdatePacket(t, a).Some?
    ensures Valid(UpdatePacket(t, a).value)
  {
    hide SlotsExclusive, JobsContained, UniqueIds;
    var f := Find(t.packets, a.id).value;
    var p := t.packets[f];
    ClosedHasNone(p.attempts, Disarmed);
    if p.depth == 2 {
      NestedPacketsAreNoParents(t.packets, f);
    }
    ChangeKeepsValid(t, f, UpdatedPacket(p, a));
  }

  lemma StartKeepsValid(t: Task, a: StartArgs)
    requires Valid(t)
    ensures ObserveStart(t, a).Some? && Valid(ObserveStart(t, a).value.0)
  {
    hide Expire, Contained, JobsContained, SlotsExclusive, UniqueIds;
    ExpiryKeepsValid(t, a.now);
    var u := t.(packets := Expire(t.packets, a.now).value);
    var found := OnlyCandidate(u.packets, a.session, a.agentType);
    if found.Some? && Consumable(u.packets, found.value, a) {
      var p := u.packets[found.value];
      ClosedHasNone(p.attempts, Consumed);
      ChangeKeepsValid(u, found.value, p.(status := Dispatched, agent := a.agent, attempts := CloseLive(p.attempts, Consumed)));
    }
  }

  // ----- adding a packet -----

  lemma {:induction false} FirstInLonger(ps: seq<Packet>, q: Packet, id: Id)
    requires q.id != id
    ensures FirstPacket(ps + [q], id) == FirstPacket(ps, id)
  {
    if ps != [] {
      assert (ps + [q])[1..] == ps[1..] + [q];
      if ps[0].id != id {
        FirstInLonger(ps[1..], q, id);
      }
    } else {
      assert (ps + [q])[1..] == [];
    }
  }

  lemma FindInLonger(ps: seq<Packet>, q: Packet, id: Id)
    requires q.id != id
    ensures Find(ps + [q], id) == Find(ps, id)
  {
    FirstInLonger(ps, q, id);
    if FirstPacket(ps, id).Some? {
      var i := FirstPacket(ps, id).value;
      assert (ps + [q])[i + 1..] == ps[i + 1..] + [q];
      FirstInLonger(ps[i + 1..], q, id);
    }
  }

  lemma ContainedWithMore(ps: seq<Packet>, q: Packet)
    requires Contained(ps) && q.status.Ready? && (q.depth == 1 || q.depth == 2)
    requires forall i | 0 <= i < |ps| :: ps[i].id != q.id
    ensures Contained(ps + [q])
  {
    hide Find;
    var qs := ps + [q];
    forall i | 0 <= i < |qs| && Executing(qs[i]) ensures TopologyOk(qs, i) {
      assert qs[i] == ps[i] && TopologyOk(ps, i);
      if ps[i].depth == 2 {
        FindInLonger(ps, q, ps[i].parentPacket);
      }
    }
  }

  lemma OwnersWithMore(t: Task, q: Packet)
    requires JobsContained(t) && forall i | 0 <= i < |t.packets| :: t.packets[i].id != q.id
    ensures JobsContained(t.(packets := t.packets + [q]))
  {
    hide Find;
    var u := t.(packets := t.packets + [q]);
    forall i | 0 <= i < |u.jobs| && ActiveJob(u.jobs[i]) ensures OwnerOk(u, u.jobs[i].owner) {
      assert OwnerOk(t, t.jobs[i].owner);
      FindInLonger(t.packets, q, u.jobs[i].owner);
    }
  }

  lemma ArmsWithMore(ps: seq<Packet>, q: Packet)
    requires ArmsMatch(ps) && SlotsExclusive(ps) && UniqueIds(ps)
    requires q.status.Ready? && q.attempts == [] && forall i | 0 <= i < |ps| :: ps[i].id != q.id
    ensures ArmsMatch(ps + [q]) && SlotsExclusive(ps + [q]) && UniqueIds(ps + [q])
  {
  }

  lemma CreateKeepsValid(t: Task, id: Id, depth: int, parentPacket: Id, allowed: bool)
    requires Valid(t) && CreatePacket(t, id, depth, parentPacket, allowed).Some?
    ensures Valid(CreatePacket(t, id, depth, parentPacket, allowed).value)
  {
    hide Find, Contained, JobsContained, ArmsMatch, SlotsExclusive, UniqueIds;
    var q := Packet(id, depth, if depth == 1 then "" else parentPacket, 5, Ready, "", []);
    ContainedWithMore(t.packets, q);
    OwnersWithMore(t, q);
    ArmsWithMore(t.packets, q);
  }

  // ----- jobs -----

  lemma StartJobKeepsValid(t: Task, run: Id, owner: Id, allowed: bool)
    requires Valid(t) && StartJob(t, run, owner, allowed).Some?
    ensures Valid(StartJob(t, run, owner, allowed).value)
  {
    hide ArmsMatch, SlotsExclusive, Contained, UniqueIds, Find;
    var u := StartJob(t, run, owner, allowed).value;
    forall i | 0 <= i < |u.jobs| && ActiveJob(u.jobs[i]) ensures OwnerOk(u, u.jobs[i].owner) {
      assert i < |t.jobs| ==> OwnerOk(t, t.jobs[i].owner);
    }
  }

  lemma UpdateJobKeepsValid(t: Task, run: Id, status: JobStatus, allowed: bool)
    requires Valid(t) && UpdateJob(t, run, status, allowed).Some?
    ensures Valid(UpdateJob(t, run, status, allowed).value)
  {
    hide ArmsMatch, SlotsExclusive, Contained, UniqueIds, Find;
    var u := UpdateJob(t, run, status, allowed).value;
    forall i | 0 <= i < |u.jobs| && ActiveJob(u.jobs[i]) ensures OwnerOk(u, u.jobs[i].owner) {
      assert ActiveJob(t.jobs[i]);
      assert OwnerOk(t, t.jobs[i].owner);
    }
  }

  // ----- the reader of the arm slots -----

  /** The slot scan that runs before an agent starts: the packets with a live arm
      for this parent and type, those already expired by the clock apart. */
  function LiveSlots(ps: seq<Packet>, session: Id, agentType: string, now: int): seq<Id> {
    if ps == [] then []
    else ArmsOf(ps[0], ps[0].attempts, session, agentType, now, false) + LiveSlots(ps[1..], session, agentType, now)
  }

  function ExpiredSlots(ps: seq<Packet>, session: Id, agentType: string, now: int): seq<Id> {
    if ps == [] then []
    else ArmsOf(ps[0], ps[0].attempts, session, agentType, now, true) + ExpiredSlots(ps[1..], session, agentType, now)
  }

  predicate InSlot(p: Packet, a: Attempt, session: Id, agentType: string, now: int, expired: bool) {
    p.status.Armed? && a.status.Live? && a.parent == session && Matches(a.expected, agentType) && (expired <==> a.expiresAt <= now)
  }

  function ArmsOf(p: Packet, attempts: seq<Attempt>, session: Id, agentType: string, now: int, expired: bool): seq<Id> {
    if attempts == [] then []
    else (if InSlot(p, attempts[0], session, agentType, now, expired) then [p.id] else [])
         + ArmsOf(p, attempts[1..], session, agentType, now, expired)
  }

  method LiveArmSlots(ps: seq<Packet>, session: Id, agentType: string, now: int) returns (live: seq<Id>, expired: seq<Id>)
    ensures live == LiveSlots(ps, session, agentType, now) && expired == ExpiredSlots(ps, session, agentType, now)
  {
    hide InSlot, ArmsOf;
    live, expired := [], [];
    assert ps[0..] == ps;
    for i := 0 to |ps|
      invariant live + LiveSlots(ps[i..], session, agentType, now) == LiveSlots(ps, session, agentType, now)
      invariant expired + ExpiredSlots(ps[i..], session, agentType, now) == ExpiredSlots(ps, session, agentType, now)
    {
      assert ps[i..][1..] == ps[i + 1..];
      var attempts := ps[i].attempts;
      ghost var live0, expired0 := live, expired;
      assert attempts[0..] == attempts;
      for j := 0 to |attempts|
        invariant live + ArmsOf(ps[i], attempts[j..], session, agentType, now, false)
                  == live0 + ArmsOf(ps[i], attempts, session, agentType, now, false)
        invariant expired + ArmsOf(ps[i], attempts[j..], session, agentType, now, true)
                  == expired0 + ArmsOf(ps[i], attempts, session, agentType, now, true)
      {
        assert attempts[j..][1..] == attempts[j + 1..];
        NextArm(live, ps[i], attempts, j, session, agentType, now, false);
        NextArm(expired, ps[i], attempts, j, session, agentType, now, true);
        if InSlot(ps[i], attempts[j], session, agentType, now, true) {
          expired := expired + [ps[i].id];
        }
        if InSlot(ps[i], attempts[j], session, agentType, now, false) {
          live := live + [ps[i].id];
        }
      }
      NoMoreArms(live, ps[i], attempts, session, agentType, now, false);
      NoMoreArms(expired, ps[i], attempts, session, agentType, now, true);
      Reassociate(live0, ArmsOf(ps[i], attempts, session, agentType, now, false), LiveSlots(ps[i + 1..], session, agentType, now));
      Reassociate(expired0, ArmsOf(ps[i], attempts, session, agentType, now, true), ExpiredSlots(ps[i + 1..], session, agentType, now));
    }
    assert ps[|ps|..] == [];
  }

  lemma NextArm(front: seq<Id>, p: Packet, attempts: seq<Attempt>, j: nat, session: Id, agentType: string, now: int, expired: bool)
    requires j < |attempts|
    ensures front + ArmsOf(p, attempts[j..], session, agentType, now, expired)
            == (if InSlot(p, attempts[j], session, agentType, now, expired) then front + [p.id] else front)
               + ArmsOf(p, attempts[j + 1..], session, agentType, now, expired)
  {
    hide InSlot;
    assert attempts[j..][1..] == attempts[j + 1..];
  }

  lemma NoMoreArms(front: seq<Id>, p: Packet, attempts: seq<Attempt>, session: Id, agentType: string, now: int, expired: bool)
    ensures front + ArmsOf(p, attempts[|attempts|..], session, agentType, now, expired) == front
  {
    assert attempts[|attempts|..] == [];
  }

  lemma Reassociate(a: seq<Id>, b: seq<Id>, c: seq<Id>)
    ensures a + (b + c) == a + b + c
  {
  }

  /** A packet contributes to the scan at most once, and only through its arm. */
  lemma {:induction false} ArmsOfCounted(p: Packet, attempts: seq<Attempt>, session: Id, agentType: string, now: int, expired: bool)
    requires p.status.Armed?
    ensures |ArmsOf(p, attempts, session, agentType, now, expired)| <= |LiveArms(attempts)|
    ensures |LiveArms(attempts)| == 1 && ArmsOf(p, attempts, session, agentType, now, expired) != [] ==>
      var a := LiveArms(attempts)[0];
      a.parent == session && Matches(a.expected, agentType) && (expired <==> a.expiresAt <= now)
  {
    if attempts != [] {
      ArmsOfCounted(p, attempts[1..], session, agentType, now, expired);
    }
  }

  lemma {:induction false} UnarmedContributesNothing(p: Packet, attempts: seq<Attempt>, session: Id, agentType: string, now: int, expired: bool)
    requires !p.status.Armed?
    ensures ArmsOf(p, attempts, session, agentType, now, expired) == []
  {
    if attempts != [] {
      UnarmedContributesNothing(p, attempts[1..], session, agentType, now, expired);
    }
  }

  /** How many entries the two lists of the scan have together. */
  function SlotCount(ps: seq<Packet>, session: Id, agentType: string, now: int): nat {
    |LiveSlots(ps, session, agentType, now)| + |ExpiredSlots(ps, session, agentType, now)|
  }

  lemma PacketCountsOnce(p: Packet, session: Id, agentType: string, now: int)
    requires if p.status.Armed? then OneLive(p.attempts) else LiveArms(p.attempts) == []
    ensures |ArmsOf(p, p.attempts, session, agentType, now, false)| + |ArmsOf(p, p.attempts, session, agentType, now, true)| <=
            if Candidate(p, session, agentType) then 1 else 0
  {
    if p.status.Armed? {
      ArmsOfCounted(p, p.attempts, session, agentType, now, false);
      ArmsOfCounted(p, p.attempts, session, agentType, now, true);
    } else {
      UnarmedContributesNothing(p, p.attempts, session, agentType, now, false);
      UnarmedContributesNothing(p, p.attempts, session, agentType, now, true);
    }
  }

  lemma {:induction false} NoCandidateNoSlot(ps: seq<Packet>, session: Id, agentType: string, now: int)
    requires ArmsMatch(ps) && forall i | 0 <= i < |ps| :: !Candidate(ps[i], session, agentType)
    ensures SlotCount(ps, session, agentType, now) == 0
  {
    if ps != [] {
      PacketCountsOnce(ps[0], session, agentType, now);
      NoCandidateNoSlot(ps[1..], session, agentType, now);
    }
  }

  /** The scan never finds more than one packet, whatever parent and type. */
  lemma {:induction false} ScanFindsAtMostOne(ps: seq<Packet>, session: Id, agentType: string, now: int)
    requires ArmsMatch(ps) && SlotsExclusive(ps)
    ensures SlotCount(ps, session, agentType, now) <= 1
  {
    if ps != [] {
      PacketCountsOnce(ps[0], session, agentType, now);
      if Candidate(ps[0], session, agentType) {
        forall i | 0 <= i < |ps[1..]| ensures !Candidate(ps[1..][i], session, agentType) {
          assert ps[1..][i] == ps[i + 1];
        }
        NoCandidateNoSlot(ps[1..], session, agentType, now);
      } else {
        ScanFindsAtMostOne(ps[1..], session, agentType, now);
      }
    }
  }

  /** So an observed start with a candidate finds exactly one. */
  lemma CandidateIsUnique(ps: seq<Packet>, session: Id, agentType: string, i: nat)
    requires ArmsMatch(ps) && SlotsExclusive(ps) && i < |ps| && Candidate(ps[i], session, agentType)
    ensures OnlyCandidate(ps, session, agentType) == Some(i)
  {
    forall k | 0 <= k < |ps| && Candidate(ps[k], session, agentType) ensures k == i {
      OverlapMeaning(Arm(ps[k]), Arm(ps[i]));
      OverlapMeaning(Arm(ps[i]), Arm(ps[k]));
    }
  }
}
