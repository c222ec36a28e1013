/** Verification records and their supersession edges. A superseded record names
    a later passing record and pins it by digest; the edges of a task form a
    hash chain that a separate validator checks from the stored state alone. */
module Supersession {
  import opened Wrappers

  // ----- records -----

  type Digest = nat

  datatype Version = Legacy | Canonical | Unsupported

  /** An artifact reference; a canonical one is a retained copy of its origin. */
  datatype Ref = Ref(version: Version, origin: string, sha: Digest, size: nat)

  datatype Status = Pending | Pass | Fail | Blocked | Skipped

  /** How a sealed legacy edge maps the digest it pinned to the digest of the
      same replacement after its artifacts were retained. */
  datatype Materialization = Materialization(fromSha: Digest, toSha: Digest, sealedAt: Option<int>)

  /** Version 2 edges are sealed; legacy ones may lack the later fields. */
  datatype Edge = Edge(
    at: Option<int>,
    version: Option<int>,
    reason: string,
    originalStatus: Status,
    sourceSha: Option<Digest>,
    replacement: int,
    replacementSha: Digest,
    materialization: Option<Materialization>)

  /** `recordedAt` is None when it does not parse; `marker` is the optional
      artifact snapshot version; `body` holds the fields no command touches. */
  datatype Record = Record(
    category: string,
    status: Status,
    recordedAt: Option<int>,
    refs: seq<Ref>,
    marker: Option<int>,
    body: string,
    superseded: Option<Edge>)

  predicate AllCanonical(refs: seq<Ref>) {
    forall i | 0 <= i < |refs| :: refs[i].version.Canonical?
  }

  predicate CanBeRetired(status: Status) {
    !status.Pending? && !status.Skipped?
  }

  /** The record as it was before it was superseded. */
  function Preimage(r: Record): Record
    requires r.superseded.Some?
  {
    r.(superseded := None, status := r.superseded.value.originalStatus)
  }

  predicate IsSealed(r: Record) {
    r.superseded.Some? && r.superseded.value.version == Some(2)
  }

  /** What an edge to this record has to pin: the digest of the record, or once
      it is superseded itself, the digest that supersession stored. */
  function Identity(sha: Record -> Digest, r: Record): Option<Digest> {
    if IsSealed(r) then r.superseded.value.sourceSha else Some(sha(r))
  }

  /** The digest an edge pins, after a materialization where there was one. */
  function Pinned(e: Edge): Digest {
    if e.materialization.Some? then e.materialization.value.toSha else e.replacementSha
  }

  /** A record before its artifacts were retained; None when some are not. */
  function LegacyPreimage(r: Record): Option<Record> {
    if AllCanonical(r.refs) then
      Some(r.(refs := seq(|r.refs|, i requires 0 <= i < |r.refs| => r.refs[i].(version := Legacy)), marker := None))
    else None
  }

  /** A materialization maps two different digests of one replacement. */
  predicate MaterializationHolds(sha: Record -> Digest, e: Edge, replacement: Record) {
    e.materialization.Some? ==>
      && e.materialization.value.fromSha == e.replacementSha
      && e.materialization.value.fromSha != e.materialization.value.toSha
      && var before := LegacyPreimage(if IsSealed(replacement) then Preimage(replacement) else replacement);
      && before.Some? && sha(before.value) == e.materialization.value.fromSha
  }

  // ----- one edge -----

  /** Where an edge leads, as an index from 0. */
  predicate LeadsTo(records: seq<Record>, i: nat, j: int) {
    && i < |records| && records[i].superseded.Some?
    && j == records[i].superseded.value.replacement - 1
    && 0 <= j < |records| && j != i
  }

  /** Strictly later, and of the same category. */
  predicate Later(source: Record, replacement: Record) {
    && source.category == replacement.category
    && source.recordedAt.Some? && replacement.recordedAt.Some?
    && source.recordedAt.value < replacement.recordedAt.value
  }

  predicate EdgeSealed(sha: Record -> Digest, r: Record)
    requires r.superseded.Some?
  {
    var e := r.superseded.value;
    e.version == Some(2) && e.sourceSha == Some(sha(Preimage(r))) && CanBeRetired(e.originalStatus)
  }

  /** Everything an edge promises but its dates. */
  predicate EdgeHolds(sha: Record -> Digest, records: seq<Record>, i: nat)
    requires i < |records| && records[i].superseded.Some?
  {
    var e := records[i].superseded.value;
    && EdgeSealed(sha, records[i])
    && LeadsTo(records, i, e.replacement - 1)
    && Later(records[i], records[e.replacement - 1])
    && Identity(sha, records[e.replacement - 1]) == Some(Pinned(e))
    && MaterializationHolds(sha, e, records[e.replacement - 1])
  }

  predicate EdgeDated(detailed: string -> bool, records: seq<Record>, i: nat)
    requires i < |records| && records[i].superseded.Some?
  {
    var e := records[i].superseded.value;
    && detailed(e.reason) && e.at.Some?
    && LeadsTo(records, i, e.replacement - 1)
    && records[e.replacement - 1].recordedAt.Some?
    && records[e.replacement - 1].recordedAt.value <= e.at.value
    && (e.materialization.Some? ==>
          e.materialization.value.sealedAt.Some? && e.at.value <= e.materialization.value.sealedAt.value)
  }

  /** What a replacement keeps being: a pass until it is superseded, skipped
      from then on, with nothing but retained artifacts. */
  predicate ReplacementHolds(r: Record) {
    && AllCanonical(r.refs)
    && (r.superseded.None? ==> r.status.Pass?)
  }

  /** A superseded record and its replacement. */
  predicate Link(sha: Record -> Digest, source: Record, replacement: Record)
    requires source.superseded.Some?
  {
    && source.status.Skipped?
    && EdgeSealed(sha, source)
    && Later(source, replacement)
    && Identity(sha, replacement) == Some(Pinned(source.superseded.value))
    && MaterializationHolds(sha, source.superseded.value, replacement)
    && ReplacementHolds(replacement)
  }

  function Target(r: Record): int
    requires r.superseded.Some?
  {
    r.superseded.value.replacement - 1
  }

  /** The chain invariant of a task. */
  predicate Chained(sha: Record -> Digest, records: seq<Record>) {
    forall i | 0 <= i < |records| && records[i].superseded.Some? ::
      LeadsTo(records, i, Target(records[i])) && Link(sha, records[i], records[Target(records[i])])
  }

  predicate Dated(detailed: string -> bool, records: seq<Record>) {
    forall i | 0 <= i < |records| && records[i].superseded.Some? :: EdgeDated(detailed, records, i)
  }

  // ----- following edges -----

  /** The record reached after n edges. */
  function Follow(records: seq<Record>, i: nat, n: nat): Option<nat>
    decreases n
  {
    if i >= |records| then None
    else if n == 0 then Some(i)
    else if records[i].superseded.None? then None
    else
      var next := records[i].superseded.value.replacement - 1;
      if 0 <= next < |records| then Follow(records, next, n - 1) else None
  }

  lemma {:induction false} FollowStep(records: seq<Record>, i: nat, n: nat)
    requires Follow(records, i, n).Some?
    ensures Follow(records, i, n).value < |records|
    ensures var j := Follow(records, i, n).value;
      Follow(records, i, n + 1) ==
        if records[j].superseded.None? then None
        else var next := records[j].superseded.value.replacement - 1;
             if 0 <= next < |records| then Some(next) else None
    decreases n
  {
    if n > 0 {
      FollowStep(records, records[i].superseded.value.replacement - 1, n - 1);
    }
  }

  lemma {:induction false} FollowShorter(records: seq<Record>, i: nat, n: nat, m: nat)
    requires m <= n && Follow(records, i, n).Some?
    ensures Follow(records, i, m).Some?
    decreases n
  {
    if m > 0 {
      FollowShorter(records, records[i].superseded.value.replacement - 1, n - 1, m - 1);
    }
  }

  /** The chain from a record ends at a live passing record. */
  ghost predicate EndsInPass(records: seq<Record>, i: nat) {
    exists n: nat :: StopsAt(records, i, n) && records[Follow(records, i, n).value].status.Pass?
  }

  predicate StopsAt(records: seq<Record>, i: nat, n: nat) {
    && Follow(records, i, n).Some?
    && Follow(records, i, n).value < |records|
    && records[Follow(records, i, n).value].superseded.None?
  }

  /** How many records are later than a time: the measure of a chain. */
  function Remaining(records: seq<Record>, after: int): nat {
    |set j | 0 <= j < |records| && records[j].recordedAt.Some? && records[j].recordedAt.value > after|
  }

  lemma RemainingShrinks(records: seq<Record>, j: nat, after: int)
    requires j < |records| && records[j].recordedAt.Some? && records[j].recordedAt.value > after
    ensures Remaining(records, records[j].recordedAt.value) < Remaining(records, after)
  {
    var a := set k | 0 <= k < |records| && records[k].recordedAt.Some? && records[k].recordedAt.value > after;
    var b := set k | 0 <= k < |records| && records[k].recordedAt.Some? && records[k].recordedAt.value > records[j].recordedAt.value;
    assert b <= a - {j};
    assert j in a;
    SubsetSize(b, a - {j});
  }

  /** Every superseded record of a chained task leads, through strictly later
      records of its category, to a live pass. */
  lemma {:induction false} ChainEndsInPass(sha: Record -> Digest, records: seq<Record>, i: nat) returns (n: nat)
    requires Chained(sha, records) && i < |records| && records[i].superseded.Some?
    ensures n > 0 && StopsAt(records, i, n) && records[Follow(records, i, n).value].status.Pass?
    ensures Later(records[i], records[Follow(records, i, n).value])
    decreases Remaining(records, if records[i].recordedAt.Some? then records[i].recordedAt.value else 0)
  {
    assert Link(sha, records[i], records[Target(records[i])]);
    var j := Target(records[i]);
    if records[j].superseded.None? {
      n := 1;
      assert Follow(records, j, 0) == Some(j);
    } else {
      RemainingShrinks(records, j, records[i].recordedAt.value);
      var later := ChainEndsInPass(sha, records, j);
      n := later + 1;
    }
  }

  /** No chain ever comes back: every edge goes strictly forward in time. */
  lemma {:induction false} ChainsAreAcyclic(sha: Record -> Digest, records: seq<Record>, i: nat, n: nat)
    requires Chained(sha, records) && i < |records| && n > 0 && Follow(records, i, n).Some?
    ensures Follow(records, i, n).value < |records|
    ensures Later(records[i], records[Follow(records, i, n).value]) && Follow(records, i, n) != Some(i)
    decreases n
  {
    assert Link(sha, records[i], records[Target(records[i])]);
    var j := Target(records[i]);
    if n > 1 {
      ChainsAreAcyclic(sha, records, j, n - 1);
    } else {
      assert Follow(records, j, 0) == Some(j);
    }
  }

  // ----- the commands, as functions of the record list -----

  const BOUND_ARTIFACT_MAX_COUNT: nat := 64
  const BOUND_ARTIFACT_TOTAL_MAX_BYTES: nat := 64 * 1024 * 1024

  datatype Refusal =
    | BadIndices | SourceChanged | ReplacementChanged | AlreadySuperseded | NotAccounted
    | ReplacementNotMaterialized | NotALaterPass | ReplacementInvalid | NoReason
    | BadSelection | UnsupportedRef | TooManyRefs | NotPhysical | TooManyBytes

  datatype Result = Done | Refused(error: Refusal)

  /** What the commands ask of the rest of the program: the record digest, the
      evidence-detail rule, the integrity of one record and of one file. */
  datatype Env = Env(
    sha: Record -> Digest,
    detailed: string -> bool,
    intact: Record -> bool,
    physical: Ref -> bool)

  function Canonized(refs: seq<Ref>): (r: seq<Ref>)
    ensures |r| == |refs|
  {
    seq(|refs|, i requires 0 <= i < |refs| =>
      if refs[i].version.Legacy? then refs[i].(version := Canonical) else refs[i])
  }

  /** A new verification: its artifacts are retained at once and it is marked. */
  function NewRecord(category: string, status: Status, origins: seq<Ref>, body: string, now: int): Record {
    Record(category, status, Some(now), seq(|origins|, i requires 0 <= i < |origins| => origins[i].(version := Canonical)),
           Some(1), body, None)
  }

  datatype SupersedeArgs = SupersedeArgs(
    source: int, replacement: int, expectedSource: Digest, expectedReplacement: Digest, reason: string)

  function SupersedeError(env: Env, records: seq<Record>, a: SupersedeArgs): Option<Refusal> {
    var i, j := a.source - 1, a.replacement - 1;
    if !(0 <= i < |records| && 0 <= j < |records| && i != j) then Some(BadIndices)
    else if env.sha(records[i]) != a.expectedSource then Some(SourceChanged)
    else if env.sha(records[j]) != a.expectedReplacement then Some(ReplacementChanged)
    else if records[i].superseded.Some? then Some(AlreadySuperseded)
    else if !CanBeRetired(records[i].status) then Some(NotAccounted)
    else if !AllCanonical(records[j].refs) then Some(ReplacementNotMaterialized)
    else if !(Later(records[i], records[j]) && records[j].status.Pass?) then Some(NotALaterPass)
    else if !env.intact(records[j]) then Some(ReplacementInvalid)
    else if !env.detailed(a.reason) then Some(NoReason)
    else None
  }

  function Superseded(records: seq<Record>, a: SupersedeArgs, now: int): seq<Record>
    requires 0 < a.source <= |records|
  {
    records[a.source - 1 := Retire(records[a.source - 1], a, now)]
  }

  /** Whether materialization looks at the artifacts of record i (from 0). */
  predicate InScope(records: seq<Record>, selected: set<int>, i: nat)
    requires i < |records|
  {
    (selected == {} || i + 1 in selected) && records[i].superseded.None?
  }

  function LegacyOf(refs: seq<Ref>): seq<Ref> {
    if refs == [] then []
    else (if refs[0].version.Legacy? then [refs[0]] else []) + LegacyOf(refs[1..])
  }

  function PendingFrom(records: seq<Record>, selected: set<int>, i: nat): seq<Ref>
    requires i <= |records|
    decreases |records| - i
  {
    if i == |records| then []
    else (if InScope(records, selected, i) then LegacyOf(records[i].refs) else []) + PendingFrom(records, selected, i + 1)
  }

  predicate NoUnsupported(refs: seq<Ref>) {
    forall i | 0 <= i < |refs| :: !refs[i].version.Unsupported?
  }

  function PlanError(env: Env, plans: seq<Ref>, total: nat): Option<Refusal> {
    if plans == [] then None
    else if !env.physical(plans[0]) then Some(NotPhysical)
    else if total + plans[0].size > BOUND_ARTIFACT_TOTAL_MAX_BYTES then Some(TooManyBytes)
    else PlanError(env, plans[1..], total + plans[0].size)
  }

  /** The artifacts to retain: those of done packets first, unless records were
      selected, then those of the records in scope. */
  function Plans(records: seq<Record>, selected: set<int>, packetRefs: seq<Ref>): seq<Ref> {
    (if selected == {} then packetRefs else []) + PendingFrom(records, selected, 0)
  }

  function MaterializeError(env: Env, records: seq<Record>, selected: set<int>, packetRefs: seq<Ref>): Option<Refusal> {
    if exists i | i in selected :: i < 1 || i > |records| then Some(BadSelection)
    else if exists i | 0 <= i < |records| :: InScope(records, selected, i) && !NoUnsupported(records[i].refs) then Some(UnsupportedRef)
    else if |Plans(records, selected, packetRefs)| > BOUND_ARTIFACT_MAX_COUNT then Some(TooManyRefs)
    else PlanError(env, Plans(records, selected, packetRefs), 0)
  }

  function Mark(r: Record): Record {
    if r.refs != [] && AllCanonical(r.refs) then r.(marker := Some(1)) else r
  }

  function Retained(records: seq<Record>, selected: set<int>, i: nat): Record
    requires i < |records|
  {
    if InScope(records, selected, i) then records[i].(refs := Canonized(records[i].refs)) else records[i]
  }

  /** Retains what is in scope and then marks every record of the task whose
      artifacts are all retained, in scope or not. */
  function Materialized(records: seq<Record>, selected: set<int>): seq<Record> {
    seq(|records|, i requires 0 <= i < |records| => Mark(Retained(records, selected, i)))
  }

  // ----- supersession keeps the chain -----

  lemma AddKeepsChain(sha: Record -> Digest, records: seq<Record>, r: Record)
    requires Chained(sha, records) && r.superseded.None?
    ensures Chained(sha, records + [r])
  {
    hide Link;
    var more := records + [r];
    forall i | 0 <= i < |more| && more[i].superseded.Some?
      ensures LeadsTo(more, i, Target(more[i])) && Link(sha, more[i], more[Target(more[i])])
    {
      assert more[i] == records[i] && LeadsTo(records, i, Target(records[i]));
    }
  }

  function Retire(r: Record, a: SupersedeArgs, now: int): Record {
    r.(status := Skipped,
       superseded := Some(Edge(Some(now), Some(2), a.reason, r.status, Some(a.expectedSource), a.replacement, a.expectedReplacement, None)))
  }

  lemma RetiredReplacementKeepsLink(sha: Record -> Digest, source: Record, r: Record, a: SupersedeArgs, now: int)
    requires source.superseded.Some? && Link(sha, source, r)
    requires r.superseded.None? && sha(r) == a.expectedSource
    ensures Link(sha, source, Retire(r, a, now))
  {
    assert Preimage(Retire(r, a, now)) == r;
  }

  lemma RetiringLinks(sha: Record -> Digest, r: Record, replacement: Record, a: SupersedeArgs, now: int)
    requires r.superseded.None? && sha(r) == a.expectedSource && CanBeRetired(r.status)
    requires Later(r, replacement) && replacement.status.Pass? && replacement.superseded.None?
    requires AllCanonical(replacement.refs) && sha(replacement) == a.expectedReplacement
    ensures Link(sha, Retire(r, a, now), replacement)
  {
    assert Preimage(Retire(r, a, now)) == r;
  }

  lemma SupersedeKeepsChain(env: Env, records: seq<Record>, a: SupersedeArgs, now: int)
    requires Chained(env.sha, records) && SupersedeError(env, records, a).None?
    ensures Chained(env.sha, Superseded(records, a, now))
  {
    hide Link;
    var after, s, t := Superseded(records, a, now), a.source - 1, a.replacement - 1;
    LiveReplacement(env.sha, records, t);
    RetiringLinks(env.sha, records[s], records[t], a, now);
    forall i | 0 <= i < |after| && after[i].superseded.Some?
      ensures LeadsTo(after, i, Target(after[i])) && Link(env.sha, after[i], after[Target(after[i])])
    {
      if i != s {
        assert after[i] == records[i] && LeadsTo(records, i, Target(records[i]));
        if Target(records[i]) == s {
          RetiredReplacementKeepsLink(env.sha, records[i], records[s], a, now);
        }
      }
    }
  }

  lemma LiveReplacement(sha: Record -> Digest, records: seq<Record>, t: nat)
    requires Chained(sha, records) && t < |records| && records[t].status.Pass?
    ensures records[t].superseded.None?
  {
  }

  /** The command never asks when it runs, but the validator wants the edge to be
      no earlier than the replacement: a supersession keeps the dates in order if
      and only if the replacement's time has come. */
  lemma SupersedeKeepsDatesIff(env: Env, records: seq<Record>, a: SupersedeArgs, now: int)
    requires Dated(env.detailed, records) && SupersedeError(env, records, a).None?
    ensures Dated(env.detailed, Superseded(records, a, now)) <==> records[a.replacement - 1].recordedAt.value <= now
  {
    var after, s := Superseded(records, a, now), a.source - 1;
    assert after[s].superseded.Some?;
    assert EdgeDated(env.detailed, after, s) <==> records[a.replacement - 1].recordedAt.value <= now;
    forall i | 0 <= i < |after| && after[i].superseded.Some? && i != s ensures EdgeDated(env.detailed, after, i) {
      assert after[i] == records[i] && EdgeDated(env.detailed, records, i);
    }
  }

  // ----- materialization and the chain -----

  /** A clock that has fallen behind the replacement: the supersession is
      accepted, and the validator's order of dates is broken. */
  lemma SlowClockBreaksTheDates(env: Env, reason: string)
    requires env.intact(PlainRecord(5, [])) && env.detailed(reason)
    ensures var records := [PlainRecord(1, []), PlainRecord(5, [])];
      var a := SupersedeArgs(1, 2, env.sha(records[0]), env.sha(records[1]), reason);
      && SupersedeError(env, records, a).None?
      && Dated(env.detailed, records) && !Dated(env.detailed, Superseded(records, a, 3))
  {
    var records := [PlainRecord(1, []), PlainRecord(5, [])];
    var a := SupersedeArgs(1, 2, env.sha(records[0]), env.sha(records[1]), reason);
    SupersedeKeepsDatesIff(env, records, a, 3);
  }

  /** Part of an edge, at either end. */
  predicate Bound(records: seq<Record>, i: nat) {
    i < |records| && (records[i].superseded.Some? || exists k | 0 <= k < |records| :: LeadsTo(records, k, i))
  }

  /** Materialization leaves every record that is part of an edge as it is. */
  predicate BoundRecordsMarked(records: seq<Record>) {
    forall i | 0 <= i < |records| && Bound(records, i) && records[i].refs != [] && AllCanonical(records[i].refs) ::
      records[i].marker == Some(1)
  }

  ghost predicate Injective(sha: Record -> Digest) {
    forall a, b | sha(a) == sha(b) :: a == b
  }

  lemma BoundRefsStay(sha: Record -> Digest, records: seq<Record>, selected: set<int>, i: nat)
    requires Chained(sha, records) && Bound(records, i)
    ensures Retained(records, selected, i) == records[i]
  {
    if records[i].superseded.None? {
      var k :| 0 <= k < |records| && LeadsTo(records, k, i);
      assert Link(sha, records[k], records[Target(records[k])]);
      assert Canonized(records[i].refs) == records[i].refs;
    }
  }

  lemma MarkedRecordsStay(sha: Record -> Digest, records: seq<Record>, selected: set<int>)
    requires Chained(sha, records) && BoundRecordsMarked(records)
    ensures Chained(sha, Materialized(records, selected))
  {
    hide Link;
    var after := Materialized(records, selected);
    forall i | 0 <= i < |records| && Bound(records, i) ensures after[i] == records[i] {
      BoundRefsStay(sha, records, selected, i);
    }
    forall i | 0 <= i < |after| && after[i].superseded.Some?
      ensures LeadsTo(after, i, Target(after[i])) && Link(sha, after[i], after[Target(after[i])])
    {
      assert after[i].superseded == records[i].superseded;
      assert LeadsTo(records, i, Target(records[i]));
      assert Bound(records, i) && Bound(records, Target(records[i]));
    }
  }

  lemma UnmarkedRecordBreaks(sha: Record -> Digest, records: seq<Record>, selected: set<int>, i: nat)
    requires Chained(sha, records) && Injective(sha) && Bound(records, i)
    requires records[i].refs != [] && AllCanonical(records[i].refs) && records[i].marker != Some(1)
    ensures !Chained(sha, Materialized(records, selected))
  {
    hide Link;
    var after := Materialized(records, selected);
    BoundRefsStay(sha, records, selected, i);
    var marked := records[i].(marker := Some(1));
    assert after[i] == marked;
    if records[i].superseded.Some? {
      MarkedSourceBreaks(sha, records[i], marked, records[Target(records[i])], after[Target(records[i])]);
    } else {
      var k :| 0 <= k < |records| && LeadsTo(records, k, i);
      assert after[k].superseded == records[k].superseded;
      MarkedReplacementBreaks(sha, records[k], after[k], records[i], marked);
    }
  }

  lemma MarkedSourceBreaks(sha: Record -> Digest, source: Record, marked: Record, replacement: Record, other: Record)
    requires Injective(sha) && source.superseded.Some? && Link(sha, source, replacement)
    requires marked == source.(marker := Some(1)) != source
    ensures !Link(sha, marked, other)
  {
    assert Preimage(marked).marker != Preimage(source).marker;
  }

  lemma MarkedReplacementBreaks(sha: Record -> Digest, source: Record, other: Record, replacement: Record, marked: Record)
    requires Injective(sha) && source.superseded.Some? && Link(sha, source, replacement)
    requires replacement.superseded.None? && other.superseded == source.superseded
    requires marked == replacement.(marker := Some(1)) != replacement
    ensures !Link(sha, other, marked)
  {
  }

  /** A materialization that retains anything keeps the chain of a task if and
      only if every record in an edge whose artifacts are all retained already
      carries the marker it is about to get. */
  lemma MaterializeKeepsChainIff(sha: Record -> Digest, records: seq<Record>, selected: set<int>)
    requires Chained(sha, records) && Injective(sha)
    ensures Chained(sha, Materialized(records, selected)) <==> BoundRecordsMarked(records)
  {
    if BoundRecordsMarked(records) {
      MarkedRecordsStay(sha, records, selected);
    } else {
      var i :| 0 <= i < |records| && Bound(records, i) && records[i].refs != [] && AllCanonical(records[i].refs)
               && records[i].marker != Some(1);
      UnmarkedRecordBreaks(sha, records, selected, i);
    }
  }

  const LEGACY_REF: Ref := Ref(Legacy, "/origin/log", 7, 10)
  const KEPT_REF: Ref := Ref(Canonical, "/origin/result", 8, 10)

  function PlainRecord(at: int, refs: seq<Ref>): Record {
    Record("unit_test", Pass, Some(at), refs, None, "", None)
  }

  /** A task whose chain breaks: a record is superseded by one that keeps only
      retained artifacts but carries no marker; materializing the artifact of a
      third record then marks it, and its digest is no longer the pinned one. */
  lemma MaterializationCanBreakTheChain(env: Env, reason: string)
    requires Injective(env.sha) && env.intact(PlainRecord(2, [KEPT_REF])) && env.physical(LEGACY_REF) && env.detailed(reason)
    ensures var records := [PlainRecord(1, []), PlainRecord(2, [KEPT_REF]), PlainRecord(3, [LEGACY_REF])];
      var a := SupersedeArgs(1, 2, env.sha(records[0]), env.sha(records[1]), reason);
      && SupersedeError(env, records, a).None?
      && var chained := Superseded(records, a, 4);
      && Chained(env.sha, chained)
      && MaterializeError(env, chained, {}, []).None? && Plans(chained, {}, []) == [LEGACY_REF]
      && !Chained(env.sha, Materialized(chained, {}))
  {
    hide Chained, Materialized, Bound, Injective, Plans, MaterializeError;
    var records := [PlainRecord(1, []), PlainRecord(2, [KEPT_REF]), PlainRecord(3, [LEGACY_REF])];
    var a := SupersedeArgs(1, 2, env.sha(records[0]), env.sha(records[1]), reason);
    LiveRecordsAreChained(env.sha, records);
    SupersedeKeepsChain(env, records, a, 4);
    var chained := Superseded(records, a, 4);
    EdgeTargetIsBound(chained, 0, 1);
    UnmarkedRecordBreaks(env.sha, chained, {}, 1);
    ExamplePlans(env, chained);
  }

  lemma ExamplePlans(env: Env, records: seq<Record>)
    requires env.physical(LEGACY_REF)
    requires |records| == 3 && records[0].superseded.Some? && records[1].superseded.None? && records[2].superseded.None?
    requires records[0].refs == [] && records[1].refs == [KEPT_REF] && records[2].refs == [LEGACY_REF]
    ensures Plans(records, {}, []) == [LEGACY_REF] && MaterializeError(env, records, {}, []).None?
  {
    assert LegacyOf([LEGACY_REF]) == [LEGACY_REF] + LegacyOf([]);
    assert LegacyOf([KEPT_REF]) == [] + LegacyOf([]);
    assert PendingFrom(records, {}, 3) == [];
    assert PendingFrom(records, {}, 2) == [LEGACY_REF];
    assert PendingFrom(records, {}, 1) == [LEGACY_REF];
    assert PlanError(env, [LEGACY_REF], 0) == PlanError(env, [LEGACY_REF][1..], 10);
  }

  lemma LiveRecordsAreChained(sha: Record -> Digest, records: seq<Record>)
    requires forall i | 0 <= i < |records| :: records[i].superseded.None?
    ensures Chained(sha, records)
  {
  }

  lemma EdgeTargetIsBound(records: seq<Record>, k: nat, i: nat)
    requires k < |records| && i < |records| && LeadsTo(records, k, i)
    ensures Bound(records, i)
  {
  }

  // ----- every run -----

  datatype Command =
    | Add(category: string, status: Status, origins: seq<Ref>, body: string)
    | Materialize(selected: set<int>, packetRefs: seq<Ref>)
    | Supersede(args: SupersedeArgs)

  /** A refused command leaves the records as they were. */
  function Step(env: Env, records: seq<Record>, c: Command, now: int): seq<Record> {
    match c
    case Add(category, status, origins, body) => records + [NewRecord(category, status, origins, body, now)]
    case Materialize(selected, packetRefs) =>
      if MaterializeError(env, records, selected, packetRefs).Some? || Plans(records, selected, packetRefs) == [] then records
      else Materialized(records, selected)
    case Supersede(args) =>
      if SupersedeError(env, records, args).Some? then records else Superseded(records, args, now)
  }

  function Run(env: Env, records: seq<Record>, commands: seq<(Command, int)>): seq<Record>
    decreases |commands|
  {
    if commands == [] then records
    else Run(env, Step(env, records, commands[0].0, commands[0].1), commands[1..])
  }

  /** Every record with nothing but retained artifacts carries the marker. */
  predicate FullyMarked(records: seq<Record>) {
    forall i | 0 <= i < |records| && records[i].refs != [] && AllCanonical(records[i].refs) :: records[i].marker == Some(1)
  }

  lemma StepKeepsMarks(env: Env, records: seq<Record>, c: Command, now: int)
    requires FullyMarked(records)
    ensures FullyMarked(Step(env, records, c, now))
  {
    hide MaterializeError, Plans, Retained;
    var after := Step(env, records, c, now);
    forall i | 0 <= i < |after| && after[i].refs != [] && AllCanonical(after[i].refs) ensures after[i].marker == Some(1) {
      if c.Supersede? {
        assert after[i].refs == records[i].refs && after[i].marker == records[i].marker;
      }
    }
  }

  lemma StepKeepsChain(env: Env, records: seq<Record>, c: Command, now: int)
    requires Chained(env.sha, records) && FullyMarked(records)
    ensures Chained(env.sha, Step(env, records, c, now))
  {
    hide Chained, Bound, MaterializeError, Plans, Materialized, Superseded;
    match c
    case Add(category, status, origins, body) =>
      AddKeepsChain(env.sha, records, NewRecord(category, status, origins, body, now));
    case Materialize(selected, packetRefs) =>
      MarkedRecordsStay(env.sha, records, selected);
    case Supersede(args) =>
      if SupersedeError(env, records, args).None? {
        SupersedeKeepsChain(env, records, args, now);
      }
  }

  /** From any fully marked chained task, an empty one in particular, every run
      of the three commands leaves a chained one. */
  lemma {:induction false} RunKeepsChain(env: Env, records: seq<Record>, commands: seq<(Command, int)>)
    requires Chained(env.sha, records) && FullyMarked(records)
    ensures Chained(env.sha, Run(env, records, commands)) && FullyMarked(Run(env, records, commands))
    decreases |commands|
  {
    hide Chained, FullyMarked, Step;
    if commands != [] {
      StepKeepsChain(env, records, commands[0].0, commands[0].1);
      StepKeepsMarks(env, records, commands[0].0, commands[0].1);
      RunKeepsChain(env, Step(env, records, commands[0].0, commands[0].1), commands[1..]);
    }
  }

  /** Once superseded, a record keeps its edge over every run. */
  lemma {:induction false} RunKeepsEdges(env: Env, records: seq<Record>, commands: seq<(Command, int)>, i: nat)
    requires i < |records| && records[i].superseded.Some?
    ensures i < |Run(env, records, commands)| && Run(env, records, commands)[i].superseded == records[i].superseded
    decreases |commands|
  {
    if commands != [] {
      StepKeepsEdge(env, records, commands[0].0, commands[0].1, i);
      RunKeepsEdges(env, Step(env, records, commands[0].0, commands[0].1), commands[1..], i);
    }
  }

  lemma StepKeepsEdge(env: Env, records: seq<Record>, c: Command, now: int, i: nat)
    requires i < |records| && records[i].superseded.Some?
    ensures var after := Step(env, records, c, now);
      i < |after| && after[i].superseded == records[i].superseded && after[i].refs == records[i].refs
  {
    hide MaterializeError, Plans;
  }

  /** A clock that does not run backwards, starting no earlier than `from`. */
  predicate Ticking(commands: seq<(Command, int)>, from: int) {
    commands == [] || (from <= commands[0].1 && Ticking(commands[1..], commands[0].1))
  }

  predicate RecordedBy(records: seq<Record>, now: int) {
    forall i | 0 <= i < |records| && records[i].recordedAt.Some? :: records[i].recordedAt.value <= now
  }

  lemma {:induction false} RunKeepsDates(env: Env, records: seq<Record>, commands: seq<(Command, int)>, from: int)
    requires Dated(env.detailed, records) && RecordedBy(records, from) && Ticking(commands, from)
    ensures Dated(env.detailed, Run(env, records, commands))
    decreases |commands|
  {
    hide Dated, RecordedBy, Step;
    if commands != [] {
      StepKeepsDates(env, records, commands[0].0, commands[0].1, from);
      RunKeepsDates(env, Step(env, records, commands[0].0, commands[0].1), commands[1..], commands[0].1);
    }
  }

  lemma StepKeepsDates(env: Env, records: seq<Record>, c: Command, now: int, from: int)
    requires Dated(env.detailed, records) && RecordedBy(records, from) && from <= now
    ensures Dated(env.detailed, Step(env, records, c, now)) && RecordedBy(Step(env, records, c, now), now)
  {
    hide MaterializeError, Plans;
    var after := Step(env, records, c, now);
    match c
    case Supersede(args) =>
      if SupersedeError(env, records, args).None? {
        SupersedeKeepsDatesIff(env, records, args, now);
      }
    case _ =>
      forall i | 0 <= i < |after| && after[i].superseded.Some? ensures EdgeDated(env.detailed, after, i) {
        assert EdgeDated(env.detailed, records, i);
      }
  }

  // ----- the validator -----

  datatype Complaint =
    | NoTimestamp | NotDetailed | NotSealed | SourceMismatch | BadOriginal
    | BadTarget | BadMaterialization | ReplacementMismatch | BadRelation | Cycle | NotPass

  /** A chain that runs into an edge out of the list. */
  ghost predicate BreaksOff(records: seq<Record>, i: nat) {
    exists n: nat :: BreaksAt(records, i, n)
  }

  predicate BreaksAt(records: seq<Record>, i: nat, n: nat) {
    && Follow(records, i, n).Some?
    && Follow(records, i, n).value < |records|
    && records[Follow(records, i, n).value].superseded.Some?
    && !(0 <= Target(records[Follow(records, i, n).value]) < |records|)
  }

  /** What the validator accepts, said without walking: every edge holds and is
      dated, and every chain ends in a live pass. */
  ghost predicate Accepts(env: Env, records: seq<Record>) {
    forall i | 0 <= i < |records| && records[i].superseded.Some? ::
      EdgeHolds(env.sha, records, i) && EdgeDated(env.detailed, records, i) && EndsInPass(records, i)
  }

  lemma {:induction false} FollowAdds(records: seq<Record>, i: nat, a: nat, b: nat)
    requires Follow(records, i, a).Some?
    ensures Follow(records, i, a + b) == Follow(records, Follow(records, i, a).value, b)
    decreases a
  {
    if a > 0 {
      FollowAdds(records, Target(records[i]), a - 1, b);
    }
  }

  /** A chain that comes back to a record never stops. */
  lemma {:induction false} CycleGoesOn(records: seq<Record>, i: nat, m: nat, n: nat, k: nat)
    requires m < n && Follow(records, i, n).Some? && Follow(records, i, m) == Follow(records, i, n)
    ensures Follow(records, i, k).Some?
  {
    if k <= n {
      FollowShorter(records, i, n, k);
    } else {
      FollowAdds(records, i, n, k - n);
      FollowAdds(records, i, m, k - n);
      CycleGoesOn(records, i, m, n, k - n + m);
    }
  }

  lemma CycleIsNoEnd(records: seq<Record>, i: nat, m: nat, n: nat)
    requires m < n && Follow(records, i, n).Some? && Follow(records, i, m) == Follow(records, i, n)
    ensures !EndsInPass(records, i) && !BreaksOff(records, i)
  {
    forall k: nat ensures !StopsAt(records, i, k) && !BreaksAt(records, i, k) {
      CycleGoesOn(records, i, m, n, k + 1);
      CycleGoesOn(records, i, m, n, k);
      FollowStep(records, i, k);
    }
  }

  /** A chain stops in one place only. */
  lemma StopIsUnique(records: seq<Record>, i: nat, n: nat, k: nat)
    requires StopsAt(records, i, n) && (StopsAt(records, i, k) || BreaksAt(records, i, k))
    ensures n == k
  {
    FollowStep(records, i, n);
    FollowStep(records, i, k);
    if k < n {
      FollowShorter(records, i, n, k + 1);
    } else if n < k {
      FollowShorter(records, i, k, n + 1);
    }
  }

  /** Walks one chain, remembering where it has been. */
  method WalkChain(records: seq<Record>, start: nat) returns (complaint: Option<Complaint>)
    requires start < |records|
    ensures complaint.None? <==> EndsInPass(records, start) || BreaksOff(records, start)
  {
    var seen: set<nat> := {};
    var cursor := start;
    ghost var n: nat := 0;
    while true
      invariant cursor < |records| && Follow(records, start, n) == Some(cursor)
      invariant forall c | c in seen :: c < |records| && exists m: nat | m < n :: Follow(records, start, m) == Some(c)
      decreases |records| - |seen|
    {
      if cursor in seen {
        ghost var m: nat :| m < n && Follow(records, start, m) == Some(cursor);
        CycleIsNoEnd(records, start, m, n);
        return Some(Cycle);
      }
      SeenIsBounded(seen + {cursor}, |records|);
      seen := seen + {cursor};
      var current := records[cursor];
      if current.superseded.None? {
        assert StopsAt(records, start, n);
        forall k: nat | StopsAt(records, start, k) || BreaksAt(records, start, k) ensures k == n {
          StopIsUnique(records, start, n, k);
        }
        return if current.status.Pass? then None else Some(NotPass);
      }
      FollowStep(records, start, n);
      var next := Target(current);
      if !(0 <= next < |records|) {
        assert BreaksAt(records, start, n);
        return None;
      }
      cursor := next;
      n := n + 1;
    }
  }

  lemma {:induction false} SeenIsBounded(seen: set<nat>, bound: nat)
    requires forall c | c in seen :: c < bound
    ensures |seen| <= bound
  {
    if bound == 0 {
      assert seen == {};
    } else {
      SeenIsBounded(seen - {bound - 1}, bound - 1);
    }
  }

  /** The complaints about one edge. */
  method EdgeErrors(env: Env, records: seq<Record>, i: nat) returns (errors: seq<Complaint>)
    requires i < |records| && records[i].superseded.Some?
    ensures errors == [] <==>
      && EdgeHolds(env.sha, records, i) && EdgeDated(env.detailed, records, i)
      && (EndsInPass(records, i) || BreaksOff(records, i))
  {
    hide EndsInPass, BreaksOff, Preimage, Identity, CanBeRetired;
    errors := [];
    var source := records[i];
    var edge := source.superseded.value;
    if edge.at.None? {
      errors := errors + [NoTimestamp];
    }
    if !env.detailed(edge.reason) {
      errors := errors + [NotDetailed];
    }
    if edge.version != Some(2) {
      return errors + [NotSealed];
    }
    if edge.sourceSha != Some(env.sha(Preimage(source))) {
      errors := errors + [SourceMismatch];
    }
    if !CanBeRetired(edge.originalStatus) {
      errors := errors + [BadOriginal];
    }
    if edge.replacement < 1 || edge.replacement > |records| || edge.replacement == i + 1 {
      return errors + [BadTarget];
    }
    var replacement := records[edge.replacement - 1];
    if !MaterializationHolds(env.sha, edge, replacement) {
      errors := errors + [BadMaterialization];
    }
    if edge.materialization.Some? {
      var sealedAt := edge.materialization.value.sealedAt;
      if sealedAt.None? || edge.at.None? || sealedAt.value < edge.at.value {
        errors := errors + [BadMaterialization];
      }
    }
    if Identity(env.sha, replacement) != Some(Pinned(edge)) {
      errors := errors + [ReplacementMismatch];
    }
    if !Later(source, replacement) || edge.at.None? || edge.at.value < replacement.recordedAt.value {
      errors := errors + [BadRelation];
    }
    var walked := WalkChain(records, i);
    if walked.Some? {
      errors := errors + [walked.value];
    }
  }

  /** The whole validator. */
  method SupersessionErrors(env: Env, records: seq<Record>) returns (errors: seq<(nat, Complaint)>)
    ensures errors == [] <==> Accepts(env, records)
  {
    hide EdgeHolds, EdgeDated, EndsInPass, BreaksOff;
    errors := [];
    for i := 0 to |records|
      invariant errors == [] <==>
        forall k | 0 <= k < i && records[k].superseded.Some? ::
          && EdgeHolds(env.sha, records, k) && EdgeDated(env.detailed, records, k)
          && (EndsInPass(records, k) || BreaksOff(records, k))
    {
      if records[i].superseded.Some? {
        var found := EdgeErrors(env, records, i);
        errors := errors + seq(|found|, k requires 0 <= k < |found| => (i, found[k]));
      }
    }
    NoneBreaksOff(env, records);
  }

  /** When every edge holds, no chain runs out of the list. */
  lemma NoneBreaksOff(env: Env, records: seq<Record>)
    ensures (forall k | 0 <= k < |records| && records[k].superseded.Some? :: EdgeHolds(env.sha, records, k)) ==>
      forall i :: !BreaksOff(records, i)
  {
  }

  /** What the commands maintain is what the validator accepts. */
  lemma ChainedIsAccepted(env: Env, records: seq<Record>)
    requires Chained(env.sha, records) && Dated(env.detailed, records)
    ensures Accepts(env, records)
  {
    forall i | 0 <= i < |records| && records[i].superseded.Some?
      ensures EdgeHolds(env.sha, records, i) && EdgeDated(env.detailed, records, i) && EndsInPass(records, i)
    {
      assert Link(env.sha, records[i], records[Target(records[i])]);
      var n := ChainEndsInPass(env.sha, records, i);
      assert StopsAt(records, i, n);
    }
  }

  /** A task that starts empty passes the validator after every run whose clock
      does not run backwards. */
  lemma RunsAreAccepted(env: Env, commands: seq<(Command, int)>, from: int)
    requires Ticking(commands, from)
    ensures Accepts(env, Run(env, [], commands))
  {
    RunKeepsChain(env, [], commands);
    RunKeepsDates(env, [], commands, from);
    ChainedIsAccepted(env, Run(env, [], commands));
  }

  // ----- the task that the commands update -----

  class VerificationTask {
    const env: Env
    var records: seq<Record>

    constructor (env: Env, records: seq<Record>)
      ensures this.env == env && this.records == records
    {
      this.env, this.records := env, records;
    }

    method AddVerification(category: string, status: Status, origins: seq<Ref>, body: string, now: int)
      modifies this
      ensures records == Step(env, old(records), Add(category, status, origins, body), now)
    {
      records := records + [NewRecord(category, status, origins, body, now)];
    }

    method VerificationSupersede(a: SupersedeArgs, now: int) returns (r: Result)
      modifies this
      ensures records == Step(env, old(records), Supersede(a), now)
      ensures r == match SupersedeError(env, old(records), a) case None => Done case Some(e) => Refused(e)
    {
      var i, j := a.source - 1, a.replacement - 1;
      if i < 0 || i >= |records| || j < 0 || j >= |records| || i == j {
        return Refused(BadIndices);
      }
      var source, replacement := records[i], records[j];
      if env.sha(source) != a.expectedSource {
        return Refused(SourceChanged);
      }
      if env.sha(replacement) != a.expectedReplacement {
        return Refused(ReplacementChanged);
      }
      if source.superseded.Some? {
        return Refused(AlreadySuperseded);
      }
      if !CanBeRetired(source.status) {
        return Refused(NotAccounted);
      }
      if !AllCanonical(replacement.refs) {
        return Refused(ReplacementNotMaterialized);
      }
      if !Later(source, replacement) || !replacement.status.Pass? {
        return Refused(NotALaterPass);
      }
      if !env.intact(replacement) {
        return Refused(ReplacementInvalid);
      }
      if !env.detailed(a.reason) {
        return Refused(NoReason);
      }
      var original := source.status;
      source := source.(status := Skipped);
      source := source.(superseded := Some(Edge(Some(now), Some(2), a.reason, original, Some(a.expectedSource), j + 1, a.expectedReplacement, None)));
      records := records[i := source];
      return Done;
    }

    /** The legacy artifacts of one record, unless one is unsupported. */
    method LegacyRefs(refs: seq<Ref>) returns (found: Option<seq<Ref>>)
      ensures found == if NoUnsupported(refs) then Some(LegacyOf(refs)) else None
    {
      var legacy: seq<Ref> := [];
      assert refs[0..] == refs;
      for k := 0 to |refs|
        invariant forall m | 0 <= m < k :: !refs[m].version.Unsupported?
        invariant legacy + LegacyOf(refs[k..]) == LegacyOf(refs)
      {
        assert refs[k..][1..] == refs[k + 1..];
        match refs[k].version {
          case Canonical =>
            assert [] + LegacyOf(refs[k + 1..]) == LegacyOf(refs[k + 1..]);
          case Unsupported =>
            return None;
          case Legacy =>
            assert legacy + ([refs[k]] + LegacyOf(refs[k + 1..])) == (legacy + [refs[k]]) + LegacyOf(refs[k + 1..]);
            legacy := legacy + [refs[k]];
        }
      }
      assert refs[|refs|..] == [] && legacy + [] == legacy;
      return Some(legacy);
    }

    /** Every file is checked, and their sizes are added up, before any is kept. */
    method CheckPlans(plans: seq<Ref>) returns (error: Option<Refusal>)
      ensures error == PlanError(env, plans, 0)
    {
      var total: nat := 0;
      assert plans[0..] == plans;
      for k := 0 to |plans|
        invariant PlanError(env, plans, 0) == PlanError(env, plans[k..], total)
      {
        assert plans[k..][1..] == plans[k + 1..];
        if !env.physical(plans[k]) {
          return Some(NotPhysical);
        }
        if total + plans[k].size > BOUND_ARTIFACT_TOTAL_MAX_BYTES {
          return Some(TooManyBytes);
        }
        total := total + plans[k].size;
      }
      return None;
    }

    method MaterializeArtifacts(selected: set<int>, packetRefs: seq<Ref>, now: int) returns (r: Result)
      modifies this
      ensures records == Step(env, old(records), Materialize(selected, packetRefs), now)
      ensures r == match MaterializeError(env, old(records), selected, packetRefs) case None => Done case Some(e) => Refused(e)
    {
      hide PlanError, Mark, LegacyOf, NoUnsupported;
      if exists i | i in selected :: i < 1 || i > |records| {
        return Refused(BadSelection);
      }
      var pending := if selected == {} then packetRefs else [];
      ghost var front := pending;
      for i := 0 to |records|
        invariant records == old(records)
        invariant forall k | 0 <= k < i && InScope(records, selected, k) :: NoUnsupported(records[k].refs)
        invariant pending + PendingFrom(records, selected, i) == front + PendingFrom(records, selected, 0)
      {
        if !InScope(records, selected, i) {
          assert [] + PendingFrom(records, selected, i + 1) == PendingFrom(records, selected, i + 1);
          continue;
        }
        var found := LegacyRefs(records[i].refs);
        if found.None? {
          return Refused(UnsupportedRef);
        }
        assert pending + (found.value + PendingFrom(records, selected, i + 1)) == (pending + found.value) + PendingFrom(records, selected, i + 1);
        pending := pending + found.value;
      }
      assert pending + [] == pending;
      assert pending == Plans(records, selected, packetRefs);
      if |pending| > BOUND_ARTIFACT_MAX_COUNT {
        return Refused(TooManyRefs);
      }
      var error := CheckPlans(pending);
      if error.Some? {
        return Refused(error.value);
      }
      if pending != [] {
        RetainAndMark(selected);
      }
      return Done;
    }

    /** Retains the artifacts in scope, then marks record by record. */
    method RetainAndMark(selected: set<int>)
      modifies this
      ensures records == Materialized(old(records), selected)
    {
      hide Mark, Canonized;
      for i := 0 to |records|
        invariant |records| == |old(records)|
        invariant forall k | 0 <= k < i :: records[k] == Retained(old(records), selected, k)
        invariant forall k | i <= k < |records| :: records[k] == old(records)[k]
      {
        if InScope(records, selected, i) {
          records := records[i := records[i].(refs := Canonized(records[i].refs))];
        }
      }
      for i := 0 to |records|
        invariant |records| == |old(records)|
        invariant forall k | 0 <= k < i :: records[k] == Mark(Retained(old(records), selected, k))
        invariant forall k | i <= k < |records| :: records[k] == Retained(old(records), selected, k)
      {
        records := records[i := Mark(records[i])];
      }
    }
  }
}
