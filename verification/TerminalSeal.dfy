/** Sealing a legacy supersession. On a finished task the seal takes three
    durable writes - the pending state, the checkpoint, the final state - and a
    crash may fall between any two of them. */
module TerminalSeal {
  import opened Wrappers
  import opened Supersession

  datatype TaskStatus = Active | Blocked | Done | Cancelled

  /** What the first write remembers so that a later run can finish. */
  datatype Migration = Migration(
    source: int, replacement: int,
    previousSha: Digest, preimageSha: Digest, beforeSha: Digest, currentSha: Digest,
    wasMaterialized: bool,
    pendingStateSha: Digest, targetCheckpointSha: Digest, targetStateSha: Digest)

  /** `body` holds the fields the seal never touches, the histories that a
      checkpoint is compacted against among them. */
  datatype TaskState = TaskState(
    status: TaskStatus,
    records: seq<Record>,
    revision: int,
    updatedAt: int,
    checkpointRequired: bool,
    checkpointRevision: int,
    checkpointSha: Option<Digest>,
    pending: Option<Migration>,
    body: string)

  /** The two durable cells of a task. */
  datatype Disk = Disk(state: TaskState, checkpoint: Option<string>)

  datatype SealArgs = SealArgs(
    source: int, replacement: int,
    currentSha: Digest, preimageSha: Digest, beforeSha: Digest, replacementSha: Digest)

  /** The rest of the program: digests, the checkpoint renderer (its second
      argument is the body of the durable state, None when the text would be too
      long), the integrity of one record, and of all of them but for edges that
      are still unsealed. */
  datatype Env = Env(
    recordSha: Record -> Digest,
    stateSha: TaskState -> Digest,
    textSha: string -> Digest,
    render: (TaskState, string) -> Option<string>,
    intact: Record -> bool,
    migrationClean: (seq<Record>, string) -> bool)

  datatype Refusal =
    | BadIndices | ReplayMismatch | CheckpointInvalid | Damaged
    | MigrationStateInvalid | PendingChanged | IdentityChanged | TargetChanged
    | SourceChanged | NotALegacyEdge | EdgeChanged | PreimageMismatch | ReplacementChanged
    | NotMaterialized | ReplacementSourceMismatch | LegacyPreimageMismatch | ReplacementInvalid
    | BadRelation | SealFailsValidation | CheckpointTooLarge

  datatype Write = PutState(state: TaskState) | PutCheckpoint(text: string)

  datatype Report = Report(terminal: bool, resumed: bool, alreadySealed: bool, wasMaterialized: bool)

  datatype Plan = Refuse(error: Refusal) | Commit(writes: seq<Write>, report: Report)

  // ----- the pieces of the command -----

  predicate Terminal(s: TaskState) {
    s.status.Done? || s.status.Cancelled?
  }

  predicate IndicesOk(s: TaskState, a: SealArgs) {
    1 <= a.source <= |s.records| && 1 <= a.replacement <= |s.records| && a.source != a.replacement
  }

  function Source(s: TaskState, a: SealArgs): Record
    requires IndicesOk(s, a)
  {
    s.records[a.source - 1]
  }

  function Replacement(s: TaskState, a: SealArgs): Record
    requires IndicesOk(s, a)
  {
    s.records[a.replacement - 1]
  }

  predicate WasMaterialized(s: TaskState, a: SealArgs)
    requires IndicesOk(s, a)
  {
    !IsSealed(Replacement(s, a)) && a.beforeSha != a.replacementSha
  }

  /** `verification_legacy_seal_preimage`: the record without what a seal adds. */
  function Unsealed(r: Record): Record {
    if r.superseded.None? then r
    else r.(superseded := Some(r.superseded.value.(version := None, sourceSha := None, materialization := None)))
  }

  predicate CheckpointMatches(env: Env, d: Disk) {
    && !d.state.checkpointRequired
    && d.state.checkpointRevision == d.state.revision
    && d.state.checkpointSha.Some?
    && d.checkpoint.Some?
    && env.textSha(d.checkpoint.value) == d.state.checkpointSha.value
  }

  function SealedSource(r: Record, a: SealArgs, materialized: bool, now: int): Record
    requires r.superseded.Some?
  {
    r.(superseded := Some(r.superseded.value.(
      version := Some(2),
      sourceSha := Some(a.preimageSha),
      materialization := if materialized then Some(Materialization(a.beforeSha, a.replacementSha, Some(now))) else None)))
  }

  function Bumped(s: TaskState, now: int): TaskState {
    s.(revision := s.revision + 1, updatedAt := now, checkpointRequired := true)
  }

  /** The finished state but for the digest of its checkpoint. */
  function Finished(s: TaskState): TaskState {
    s.(pending := None, checkpointRequired := false, checkpointRevision := s.revision)
  }

  // ----- the three ways the command goes -----

  /** A finished task whose source is already sealed: only a check. */
  function Replay(env: Env, d: Disk, a: SealArgs): Plan
    requires IndicesOk(d.state, a) && Source(d.state, a).superseded.Some?
  {
    var s, source, replacement := d.state, Source(d.state, a), Replacement(d.state, a);
    var edge := source.superseded.value;
    if env.recordSha(Unsealed(source)) != a.currentSha
       || edge.sourceSha != Some(a.preimageSha)
       || edge.replacement != a.replacement
       || edge.replacementSha != a.beforeSha
       || env.recordSha(replacement) != a.replacementSha then Refuse(ReplayMismatch)
    else if WasMaterialized(s, a) && (edge.materialization.None?
       || edge.materialization.value.fromSha != a.beforeSha
       || edge.materialization.value.toSha != a.replacementSha) then Refuse(ReplayMismatch)
    else if !WasMaterialized(s, a) && edge.materialization.Some? then Refuse(ReplayMismatch)
    else if !CheckpointMatches(env, d) then Refuse(CheckpointInvalid)
    else if !env.migrationClean(s.records, s.body) then Refuse(Damaged)
    else Commit([], Report(true, true, true, WasMaterialized(s, a)))
  }

  /** A pending migration: check that it is this one, and write what is left. */
  function Resume(env: Env, d: Disk, a: SealArgs): Plan
    requires IndicesOk(d.state, a) && d.state.pending.Some?
  {
    var s, m, source := d.state, d.state.pending.value, Source(d.state, a);
    if !Terminal(s)
       || m.source != a.source || m.replacement != a.replacement
       || m.previousSha != a.currentSha || m.preimageSha != a.preimageSha
       || m.beforeSha != a.beforeSha || m.currentSha != a.replacementSha
       || m.wasMaterialized != WasMaterialized(s, a)
       || !s.checkpointRequired || s.checkpointRevision != s.revision - 1 then Refuse(MigrationStateInvalid)
    else if env.stateSha(s.(pending := None)) != m.pendingStateSha then Refuse(PendingChanged)
    else if !IsSealed(source)
       || source.superseded.value.sourceSha != Some(a.preimageSha)
       || source.superseded.value.replacement != a.replacement
       || source.superseded.value.replacementSha != a.beforeSha then Refuse(IdentityChanged)
    else if !env.migrationClean(s.records, s.body) then Refuse(Damaged)
    else
      var text := env.render(Finished(s), s.body);
      if text.None? then Refuse(CheckpointTooLarge)
      else if env.textSha(text.value) != m.targetCheckpointSha then Refuse(TargetChanged)
      else
        var final := Finished(s).(checkpointSha := Some(env.textSha(text.value)));
        if env.stateSha(final) != m.targetStateSha then Refuse(TargetChanged)
        else Commit([PutCheckpoint(text.value), PutState(final)], Report(true, true, false, m.wasMaterialized))
  }

  /** Why a fresh seal is refused before anything is staged. */
  function FreshError(env: Env, d: Disk, a: SealArgs): Option<Refusal>
    requires IndicesOk(d.state, a)
  {
    var s, source, replacement := d.state, Source(d.state, a), Replacement(d.state, a);
    if Terminal(s) && !CheckpointMatches(env, d) then Some(CheckpointInvalid)
    else if Terminal(s) && !env.migrationClean(s.records, s.body) then Some(Damaged)
    else if env.recordSha(source) != a.currentSha then Some(Refusal.SourceChanged)
    else if source.superseded.None? || IsSealed(source) then Some(NotALegacyEdge)
    else if source.superseded.value.replacement != a.replacement
       || source.superseded.value.replacementSha != a.beforeSha then Some(EdgeChanged)
    else if env.recordSha(Preimage(source)) != a.preimageSha then Some(PreimageMismatch)
    else if env.recordSha(replacement) != a.replacementSha then Some(Refusal.ReplacementChanged)
    else if !AllCanonical(replacement.refs) then Some(NotMaterialized)
    else if IsSealed(replacement) && replacement.superseded.value.sourceSha != Some(a.beforeSha) then Some(ReplacementSourceMismatch)
    else if WasMaterialized(s, a)
       && (LegacyPreimage(replacement).None? || env.recordSha(LegacyPreimage(replacement).value) != a.beforeSha) then Some(LegacyPreimageMismatch)
    else if !env.intact(replacement) then Some(Refusal.ReplacementInvalid)
    else if !(replacement.status.Pass? || (IsSealed(replacement) && replacement.status.Skipped?))
       || !Later(source, replacement) then Some(Refusal.BadRelation)
    else None
  }

  /** The task with the source sealed, not yet written. */
  function Staged(s: TaskState, a: SealArgs, now: int): TaskState
    requires IndicesOk(s, a) && Source(s, a).superseded.Some?
  {
    s.(records := s.records[a.source - 1 := SealedSource(Source(s, a), a, WasMaterialized(s, a), now)])
  }

  function Fresh(env: Env, d: Disk, a: SealArgs, now: int): Plan
    requires IndicesOk(d.state, a)
  {
    var s := d.state;
    if FreshError(env, d, a).Some? then Refuse(FreshError(env, d, a).value)
    else
      var staged := Staged(s, a, now);
      if !env.migrationClean(staged.records, staged.body) then Refuse(SealFailsValidation)
      else
        var bumped := Bumped(staged, now);
        if !Terminal(s) then Commit([PutState(bumped)], Report(false, false, false, WasMaterialized(s, a)))
        else
          var text := env.render(Finished(bumped), s.body);
          if text.None? then Refuse(CheckpointTooLarge)
          else
            var final := Finished(bumped).(checkpointSha := Some(env.textSha(text.value)));
            var pending := bumped.(pending := Some(Migration(
              a.source, a.replacement, a.currentSha, a.preimageSha, a.beforeSha, a.replacementSha,
              WasMaterialized(s, a), env.stateSha(bumped), env.textSha(text.value), env.stateSha(final))));
            Commit([PutState(pending), PutCheckpoint(text.value), PutState(final)],
                   Report(true, false, false, WasMaterialized(s, a)))
  }

  function PlanSeal(env: Env, d: Disk, a: SealArgs, now: int): Plan {
    if !IndicesOk(d.state, a) then Refuse(Refusal.BadIndices)
    else if d.state.pending.None? && Terminal(d.state) && IsSealed(Source(d.state, a)) then Replay(env, d, a)
    else if d.state.pending.Some? then Resume(env, d, a)
    else Fresh(env, d, a, now)
  }

  // ----- runs that may crash -----

  function Put(d: Disk, w: Write): Disk {
    match w
    case PutState(state) => d.(state := state)
    case PutCheckpoint(text) => d.(checkpoint := Some(text))
  }

  /** The disk after as many of the writes as the run lived for. */
  function Apply(d: Disk, writes: seq<Write>, budget: nat): Disk
    decreases |writes|
  {
    if writes == [] || budget == 0 then d else Apply(Put(d, writes[0]), writes[1..], budget - 1)
  }

  /** One run of the command: it starts at `now` and survives `budget` writes. */
  datatype Attempt = Attempt(now: int, budget: nat)

  function Once(env: Env, d: Disk, a: SealArgs, t: Attempt): Disk {
    match PlanSeal(env, d, a, t.now)
    case Refuse(_) => d
    case Commit(writes, _) => Apply(d, writes, t.budget)
  }

  function Runs(env: Env, d: Disk, a: SealArgs, attempts: seq<Attempt>): Disk
    decreases |attempts|
  {
    if attempts == [] then d else Runs(env, Once(env, d, a, attempts[0]), a, attempts[1..])
  }

  /** What a run that is never interrupted leaves. */
  function Uninterrupted(env: Env, d: Disk, a: SealArgs, now: int): Disk {
    Once(env, d, a, Attempt(now, 3))
  }

  /** A finished task before its first seal of this edge wrote anything. */
  predicate Pristine(d: Disk, a: SealArgs) {
    IndicesOk(d.state, a) && Terminal(d.state) && d.state.pending.None? && !IsSealed(Source(d.state, a))
  }

  predicate Starts(env: Env, d: Disk, a: SealArgs, now: int) {
    PlanSeal(env, d, a, now).Commit?
  }

  /** Every write of a started seal, by how many of them happened. */
  function Stage(env: Env, d: Disk, a: SealArgs, now: int, k: nat): Disk {
    Once(env, d, a, Attempt(now, k))
  }

  lemma StagesAre(env: Env, d: Disk, a: SealArgs, now: int)
    requires Pristine(d, a) && Starts(env, d, a, now)
    ensures Stage(env, d, a, now, 0) == d
    ensures var bumped := Bumped(Staged(d.state, a, now), now);
      && env.render(Finished(bumped), d.state.body).Some?
      && var text := env.render(Finished(bumped), d.state.body).value;
      var final := Finished(bumped).(checkpointSha := Some(env.textSha(text)));
      && Stage(env, d, a, now, 1).checkpoint == d.checkpoint
      && Stage(env, d, a, now, 2) == Disk(Stage(env, d, a, now, 1).state, Some(text))
      && Stage(env, d, a, now, 3) == Disk(final, Some(text))
    ensures forall k: nat | k >= 3 :: Stage(env, d, a, now, k) == Stage(env, d, a, now, 3)
  {
    var writes := PlanSeal(env, d, a, now).writes;
    assert |writes| == 3;
    ApplyThree(d, writes);
  }

  lemma ApplyThree(d: Disk, writes: seq<Write>)
    requires |writes| == 3
    ensures Apply(d, writes, 0) == d
    ensures Apply(d, writes, 1) == Put(d, writes[0])
    ensures Apply(d, writes, 2) == Put(Put(d, writes[0]), writes[1])
    ensures forall k: nat | k >= 3 :: Apply(d, writes, k) == Put(Put(Put(d, writes[0]), writes[1]), writes[2])
  {
    var one, two := Put(d, writes[0]), Put(Put(d, writes[0]), writes[1]);
    assert writes[1..][1..] == [writes[2]] && [writes[2]][1..] == [];
    forall k: nat | k >= 1
      ensures Apply(d, writes, k) == Apply(one, writes[1..], k - 1)
      ensures k >= 2 ==> Apply(one, writes[1..], k - 1) == Apply(two, [writes[2]], k - 2)
      ensures k >= 3 ==> Apply(two, [writes[2]], k - 2) == Put(two, writes[2])
    {
    }
  }

  lemma ApplyTwo(d: Disk, writes: seq<Write>)
    requires |writes| == 2
    ensures Apply(d, writes, 0) == d
    ensures Apply(d, writes, 1) == Put(d, writes[0])
    ensures forall k: nat | k >= 2 :: Apply(d, writes, k) == Put(Put(d, writes[0]), writes[1])
  {
    assert writes[1..] == [writes[1]] && [writes[1]][1..] == [];
    forall k: nat | k >= 1
      ensures Apply(d, writes, k) == Apply(Put(d, writes[0]), [writes[1]], k - 1)
      ensures k >= 2 ==> Apply(Put(d, writes[0]), [writes[1]], k - 1) == Put(Put(d, writes[0]), writes[1])
    {
    }
  }

  // ----- from each stage, any later run -----

  /** How far a run gets that finds k of the writes done. */
  function After(k: nat, budget: nat): nat {
    if k >= 3 || budget == 0 then k else if budget == 1 then 2 else 3
  }

  lemma StageResumes(env: Env, d: Disk, a: SealArgs, now: int, k: nat, t: Attempt)
    requires Pristine(d, a) && Starts(env, d, a, now) && 1 <= k <= 2
    ensures Once(env, Stage(env, d, a, now, k), a, t) == Stage(env, d, a, now, After(k, t.budget))
  {
    StagesAre(env, d, a, now);
    var at := Stage(env, d, a, now, k);
    var bumped := Bumped(Staged(d.state, a, now), now);
    assert at.state == PlanSeal(env, d, a, now).writes[0].state by {
      ApplyThree(d, PlanSeal(env, d, a, now).writes);
    }
    assert at.state.(pending := None) == bumped;
    assert Finished(at.state) == Finished(bumped);
    ResumePlan(env, d, a, now, at, t.now);
    ApplyTwo(at, PlanSeal(env, at, a, t.now).writes);
  }

  /** A later run recomputes exactly the writes the first run had left to do. */
  lemma ResumePlan(env: Env, d: Disk, a: SealArgs, now: int, at: Disk, later: int)
    requires Pristine(d, a) && Starts(env, d, a, now)
    requires at.state == PlanSeal(env, d, a, now).writes[0].state
    ensures PlanSeal(env, at, a, later).Commit?
    ensures PlanSeal(env, at, a, later).writes == PlanSeal(env, d, a, now).writes[1..]
  {
    var bumped := Bumped(Staged(d.state, a, now), now);
    assert at.state.(pending := None) == bumped;
    assert Finished(at.state) == Finished(bumped);
    assert Replacement(at.state, a) == Replacement(d.state, a);
  }

  lemma FinalStageStays(env: Env, d: Disk, a: SealArgs, now: int, t: Attempt)
    requires Pristine(d, a) && Starts(env, d, a, now)
    ensures Once(env, Stage(env, d, a, now, 3), a, t) == Stage(env, d, a, now, 3)
  {
    StagesAre(env, d, a, now);
  }

  lemma {:induction false} RunsFromStage(env: Env, d: Disk, a: SealArgs, now: int, k: nat, attempts: seq<Attempt>)
    returns (end: nat)
    requires Pristine(d, a) && Starts(env, d, a, now) && 1 <= k <= 3
    ensures k <= end <= 3 && Runs(env, Stage(env, d, a, now, k), a, attempts) == Stage(env, d, a, now, end)
    ensures (exists i | 0 <= i < |attempts| :: attempts[i].budget >= 2) ==> end == 3
    decreases |attempts|
  {
    end := k;
    if attempts != [] {
      if k < 3 {
        StageResumes(env, d, a, now, k, attempts[0]);
      } else {
        FinalStageStays(env, d, a, now, attempts[0]);
      }
      end := RunsFromStage(env, d, a, now, After(k, attempts[0].budget), attempts[1..]);
      if i :| 0 <= i < |attempts| && attempts[i].budget >= 2 {
        assert i > 0 ==> attempts[1..][i - 1].budget >= 2;
      }
    }
  }

  predicate WouldWrite(env: Env, d: Disk, a: SealArgs, t: Attempt) {
    t.budget > 0 && Starts(env, d, a, t.now)
  }

  /** The first run that wrote anything. */
  predicate FirstWriter(env: Env, d: Disk, a: SealArgs, attempts: seq<Attempt>, i: nat) {
    && i < |attempts| && WouldWrite(env, d, a, attempts[i])
    && forall j | 0 <= j < i :: !WouldWrite(env, d, a, attempts[j])
  }

  lemma StageIsOnce(env: Env, d: Disk, a: SealArgs, t: Attempt)
    ensures Once(env, d, a, t) == Stage(env, d, a, t.now, t.budget)
  {
  }

  /** Whatever crashes, the disk holds a prefix of the writes of one plan: the
      one made by the first run that wrote. */
  lemma {:induction false} RunsReachOneStage(env: Env, d: Disk, a: SealArgs, attempts: seq<Attempt>) returns (i: nat, k: nat)
    requires Pristine(d, a)
    ensures i < |attempts| ==>
      && FirstWriter(env, d, a, attempts, i) && 1 <= k <= 3
      && Runs(env, d, a, attempts) == Stage(env, d, a, attempts[i].now, k)
      && (attempts[|attempts| - 1].budget >= 3 ==> k == 3)
    ensures i == |attempts| ==>
      Runs(env, d, a, attempts) == d && forall j | 0 <= j < |attempts| :: !WouldWrite(env, d, a, attempts[j])
    ensures i <= |attempts|
    decreases |attempts|
  {
    hide PlanSeal, Pristine, Stage;
    i, k := 0, 0;
    if attempts != [] {
      var t := attempts[0];
      if WouldWrite(env, d, a, t) {
        var reached := if t.budget >= 3 then 3 else t.budget;
        StagesAre(env, d, a, t.now);
        StageIsOnce(env, d, a, t);
        k := RunsFromStage(env, d, a, t.now, reached, attempts[1..]);
        assert |attempts| > 1 ==> attempts[1..][|attempts| - 2] == attempts[|attempts| - 1];
      } else {
        assert Once(env, d, a, t) == d;
        i, k := RunsReachOneStage(env, d, a, attempts[1..]);
        assert i < |attempts[1..]| ==> attempts[1..][i] == attempts[i + 1];
        i := i + 1;
        forall j | 0 <= j < |attempts| && j < i ensures !WouldWrite(env, d, a, attempts[j]) {
          assert j > 0 ==> attempts[j] == attempts[1..][j - 1];
        }
      }
    }
  }

  /** For every sequence of crashed runs, a last run that is not interrupted ends
      in exactly the state and checkpoint of a single uninterrupted run, made at
      the time of the first run that wrote. */
  lemma CrashesConverge(env: Env, d: Disk, a: SealArgs, attempts: seq<Attempt>) returns (i: nat)
    requires Pristine(d, a) && attempts != [] && attempts[|attempts| - 1].budget >= 3
    requires exists j | 0 <= j < |attempts| :: WouldWrite(env, d, a, attempts[j])
    ensures FirstWriter(env, d, a, attempts, i)
    ensures Runs(env, d, a, attempts) == Uninterrupted(env, d, a, attempts[i].now)
  {
    var k;
    i, k := RunsReachOneStage(env, d, a, attempts);
  }

  /** Replaying a finished seal changes nothing, however often. */
  lemma {:induction false} ReplaysChangeNothing(env: Env, d: Disk, a: SealArgs, now: int, attempts: seq<Attempt>)
    requires Pristine(d, a) && Starts(env, d, a, now)
    ensures Runs(env, Uninterrupted(env, d, a, now), a, attempts) == Uninterrupted(env, d, a, now)
    decreases |attempts|
  {
    if attempts != [] {
      FinalStageStays(env, d, a, now, attempts[0]);
      ReplaysChangeNothing(env, d, a, now, attempts[1..]);
    }
  }

  /** A legacy edge that carries none of the fields a seal adds. */
  predicate CarriesNothing(e: Edge) {
    e.version.None? && e.sourceSha.None? && e.materialization.None?
  }

  /** Replay is meant to succeed. It compares the supplied digest of the legacy
      record with the digest of the record stripped of what a seal adds, so it
      succeeds if and only if the legacy record carried none of that before. */
  lemma ReplaySucceedsIff(env: Env, d: Disk, a: SealArgs, now: int, later: int)
    requires Pristine(d, a) && Starts(env, d, a, now)
    requires forall r, s | env.recordSha(r) == env.recordSha(s) :: r == s
    ensures Source(d.state, a).superseded.Some?
    ensures PlanSeal(env, Uninterrupted(env, d, a, now), a, later).Commit? <==>
            CarriesNothing(Source(d.state, a).superseded.value)
  {
    StagesAre(env, d, a, now);
    var source, final := Source(d.state, a), Uninterrupted(env, d, a, now);
    assert Unsealed(Source(final.state, a)) == Unsealed(source);
    assert Replacement(final.state, a) == Replacement(d.state, a);
    assert Unsealed(source) == source <==> CarriesNothing(source.superseded.value);
  }

  function ExampleReplacement(): Record {
    Record("unit_test", Pass, Some(2), [], None, "", None)
  }

  /** A legacy edge already numbered as version 1. */
  function ExampleSource(env: Env, reason: string): Record {
    Record("unit_test", Skipped, Some(1), [], None, "",
           Some(Edge(Some(3), Some(1), reason, Pass, None, 2, env.recordSha(ExampleReplacement()), None)))
  }

  function ExampleDisk(env: Env, reason: string): Disk {
    Disk(TaskState(TaskStatus.Done, [ExampleSource(env, reason), ExampleReplacement()], 1, 0, false, 1, Some(env.textSha("")), None, ""), Some(""))
  }

  function ExampleArgs(env: Env, reason: string): SealArgs {
    var sha := env.recordSha(ExampleReplacement());
    SealArgs(1, 2, env.recordSha(ExampleSource(env, reason)), env.recordSha(Preimage(ExampleSource(env, reason))), sha, sha)
  }

  /** That edge can be sealed, but the replay of its seal is refused. */
  lemma NumberedLegacyEdgeCannotBeReplayed(env: Env, reason: string, now: int, later: int)
    requires forall r, s | env.recordSha(r) == env.recordSha(s) :: r == s
    requires env.intact(ExampleReplacement()) && forall s, b :: env.render(s, b).Some?
    requires var (d, a) := (ExampleDisk(env, reason), ExampleArgs(env, reason));
      env.migrationClean(d.state.records, d.state.body) && env.migrationClean(Staged(d.state, a, now).records, d.state.body)
    ensures var (d, a) := (ExampleDisk(env, reason), ExampleArgs(env, reason));
      Starts(env, d, a, now) && PlanSeal(env, Uninterrupted(env, d, a, now), a, later).Refuse?
  {
    var d, a := ExampleDisk(env, reason), ExampleArgs(env, reason);
    assert FreshError(env, d, a).None?;
    ReplaySucceedsIff(env, d, a, now, later);
  }

  /** Before, during and after the migration, a run with any other digest for
      the same two records writes nothing. */
  lemma OtherDigestsWriteNothing(env: Env, d: Disk, a: SealArgs, now: int, k: nat, other: SealArgs, t: Attempt)
    requires Pristine(d, a) && Starts(env, d, a, now) && k <= 3
    requires other.source == a.source && other.replacement == a.replacement && other != a
    ensures Once(env, Stage(env, d, a, now, k), other, t) == Stage(env, d, a, now, k)
  {
    StagesAre(env, d, a, now);
    var at := Stage(env, d, a, now, k);
    if k == 1 || k == 2 {
      assert at.state == PlanSeal(env, d, a, now).writes[0].state by {
        ApplyThree(d, PlanSeal(env, d, a, now).writes);
      }
    }
  }

  /** On an open task the seal is one write, and a rerun is refused. */
  lemma OpenSealIsOneWrite(env: Env, d: Disk, a: SealArgs, t: Attempt, again: Attempt)
    requires IndicesOk(d.state, a) && !Terminal(d.state) && d.state.pending.None?
    requires Starts(env, d, a, t.now) && t.budget > 0
    ensures PlanSeal(env, d, a, t.now).writes == [PutState(Bumped(Staged(d.state, a, t.now), t.now))]
    ensures Once(env, Once(env, d, a, t), a, again) == Once(env, d, a, t)
  {
    var w := PlanSeal(env, d, a, t.now).writes;
    assert w[1..] == [];
    assert Apply(d, w, t.budget) == Apply(Put(d, w[0]), w[1..], t.budget - 1);
    assert Once(env, d, a, t) == Put(d, w[0]);
  }

  /** A sealed edge is one the validator of verification records accepts if and only
      if the status it retired was an accounted one; the seal itself leaves that to
      the integrity checks. */
  lemma SealedEdgeHoldsIff(env: Env, d: Disk, a: SealArgs, now: int)
    requires IndicesOk(d.state, a) && FreshError(env, d, a).None?
    ensures EdgeHolds(env.recordSha, Staged(d.state, a, now).records, a.source - 1) <==>
            CanBeRetired(Source(d.state, a).superseded.value.originalStatus)
  {
    var source := Source(d.state, a);
    var sealed := SealedSource(source, a, WasMaterialized(d.state, a), now);
    assert Preimage(sealed) == Preimage(source);
  }

  // ----- the command on a live task directory -----

  datatype Answer = Sealed(report: Report) | Rejected(error: Refusal) | Crashed

  class TaskStore {
    const env: Env
    var state: TaskState
    var checkpoint: Option<string>
    /** How many more writes this process lives for. */
    var budget: nat

    constructor (env: Env, state: TaskState, checkpoint: Option<string>, budget: nat)
      ensures this.env == env && Contents() == Disk(state, checkpoint) && this.budget == budget
    {
      this.env, this.state, this.checkpoint, this.budget := env, state, checkpoint, budget;
    }

    function Contents(): Disk
      reads this
    {
      Disk(state, checkpoint)
    }

    method WriteTask(s: TaskState) returns (alive: bool)
      modifies this
      ensures alive == (old(budget) > 0)
      ensures alive ==> Contents() == Put(old(Contents()), PutState(s)) && budget == old(budget) - 1
      ensures !alive ==> Contents() == old(Contents()) && budget == 0
    {
      alive := budget > 0;
      if alive {
        state, budget := s, budget - 1;
      }
    }

    method WriteCheckpoint(text: string) returns (alive: bool)
      modifies this
      ensures alive == (old(budget) > 0)
      ensures alive ==> Contents() == Put(old(Contents()), PutCheckpoint(text)) && budget == old(budget) - 1
      ensures !alive ==> Contents() == old(Contents()) && budget == 0
    {
      alive := budget > 0;
      if alive {
        checkpoint, budget := Some(text), budget - 1;
      }
    }

    method VerificationSupersessionSeal(a: SealArgs, now: int) returns (answer: Answer)
      modifies this
      ensures Contents() == Once(env, old(Contents()), a, Attempt(now, old(budget)))
      ensures answer == match PlanSeal(env, old(Contents()), a, now)
                        case Refuse(error) => Rejected(error)
                        case Commit(writes, report) => if |writes| <= old(budget) then Sealed(report) else Crashed
    {
      if !IndicesOk(state, a) {
        return Rejected(Refusal.BadIndices);
      }
      if state.pending.None? && Terminal(state) && IsSealed(Source(state, a)) {
        var plan := Replay(env, Contents(), a);
        return if plan.Refuse? then Rejected(plan.error) else Sealed(plan.report);
      }
      if state.pending.Some? {
        answer := ResumeSeal(a);
      } else {
        answer := FreshSeal(a, now);
      }
    }

    method ResumeSeal(a: SealArgs) returns (answer: Answer)
      requires IndicesOk(state, a) && state.pending.Some?
      modifies this
      ensures match Resume(env, old(Contents()), a)
              case Refuse(error) => answer == Rejected(error) && Contents() == old(Contents())
              case Commit(writes, report) =>
                && Contents() == Apply(old(Contents()), writes, old(budget))
                && answer == if |writes| <= old(budget) then Sealed(report) else Crashed
    {
      var plan := Resume(env, Contents(), a);
      if plan.Refuse? {
        return Rejected(plan.error);
      }
      ApplyTwo(Contents(), plan.writes);
      var alive := WriteCheckpoint(plan.writes[0].text);
      if !alive {
        return Crashed;
      }
      alive := WriteTask(plan.writes[1].state);
      return if alive then Sealed(plan.report) else Crashed;
    }

    method FreshSeal(a: SealArgs, now: int) returns (answer: Answer)
      requires IndicesOk(state, a) && state.pending.None?
      modifies this
      ensures match Fresh(env, old(Contents()), a, now)
              case Refuse(error) => answer == Rejected(error) && Contents() == old(Contents())
              case Commit(writes, report) =>
                && Contents() == Apply(old(Contents()), writes, old(budget))
                && answer == if |writes| <= old(budget) then Sealed(report) else Crashed
    {
      ghost var plan, was, lived := Fresh(env, Contents(), a, now), Contents(), budget;
      var error := FreshError(env, Contents(), a);
      if error.Some? {
        return Rejected(error.value);
      }
      var materialized, terminal := WasMaterialized(state, a), Terminal(state);
      var staged := Staged(state, a, now);
      if !env.migrationClean(staged.records, staged.body) {
        return Rejected(SealFailsValidation);
      }
      var bumped := Bumped(staged, now);
      if !terminal {
        assert plan.writes[1..] == [];
        assert Apply(was, plan.writes, lived) == if lived == 0 then was else Put(was, plan.writes[0]);
        var alive := WriteTask(bumped);
        return if alive then Sealed(Report(false, false, false, materialized)) else Crashed;
      }
      var text := env.render(Finished(bumped), state.body);
      if text.None? {
        return Rejected(CheckpointTooLarge);
      }
      var final := Finished(bumped).(checkpointSha := Some(env.textSha(text.value)));
      var pending := bumped.(pending := Some(Migration(
        a.source, a.replacement, a.currentSha, a.preimageSha, a.beforeSha, a.replacementSha,
        materialized, env.stateSha(bumped), env.textSha(text.value), env.stateSha(final))));
      assert plan.writes == [PutState(pending), PutCheckpoint(text.value), PutState(final)];
      ApplyThree(was, plan.writes);
      var alive := WriteTask(pending);
      if !alive {
        return Crashed;
      }
      alive := WriteCheckpoint(text.value);
      if !alive {
        return Crashed;
      }
      alive := WriteTask(final);
      return if alive then Sealed(Report(true, false, false, materialized)) else Crashed;
    }
  }
}
