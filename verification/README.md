# Verification of the AOI governance runtime

AOI keeps governance state in ledgers, create-only stores and guarded
transitions. Its strongest claims are about every run, every crash point, or
every interleaving with another writer. This project models the code behind
those claims and proves them, or proves exactly when they hold where the code
does not keep them always. `dafny verify dfyconfig.toml` checks everything.

| files | what they model |
|---|---|
| `FragmentSnapshots`, `SnapshotEncoding` | snapshots of the raw coverage directory, the verdict on them, and the bytes their digest hashes |
| `FragmentQuiescence` | the bounded retry loop that seals such a directory while other processes may change it |
| `MeasuredPaths`, `CombineFragments` | the contract on measured paths; the union of the sealed fragments and its publication with rollback |
| `Supersession`, `TerminalSeal` | verification records with their hash chain; the crash-resumable seal of a legacy edge in a finished task |
| `TaskLedger`, `TaskInvariants`, `SessionLedger`, `LedgerRuns`, `LedgerHistory`, `ArmHomes`, `LedgerCommands` | packets, arms, jobs and session mappings: the commands, their invariants, and runs of them |
| `ReceiptStore` | the create-only receipt store with its generations |
| `Provenance` | replacing the Codex hook pair and its provenance receipt |
| `BootstrapInstall` | the two exclusive creates of the bootstrap installer under fault injection |
| `ProducerForest`, `ForkChild` | coverage producers across fresh starts and forks; one interpreter's start and exit |
| `Compaction` | history projection, policy and the choice of the checkpoint text |
| `GraphCopy` | detaching a checkpoint state from an object graph |
| `ReceiptChain` | the one-pass audit of the codebase-memory receipt chain |
| `ChiefOptions` | hoisting the Chief's global options |

Code that changes things step by step is modelled by classes with loops and
field updates; each method is tied to a function of the old state, and the
properties are proved about those functions over all inputs and all runs.
Another process is an arbitrary function of time (a `World`), a crash is a
budget of writes, a fault is an arbitrary schedule. SHA-256 over canonical
bytes is an uninterpreted function, required to be injective only by the
lemmas that say so. Times are integers or reals; clock readings, randomness and
the guards of code outside this model are inputs.

## Where the code does less than it is meant to

Each point has a concrete input and an exact condition.

- A link that combine has published stays behind when the directory cannot be
  walked afterwards, or is found changed and the link cannot be unlinked. With
  exactly 8192 sealed fragments it stays every time, because the link itself
  exceeds the bound (`CombineFragments.Combiner.Publish`,
  `CombineFragments.Combiner.CombineFragments`,
  `CombineFragments.FullSetLeavesItsLink`).
- `materialize-artifacts` marks every record whose artifacts are all retained,
  superseded ones included, and so changes digests that edges have pinned
  (`Supersession.MaterializeKeepsChainIff`,
  `Supersession.MaterializationCanBreakTheChain`).
- `verification-supersede` never compares the present time with the
  replacement's, but the validator wants that order
  (`Supersession.SupersedeKeepsDatesIff`, `Supersession.SlowClockBreaksTheDates`).
- The replay of a completed terminal seal is refused when the legacy record
  carried a field that sealing adds (`TerminalSeal.ReplaySucceedsIff`,
  `TerminalSeal.NumberedLegacyEdgeCannotBeReplayed`).
- The slot check of `packet-arm` looks at its own task, and a session can be moved
  off its arms: by a forced rebind, or by an unbind followed by a plain bind. One
  parent session can then have the same slot armed in two tasks. Arming keeps
  slots exclusive if and only if no other task holds an overlapping one
  (`ArmHomes.ArmSharesNoSlotIff`, `ArmHomes.RunKeepsSlotsApartIff`,
  `ArmHomes.ForcedRebindSharesASlot`, `ArmHomes.UnbindAndBindSharesASlot`).
- A receipt rotation that is already committed is not replayed while a later one is
  pending (`ReceiptStore.ReplayedRotationIff`,
  `ReceiptStore.PendingRotationStopsTheReplay`).
- With sixteen archived receipts and another one current, no candidate is ever
  installed (`Provenance.CandidateReachedIff`,
  `Provenance.NoEighteenthReceipt`).
- A create that takes effect but fails before its path is registered leaves a
  file that nothing names, and `install` that cannot print its record leaves the
  receipt unnamed (`BootstrapInstall.Machine.Install`,
  `BootstrapInstall.Machine.MainInstall`,
  `BootstrapInstall.LateCreateGoesUnnamed`).
- `prepare_checkpoint` derives its policy only under the state lock and with a state
  file on disk; otherwise new entries can be compacted away
  (`Compaction.PrepareCheckpoint`, `Compaction.UnguardedViewIff`,
  `Compaction.UnlockedCheckpointHidesNewEntries`).
- A receipt with an empty id cannot be superseded, so a linear history with one
  in its middle is reported (`ReceiptChain.NoErrorsIffLinear`,
  `ReceiptChain.EmptyIdDefeatsTheAudit`).
- A dangling Chief option swallows the command word after hoisting
  (`ChiefOptions.CommandIsKeptIff`, `ChiefOptions.DanglingOptionHidesTheCommand`).
- The docstring of `select_checkpoint_text` says that a valid smaller full view
  is never replaced; the code replaces it by a larger compact view that fits.
  The model follows the code (`Compaction.SmallerFullViewIsKeptIff`,
  `Compaction.LargerCompactViewReplacesFullView`).

## Model

| member | source | states |
|---|---|---|
| FragmentSnapshots.SortIsSorted | scripts/coverage_fragment_quiescence.py:143-174 | sorting a walk by name bytes gives a strictly ascending list of exactly the members that were found |
| FragmentSnapshots.SortedIsUnique | scripts/coverage_fragment_quiescence.py:172-174 | there is only one such list, so the order in which a directory was walked leaves no trace |
| FragmentSnapshots.ProblemsAreComplaints | scripts/coverage_fragment_quiescence.py:244-271 | a problem is reported if and only if it is the first complaint about some member |
| FragmentSnapshots.SnapshotProblems | scripts/coverage_fragment_quiescence.py:244-271 | the loop reports one first complaint per faulty member, in order |
| FragmentSnapshots.VerdictMeaning | scripts/coverage_fragment_quiescence.py:278-318 | a set is clean iff it is non-empty, within the bounds of count and bytes and all its members are readable fragments; it is worth a retry iff every fault in it may still heal; a final refusal names a fault no writer will heal |
| SnapshotEncoding.BigEndianRoundTrip | scripts/coverage_fragment_quiescence.py:176-181 | a length below 256^width is recovered from its big-endian bytes |
| SnapshotEncoding.DecimalRoundTrip | scripts/coverage_fragment_quiescence.py:179-181 | a number is recovered from its decimal digits |
| SnapshotEncoding.IdentityDigits | scripts/coverage_fragment_quiescence.py:35 | an identity value up to 2^127-1 has at most 39 digits, so its two-byte length never overflows |
| SnapshotEncoding.FieldPrefixFree | scripts/coverage_fragment_quiescence.py:176-181 | two length-prefixed fields followed by anything agree only if field and rest agree |
| SnapshotEncoding.EntryPrefixFree | scripts/coverage_fragment_quiescence.py:175-181 | no encoded member continues another one |
| SnapshotEncoding.EntriesInjective | scripts/coverage_fragment_quiescence.py:169-182 | equal encodings of two valid member lists come from equal lists |
| SnapshotEncoding.EncodingDecidesSnapshots | scripts/coverage_fragment_quiescence.py:94-182 | two valid walks of a directory yield the same digest input bytes iff they found the same mapping of names to identities |
| SnapshotEncoding.SnapshotMaterial | scripts/coverage_fragment_quiescence.py:169-182 | the loop extends the material to exactly that encoding |
| FragmentQuiescence.StabilityLoop.ReadStableFragmentSet | scripts/coverage_fragment_quiescence.py:321-494 | whatever the directory, the clock and the reader do: a returned seal was observed by every walk since the attempt of its oldest measurement, its measurements cover exactly its members, and two equal walks at least the interval apart bracket it; an immediate stop is justified by the last observation; exhausted attempts report the cause of the last attempt |
| FragmentQuiescence.StabilityLoop.Attempt | scripts/coverage_fragment_quiescence.py:391-474 | one attempt seals, stops for cause, or gives up leaving a sound cache and the cause it observed |
| FragmentQuiescence.StabilityLoop.BracketSet | scripts/coverage_fragment_quiescence.py:392-409 | going on means two equal walks around the interval and no read in between |
| FragmentQuiescence.StabilityLoop.Admit | scripts/coverage_fragment_quiescence.py:410-418 | only a clean set is admitted, and the cache is then the cache of that set and of no other |
| FragmentQuiescence.StabilityLoop.ReadMembers | scripts/coverage_fragment_quiescence.py:419-463 | when it goes on, every member has a measurement read while every walk saw this set |
| FragmentQuiescence.StabilityLoop.RecheckAfterFailure | scripts/coverage_fragment_quiescence.py:428-463 | a failed read counts against the reader only if two more walks around the interval still see the set; otherwise it counts as a writer's change and the cache is dropped |
| FragmentQuiescence.StabilityLoop.Conclude | scripts/coverage_fragment_quiescence.py:464-474 | the result is returned only if a last walk still sees the set |
| FragmentQuiescence.StabilityLoop.PostIntervalSnapshot | scripts/coverage_fragment_quiescence.py:369-389 | a snapshot is taken only after the interval on a clock that never ran backwards; otherwise the clock is blamed, correctly |
| FragmentQuiescence.CauseIsUnique | scripts/coverage_fragment_quiescence.py:391-494 | what an attempt observed determines its cause: the three error classes at the end never overlap |
| FragmentQuiescence.CachedEqualsReread | scripts/coverage_fragment_quiescence.py:416-427 | when reads depend only on a fragment's identity and no changed identity comes back, reading any sealed fragment afresh at any moment since the cache was filled gives the returned measurement |
| MeasuredPaths.JoinSplit | scripts/verify_coverage_path_mapping.py:129 | joining what was split at slashes gives the text back |
| MeasuredPaths.SplitJoin | scripts/verify_coverage_path_mapping.py:129 | splitting what was joined from slash-free parts gives the parts back |
| MeasuredPaths.PartsInvertsSpell | scripts/verify_coverage_path_mapping.py:120-132 | a text is accepted with these parts iff the parts are clean and the text is their one spelling: no second spelling of a path gets through |
| MeasuredPaths.ClassifiedIsUnderItsRoot | scripts/verify_coverage_path_mapping.py:135-190 | an accepted path is exactly the spelling of the root of its category and a relative Python path |
| MeasuredPaths.UnderRootIsClassified | scripts/verify_coverage_path_mapping.py:135-190 | every Python path under a trusted root is accepted in the category of that root, the repository's own sources first |
| CombineFragments.UnionKeepsFiles | scripts/verify_coverage_path_mapping.py:391-415 | after each merge a canonical file is present iff some measured path of a merged fragment maps to it |
| CombineFragments.UnionKeepsLines | scripts/verify_coverage_path_mapping.py:391-415 | after each merge its lines are the union of the lines of all fragments and paths mapped to it |
| CombineFragments.Combiner.VerifyOneFragment | scripts/verify_coverage_path_mapping.py:360-374 | the paths of one fragment extend map and categories, each path verified once; the two refusals occur only for their reasons |
| CombineFragments.Combiner.VerifyPaths | scripts/verify_coverage_path_mapping.py:356-374 | the map covers exactly the measured paths of all fragments with the canonical source of each; it succeeds iff all are trusted and at most 4096 are distinct |
| CombineFragments.Combiner.VerifyFragments | scripts/verify_coverage_path_mapping.py:352-380 | a verified set was sealed after this call began, is still there afterwards, and has sources of all three kinds; when nothing interferes it is verified iff the seal is of this directory and its paths are trusted, few enough and of all kinds |
| CombineFragments.Combiner.MergeFragments | scripts/verify_coverage_path_mapping.py:410-426 | the merged lines are the union over what each sealed fragment held at a tick of this call whose neighbouring looks both saw its sealed identity |
| CombineFragments.Combiner.StageAndPublish | scripts/verify_coverage_path_mapping.py:427-459 | with a good output and nobody interfering it succeeds iff the set leaves room for one more member; when nobody interferes its link is left iff the looks and the output let it come to the link, no link error strikes, and then there is one member too many, or the walk is impossible, or it misses a member and the unlink fails |
| CombineFragments.Combiner.Publish | scripts/verify_coverage_path_mapping.py:434-458 | success leaves exactly the sealed identities and the output; a retryable failure leaves this attempt's link absent; only a file with the output's identity is ever unlinked; when nobody interferes the link stays after a failure iff it could be made and then the walk is impossible or finds a difference and the unlink fails |
| CombineFragments.Combiner.Retract | scripts/verify_coverage_path_mapping.py:445-458 | the rollback unlinks only a destination with the identity of the staged output, and after a retryable end no destination is there |
| CombineFragments.Combiner.CombineAttempt | scripts/verify_coverage_path_mapping.py:383-459 | what is published was sealed, and each fragment read after that, within this attempt; when nobody interferes its link is left iff it came to the publication and the link and unlink errors and walks from that tick on leave it; in an obliging world it succeeds iff the seal is of this directory, leaves room, and its paths are trusted, few enough and of all kinds |
| CombineFragments.Combiner.CombineFragments | scripts/verify_coverage_path_mapping.py:462-475 | three attempts end in exactly the sealed fragments plus the destination, from one seal and reads that follow it in the last attempt, or in a failure; giving up after changes leaves no link; when nobody interferes a link is left iff the last publication's link and unlink errors and walks leave it; in an obliging world with one seal it succeeds iff that seal can be combined |
| CombineFragments.ManyAreClean | scripts/coverage_fragment_quiescence.py:278-318 | there are clean sets of every size up to the bound |
| CombineFragments.FullSetLeavesItsLink | scripts/verify_coverage_path_mapping.py:434-458 | 8192 clean fragments in an undisturbed directory: publication fails and its link stays |
| Supersession.ChainEndsInPass | src/aoi_orgware/verification_integrity.py:291-316 | every superseded record of a chained task leads through strictly later records of its category to a live pass |
| Supersession.ChainsAreAcyclic | src/aoi_orgware/verification_integrity.py:291-316 | following edges always leads strictly forward in time and never back |
| Supersession.AddKeepsChain | src/aoi_orgware/cli.py:3274-3304 | adding a record keeps every edge valid |
| Supersession.SupersedeKeepsChain | src/aoi_orgware/cli.py:3968-4040 | a supersession that passes its checks keeps every edge valid, those to the record just retired included, whose stored source digest takes the place of its digest |
| Supersession.SupersedeKeepsDatesIff | src/aoi_orgware/cli.py:4008-4038 | it keeps the dates of all edges in order iff the replacement was recorded no later than now |
| Supersession.SlowClockBreaksTheDates | src/aoi_orgware/cli.py:4008-4038 | with any acceptable reason: an accepted supersession at a time before its replacement's, after which the dates are out of order |
| Supersession.MaterializeKeepsChainIff | src/aoi_orgware/cli.py:3366-3432 | a materialization that retains something keeps the chain iff every fully retained record at either end of an edge already carries the marker |
| Supersession.MaterializationCanBreakTheChain | src/aoi_orgware/cli.py:3366-3432 | with any acceptable reason: three records, one accepted supersession and one accepted materialization after which the chain is broken |
| Supersession.RunKeepsChain | src/aoi_orgware/cli.py:3203-4040 | from any fully marked chained task every run of add, materialize and supersede leaves a fully marked chained task |
| Supersession.RunKeepsEdges | src/aoi_orgware/cli.py:3203-4040 | an edge once made is the same after every run |
| Supersession.RunKeepsDates | src/aoi_orgware/cli.py:3203-4040 | under a clock that does not run backwards every run keeps all edges dated in order |
| Supersession.CycleIsNoEnd | src/aoi_orgware/verification_integrity.py:291-300 | a chain that repeats a record has no end, neither a pass nor a break |
| Supersession.WalkChain | src/aoi_orgware/verification_integrity.py:291-316 | the walk with its set of seen records complains iff the chain neither ends in a live pass nor runs out of the list |
| Supersession.EdgeErrors | src/aoi_orgware/verification_integrity.py:173-316 | an edge is reported clean iff it holds, is dated in order and its chain ends in a pass |
| Supersession.SupersessionErrors | src/aoi_orgware/verification_integrity.py:153-317 | the validator is silent iff every edge of the task is clean |
| Supersession.ChainedIsAccepted | src/aoi_orgware/verification_integrity.py:153-317 | what the commands maintain is accepted by the validator |
| Supersession.RunsAreAccepted | src/aoi_orgware/verification_integrity.py:153-317 | a task that starts empty passes the validator after every run whose clock does not run backwards |
| Supersession.VerificationTask.AddVerification | src/aoi_orgware/cli.py:3274-3304 | the appended record is the one the run model adds |
| Supersession.VerificationTask.VerificationSupersede | src/aoi_orgware/cli.py:3968-4040 | the in-place update, and every refusal with its reason and without an effect |
| Supersession.VerificationTask.CheckPlans | src/aoi_orgware/cli.py:3383-3410 | all files are checked and their sizes bounded before any is retained |
| Supersession.VerificationTask.MaterializeArtifacts | src/aoi_orgware/cli.py:3310-3442 | the selection, the checks, and the retained and marked records; a refusal changes nothing |
| Supersession.VerificationTask.RetainAndMark | src/aoi_orgware/cli.py:3412-3430 | references in scope are replaced, then every fully retained record of the task is marked |
| TerminalSeal.StageResumes | src/aoi_orgware/cli.py:3722-3813 | a run that finds one or two of the three writes done continues with exactly the next ones |
| TerminalSeal.ResumePlan | src/aoi_orgware/cli.py:3722-3813 | a later run recomputes precisely the writes that the first run had left |
| TerminalSeal.RunsReachOneStage | src/aoi_orgware/cli.py:3659-3950 | whatever crashes, the disk holds a prefix of the three writes of one plan, the plan of the first run that wrote |
| TerminalSeal.CrashesConverge | src/aoi_orgware/cli.py:3659-3950 | after any crashes, a rerun that is not interrupted ends in exactly the state and checkpoint of one uninterrupted run |
| TerminalSeal.ReplaysChangeNothing | src/aoi_orgware/cli.py:3672-3721 | replays of a finished seal change neither state nor checkpoint |
| TerminalSeal.ReplaySucceedsIff | src/aoi_orgware/cli.py:3672-3721 | a replay succeeds iff the legacy edge carried none of the three fields that sealing adds |
| TerminalSeal.NumberedLegacyEdgeCannotBeReplayed | src/aoi_orgware/cli.py:3672-3721 | a legacy edge with a version number that can be sealed and whose replay is refused |
| TerminalSeal.OtherDigestsWriteNothing | src/aoi_orgware/cli.py:3672-3854 | before, during and after the migration a run with any different digest writes nothing |
| TerminalSeal.OpenSealIsOneWrite | src/aoi_orgware/cli.py:3828-3950 | on an open task the seal is one write, and a rerun leaves the disk as it is |
| TerminalSeal.SealedEdgeHoldsIff | src/aoi_orgware/cli.py:3830-3913 | a sealed edge is one the chain validator accepts iff the status it retired was an accounted one |
| TerminalSeal.TaskStore.VerificationSupersessionSeal | src/aoi_orgware/cli.py:3621-3965 | a run with a crash after any number of writes leaves that many of the planned writes done and answers accordingly |
| TerminalSeal.TaskStore.ResumeSeal | src/aoi_orgware/cli.py:3722-3813 | the pending branch writes only what is left of its own migration |
| TerminalSeal.TaskStore.FreshSeal | src/aoi_orgware/cli.py:3814-3950 | the first run writes pending state, checkpoint and final state in this order, or only the state of an open task |
| TaskLedger.OverlapMeaning | src/aoi_orgware/cli.py:4265-4287 | two arms are said to overlap iff they have the same parent and some agent type would match both, the wildcard matching all |
| TaskInvariants.ArmKeepsValid | src/aoi_orgware/cli.py:4211-4339 | arming keeps: a packet is armed iff exactly one of its attempts is, slots do not overlap, children and jobs are contained |
| TaskInvariants.DisarmKeepsValid | src/aoi_orgware/cli.py:4342-4365 | disarming keeps the same |
| TaskInvariants.CreateKeepsValid | src/aoi_orgware/cli.py:4574-5110 | creating a packet keeps the same |
| TaskInvariants.UpdateKeepsValid | src/aoi_orgware/cli.py:5184-5526 | every status transition of a packet keeps the same, the end of a parent included |
| TaskInvariants.StartKeepsValid | src/aoi_orgware/dispatch_protocol.py:696-1036 | an observed agent start always has a defined outcome and keeps the same |
| TaskInvariants.ExpiryKeepsValid | src/aoi_orgware/dispatch_protocol.py:285-311 | expiring arms never fails in a valid task and keeps the same |
| TaskInvariants.StartJobKeepsValid | src/aoi_orgware/cli.py:5598-5805 | starting a job keeps the same |
| TaskInvariants.UpdateJobKeepsValid | src/aoi_orgware/cli.py:5808-5981 | every transition of a job keeps the same |
| TaskInvariants.LiveArmSlots | src/aoi_orgware/claude_hook.py:292-323 | the two nested loops collect the live and the expired slots of a parent and type, in order |
| TaskInvariants.ScanFindsAtMostOne | src/aoi_orgware/claude_hook.py:292-323 | live and expired together, the scan never finds more than one packet for any parent and agent type |
| TaskInvariants.CandidateIsUnique | src/aoi_orgware/dispatch_protocol.py:413-432 | a start that matches an armed packet matches exactly one |
| SessionLedger.NoDoubleRole | src/aoi_orgware/cli.py:7547-7580 | in a coherent index no session is both root and sub-agent parent of open tasks, nor root of two |
| SessionLedger.BindKeepsIndex | src/aoi_orgware/cli.py:1822-1873 | binding, by force too, keeps every mapping with its backlink and every backlink with its mapping |
| SessionLedger.UnbindKeepsIndex | src/aoi_orgware/commands/task_lifecycle.py:593-620 | unbinding a root session keeps the index coherent |
| SessionLedger.EnsureKeepsIndex | src/aoi_orgware/cli.py:1876-1913 | mapping a dispatched depth-one agent keeps the index coherent |
| SessionLedger.EndKeepsIndex | src/aoi_orgware/cli.py:1916-1930 | closing or cancelling a task leaves no mapping to it |
| SessionLedger.InitKeepsIndex | src/aoi_orgware/commands/task_lifecycle.py:1062-1085 | creating a task keeps the index coherent, even when its session cannot be bound |
| LedgerRuns.StepKeepsInv | src/aoi_orgware/cli.py:1822-1930 | each of the fourteen commands and observations keeps all invariants of tasks and sessions |
| LedgerRuns.RunKeepsInv | src/aoi_orgware/cli.py:4211-5981 | in every reachable state arms match their packets, slots are exclusive, work is contained and the index is coherent |
| LedgerHistory.RunKeepsFinal | src/aoi_orgware/cli.py:5247-5401 | over every run no packet or job is lost and none that is terminal changes its status |
| LedgerHistory.LaunchedEarlier | src/aoi_orgware/cli.py:5808-5970 | a recorded launch was written by an earlier running transition of that job under a dispatched top-level owner |
| LedgerHistory.PassedJobWasLaunched | src/aoi_orgware/cli.py:5808-5970 | every passing job has such an earlier transition, although the table alone allows queued, unknown, pass |
| ArmHomes.ConsiderateRunsShareNoParent | src/aoi_orgware/cli.py:1822-1873 | runs that lead no session away from its arms keep each parent session's arms in one task |
| ArmHomes.RunsFromEmptyKeepSlotsApartIff | src/aoi_orgware/cli.py:4211-4339 | every run of a new ledger keeps slots exclusive across tasks iff each accepted arm takes a slot no other task holds, and each does when no session is led away from its arms |
| ArmHomes.ArmSharesNoParentIff | src/aoi_orgware/cli.py:4265-4326 | an accepted arm keeps every parent session in one task iff no other task has an arm for that session |
| ArmHomes.ArmSharesNoSlotIff | src/aoi_orgware/cli.py:4265-4326 | an accepted arm keeps slots exclusive across tasks iff no other task holds an overlapping slot; the check of the source looks at its own task only |
| ArmHomes.RunKeepsSlotsApartIff | src/aoi_orgware/cli.py:4211-4339 | over every run no slot is ever armed in two tasks iff each accepted arm takes a slot that no other task holds |
| ArmHomes.BindKeepsHomesIff | src/aoi_orgware/cli.py:1822-1873 | binding keeps every arm in the task its session leads to iff no other task still has an arm for that session |
| ArmHomes.ForcedRebindSharesASlot | src/aoi_orgware/cli.py:1840-1866 | seven accepted commands after which two tasks have a packet armed for one parent and type |
| ArmHomes.UnbindAndBindSharesASlot | src/aoi_orgware/commands/task_lifecycle.py:593-620 | the same without force: the session is unbound, bound to the second task, and arms there |
| LedgerCommands.PacketById | src/aoi_orgware/state_lookup.py:94-103 | the packet of that name when there is exactly one |
| LedgerCommands.ExpireDispatchArms | src/aoi_orgware/dispatch_protocol.py:285-311 | every stale arm is expired and its packet made ready, unless some armed packet has not exactly one arm |
| LedgerCommands.Collisions | src/aoi_orgware/cli.py:4265-4287 | something collides iff an armed packet's arm overlaps the new one |
| LedgerCommands.Ledger.BindSession | src/aoi_orgware/cli.py:1822-1873 | the whole new ledger, and a refusal that changes nothing |
| LedgerCommands.Ledger.EnsureSubagentParentMapping | src/aoi_orgware/cli.py:1876-1913 | the whole new ledger, and a refusal that changes nothing |
| LedgerCommands.Ledger.UnbindAllSessions | src/aoi_orgware/cli.py:1916-1930 | exactly the mappings of this task's sessions that lead to it are gone |
| LedgerCommands.Ledger.UnbindSession | src/aoi_orgware/commands/task_lifecycle.py:593-620 | the whole new ledger, and a refusal that changes nothing |
| LedgerCommands.Ledger.InitTask | src/aoi_orgware/commands/task_lifecycle.py:1062-1085 | the task is there even when its session is refused |
| LedgerCommands.Ledger.EndTask | src/aoi_orgware/cli.py:6728-6890 | closing and cancelling end the task and its mappings |
| LedgerCommands.Ledger.BlockTask | src/aoi_orgware/cli.py:6917-6936 | blocking changes the status only |
| LedgerCommands.Ledger.SetPhase | src/aoi_orgware/commands/task_lifecycle.py:1817-1836 | a change of phase may block an open task or make it active again, and changes nothing else of it |
| LedgerCommands.Ledger.CreatePacket | src/aoi_orgware/cli.py:4574-5110 | the whole new ledger, and a refusal that changes nothing |
| LedgerCommands.Ledger.PacketArm | src/aoi_orgware/cli.py:4211-4339 | the whole new ledger with expired arms and the new one, or a refusal that changes nothing |
| LedgerCommands.Ledger.PacketDisarm | src/aoi_orgware/cli.py:4342-4365 | the whole new ledger, and a refusal that changes nothing |
| LedgerCommands.Ledger.RewritePacket | src/aoi_orgware/cli.py:5247-5401 | one packet after a permitted transition |
| LedgerCommands.Ledger.PacketUpdate | src/aoi_orgware/cli.py:5184-5526 | the whole new ledger with the mapping of a dispatched agent, or a refusal that changes nothing |
| LedgerCommands.Ledger.MatchingArmedPackets | src/aoi_orgware/dispatch_protocol.py:413-432 | exactly the packets armed for this parent and type, in order |
| LedgerCommands.Ledger.ObserveSubagentStart | src/aoi_orgware/dispatch_protocol.py:696-1036 | one match is consumed and dispatched; none or a refusal leaves only the expiry |
| LedgerCommands.Ledger.JobStart | src/aoi_orgware/cli.py:5598-5805 | the whole new ledger, and a refusal that changes nothing |
| LedgerCommands.Ledger.JobUpdate | src/aoi_orgware/cli.py:5808-5981 | the whole new ledger with the launch on record, or a refusal that changes nothing |
| LedgerCommands.Ledger.MappingFindings | src/aoi_orgware/cli.py:7527-7580 | nothing is found about a mapping iff it leads to an open task with the backlink of its kind only |
| LedgerCommands.Ledger.BacklinkFindings | src/aoi_orgware/cli.py:7586-7609 | nothing is found about an open task iff all its backlinks have their mapping |
| LedgerCommands.Ledger.Doctor | src/aoi_orgware/cli.py:7511-7609 | the doctor finds nothing iff the index is coherent, in whatever order it scans |
| ReceiptStore.StoreRefinesInsert | src/aoi_orgware/codex_hook_receipts.py:713-769 | storing is insertion into one abstract map: a replay or refusal changes nothing, anything else adds exactly this receipt |
| ReceiptStore.ReplaySucceeds | src/aoi_orgware/codex_hook_receipts.py:726-734 | exact replay succeeds even when the store is full |
| ReceiptStore.DivergenceIsRefused | src/aoi_orgware/codex_hook_receipts.py:726-734 | different bytes for a known identity are refused and change nothing |
| ReceiptStore.NewReceiptNeedsActiveRoom | src/aoi_orgware/codex_hook_receipts.py:735-769 | a new receipt is stored iff the active generation has room for an entry and for its bytes |
| ReceiptStore.LoadIsLookup | src/aoi_orgware/codex_hook_receipts.py:671-710 | lookup by identity is lookup in the abstract map |
| ReceiptStore.RotationKeepsMap | src/aoi_orgware/commands/codex_hook_receipt_store.py:489-669 | adoption and rotation, crashed anywhere or not, leave the map and every file as they were |
| ReceiptStore.RotationMakesRoom | src/aoi_orgware/commands/codex_hook_receipt_store.py:489-669 | after a committed rotation any valid new receipt is stored |
| ReceiptStore.CrashedRotationResumes | src/aoi_orgware/commands/codex_hook_receipt_store.py:489-669 | wherever an accepted rotation crashes - before its directory, before its intent, before or after its control - running it again has the effect of one that is not interrupted |
| ReceiptStore.CrashedRotationWaits | src/aoi_orgware/commands/codex_hook_receipt_store.py:489-669 | between the crash behind its intent and its rerun no run of anything else changes the store, and the rerun still has the effect of one that is not interrupted |
| ReceiptStore.PendingStopsTheRest | src/aoi_orgware/commands/codex_hook_receipt_store_contract.py:509-594 | whatever is pending stops storing and loading, and every rotation of another operation than the one it belongs to, a committed one included; once the intent is there, also the same operation with another mode, preview or Chief |
| ReceiptStore.ReplayedRotationIff | src/aoi_orgware/commands/codex_hook_receipt_store.py:168-227 | after any run, repeating a committed rotation changes nothing, and succeeds iff it is repeated exactly (same mode, preview, and Chief session and epoch) and no other rotation is pending |
| ReceiptStore.CommittedReplays | src/aoi_orgware/commands/codex_hook_receipt_store.py:503-514 | the exact answer to a committed operation: refused as pending, replayed, or refused for what differs |
| ReceiptStore.PendingRotationStopsTheReplay | src/aoi_orgware/commands/codex_hook_receipt_store_contract.py:589-594 | a committed adoption that is repeated exactly while a later rotation is pending, and refused |
| ReceiptStore.RunsOnlyGrow | src/aoi_orgware/codex_hook_receipts.py:597-769 | over every run the map only grows, every identity stays in one place and every generation within its caps |
| ReceiptStore.RunsFromEmpty | src/aoi_orgware/codex_hook_receipts.py:597-769 | every run of a new store leaves a valid one, and nothing stored on the way is ever lost or changed |
| ReceiptStore.SealedStaySealed | src/aoi_orgware/commands/codex_hook_receipt_store.py:489-669 | no run ever touches the legacy files or a sealed generation |
| ReceiptStore.ScanReceiptDirectory | src/aoi_orgware/codex_hook_receipts.py:448-495 | a directory scans iff its names match its receipts and count and sizes are within caps, and the scan then returns its bytes |
| ReceiptStore.ReceiptFiles.ReceiptLocations | src/aoi_orgware/codex_hook_receipts.py:597-609 | one look per directory finds the one file of a key, wherever it is |
| ReceiptStore.ReceiptFiles.LoadByIdentity | src/aoi_orgware/codex_hook_receipts.py:671-710 | the loop over the directories computes the lookup |
| ReceiptStore.ReceiptFiles.StoreCodexHookReceipt | src/aoi_orgware/codex_hook_receipts.py:713-769 | the outcome and the whole new store |
| ReceiptStore.ReceiptFiles.ApplyRotation | src/aoi_orgware/commands/codex_hook_receipt_store.py:489-669 | the outcome and the whole new store, crashed before the directory, the intent or the control, or after it, or not at all |
| ReceiptStore.ReceiptFiles.ScanRetained | src/aoi_orgware/codex_hook_receipts.py:510-561 | everything retained scans iff no key occurs twice and every directory is sound, and the totals are then exact |
| ReceiptStore.ReceiptFiles.Inspect | src/aoi_orgware/codex_hook_receipts.py:772-874 | a report exists iff the store scans and no rotation is pending; counts, bytes and kinds are those of the files; capacity is full iff no entry or byte is left, and available iff both are under ninety per cent |
| Provenance.NothingIsLost | src/aoi_orgware/cli.py:2270-2328 | at every crash point of any runs each receipt that was ever current is still current or archived, and the history stays within its cap |
| Provenance.PlansAreSafe | src/aoi_orgware/cli.py:2219-2328 | no planned write replaces a receipt that is not archived, or overwrites or overfills the archive |
| Provenance.MidwayResumes | src/aoi_orgware/cli.py:2561-2584 | wherever an accepted run stopped, a rerun is accepted and heads for the same end |
| Provenance.RerunsConverge | src/aoi_orgware/cli.py:2561-2584 | crashed runs of a candidate ended by one that is not interrupted leave its pair together with its receipt |
| Provenance.CandidateReachedIff | src/aoi_orgware/cli.py:2219-2267 | that happens iff no handler had drifted and there was room, or an exact archive, for the receipt to be replaced; otherwise nothing ever changes |
| Provenance.FinishedHasPairAndReceipt | src/aoi_orgware/commands/codex_onboarding.py:1981-2085 | in the end state every event has exactly one handler of this program, with the candidate's pair, beside everybody else's in order |
| Provenance.MergedHooksAreStable | src/aoi_orgware/commands/codex_onboarding.py:1981-2085 | merging twice equals merging once, and the result does not drift |
| Provenance.FullHistoryIsFinal | src/aoi_orgware/cli.py:2250-2262 | a full history without the current receipt makes it final for every run |
| Provenance.NoEighteenthReceipt | src/aoi_orgware/cli.py:2250-2262 | sixteen archives and a seventeenth current receipt with its own hooks installed: no run of any candidate replaces it |
| Provenance.OtherCandidateAfterHookCrash | src/aoi_orgware/cli.py:2561-2584 | after a crash behind the hook pair any candidate with another pair is refused |
| Provenance.Project.MergeEvent | src/aoi_orgware/commands/codex_onboarding.py:1981-2085 | the merge of one event's handlers, or none when one drifted |
| Provenance.Project.MergeHooks | src/aoi_orgware/commands/codex_onboarding.py:1981-2085 | the merge of the whole file, or none when any handler drifted |
| Provenance.Project.ProvenancePreflight | src/aoi_orgware/cli.py:2219-2267 | the refusal, if any, before anything is written |
| Provenance.Project.InstallReceipt | src/aoi_orgware/cli.py:2270-2328 | archive first, receipt second, as far as the run lives |
| Provenance.Project.CodexInit | src/aoi_orgware/cli.py:2370-2631 | a run with a crash after any number of writes leaves that many of the planned writes done |
| BootstrapInstall.Machine.CreateWrite | scripts/coverage_bootstrap_install.py:229-267 | it creates at most this path and touches no other; the path is registered unless the create failed after taking effect; it succeeds iff the schedule lets create, writes and checks through, with exact content and the identity that inode, size and the last change give |
| BootstrapInstall.Machine.Fill | scripts/coverage_bootstrap_install.py:238-267 | whatever fails, the registered identity is that of the file created |
| BootstrapInstall.Machine.WriteAll | scripts/coverage_bootstrap_install.py:244-249 | the loop of partial writes ends with exactly the payload, its size and the tick of the last write iff no write fails or takes nothing |
| BootstrapInstall.QuietSucceeds | scripts/coverage_bootstrap_install.py:367-417 | without faults and with a bounded receipt an installation succeeds iff both paths are free and differ |
| BootstrapInstall.Machine.Rollback | scripts/coverage_bootstrap_install.py:286-308 | it removes only a registered path of the registered identity, and names a registered path it leaves |
| BootstrapInstall.Machine.RollbackBoth | scripts/coverage_bootstrap_install.py:408-412 | whatever of the two paths stays is named, and only files this run created are removed |
| BootstrapInstall.Machine.Install | scripts/coverage_bootstrap_install.py:367-417 | under any faults: it succeeds iff the schedule lets both creates through, with both files exact and the target's identity the one its create and writes gave it; otherwise everything this run left is named, except a create that takes effect and fails, which schedule, inode and files decide too; nothing it did not create is touched |
| BootstrapInstall.Machine.MainInstall | scripts/coverage_bootstrap_install.py:531-562 | the exit code, and whether a failing command names all it left, as conditions on the schedule, the files before and the printing: it does iff the installation did not succeed and no create was interrupted |
| BootstrapInstall.Machine.DeleteIfExact | scripts/coverage_bootstrap_install.py:270-283 | it deletes only a file of exactly this identity and content |
| BootstrapInstall.Machine.Remove | scripts/coverage_bootstrap_install.py:460-499 | it deletes at most the target, and only when the receipt describes it as it is; without faults it then does |
| BootstrapInstall.InstallThenRemove | scripts/coverage_bootstrap_install.py:367-499 | without faults both succeed iff both paths were free and differ, and leave what was there and the receipt; otherwise nothing changes |
| BootstrapInstall.LateCreateGoesUnnamed | scripts/coverage_bootstrap_install.py:229-241 | a schedule in which the target is left and nothing is named |
| ProducerForest.RunKeeps | scripts/coverage_fragment_attribution.py:87-454 | over every interleaving of starts and forks, receipts are write-once and complete, even where a temporary name collides, every parent precedes its child, and every data file has one writer |
| ProducerForest.ReceiptsAreComplete | scripts/coverage_fragment_attribution.py:87-130 | every published receipt is the complete encoding of one record of its own identity |
| ProducerForest.MeasuringProcessesApart | scripts/coverage_fragment_attribution.py:379-412 | a measuring process runs on the file of its own identity, and no two run on the same |
| ProducerForest.OneWriterPerFile | scripts/coverage_fragment_attribution.py:322-454 | no data file is ever written by two processes: a fork child never writes its parent's |
| ProducerForest.ParentsLeadToARoot | scripts/coverage_fragment_attribution.py:361-412 | from every receipt the parents lead to a root through published receipts |
| ProducerForest.FailedStartMeasuresNothing | scripts/coverage_fragment_attribution.py:425-454 | in every run, a process that fails any step of its start keeps exit code 97 and cleared selectors through all later events, never writes a data file and publishes nothing any more |
| ForkChild.Interpreter.ClearSelectors | scripts/coverage_fork_runtime.py:116-121 | no selector is left and every other variable is kept |
| ForkChild.Interpreter.StopInherited | scripts/coverage_fork_runtime.py:81-91 | the inherited collector is gone, or will not save, or - when its ownership is ambiguous - is refused as it was |
| ForkChild.Interpreter.Prepare | scripts/coverage_fragment_attribution.py:322-412 | the environment names a file at the canonical base and a producer of its own iff every check passed and the receipt was published; otherwise it is unchanged |
| ForkChild.Interpreter.StartExact | scripts/coverage_fork_runtime.py:94-113 | the collector runs on exactly the selected file and the environment is as before |
| ForkChild.Interpreter.AfterForkChild | scripts/coverage_fragment_attribution.py:425-454 | a fork child measures under its own identity, or exits with 97 and no selector left |
| ForkChild.Interpreter.StartFresh | scripts/coverage_fragment_attribution.py:457-487 | the same for a fresh interpreter that must not have a collector yet |
| ForkChild.Interpreter.FlushThenExit | scripts/coverage_fork_runtime.py:124-147 | it saves to the collector's own file, clears the selectors, and exits with the given code iff the save worked |
| ForkChild.OwnFilesDiffer | scripts/coverage_fragment_attribution.py:410-412 | different identities never name the same data file |
| Compaction.DerivePolicy | src/aoi_orgware/checkpoint_compaction.py:262-304 | a policy exists iff every candidate history extends the durable one, and it requires every new entry to be shown |
| Compaction.ProjectHistories | src/aoi_orgware/checkpoint_compaction.py:202-259 | the loop over the fields yields each field's projection, or fails iff one of them does or a forced field meets the full mode |
| Compaction.NewEntriesStay | src/aoi_orgware/checkpoint_compaction.py:118-259 | under the policy of a durable prefix the compact view of a history is empty, or a marker followed by a verbatim suffix at least as long as everything added since, omitted plus recent being the total |
| Compaction.RequiredTailIsShown | src/aoi_orgware/checkpoint_compaction.py:202-259 | under any policy every field ends with its required tail, verbatim |
| Compaction.FirstFittingText | src/aoi_orgware/checkpoint_compaction.py:307-330 | the largest tail that fits, or nothing iff none fits |
| Compaction.SelectCheckpointText | src/aoi_orgware/checkpoint_compaction.py:333-370 | nothing iff the full view, the compact view and every tail exceed the ceiling; full iff small, or fitting where the compact one does not; compact iff it fits and the full one is not small |
| Compaction.SmallerFullViewIsKeptIff | src/aoi_orgware/checkpoint_compaction.py:333-370 | a fitting smaller full view is replaced iff threshold < full < compact <= ceiling |
| Compaction.LargerCompactViewReplacesFullView | src/aoi_orgware/checkpoint_compaction.py:333-370 | a full view of 20 KiB gives way to a compact one of 30 KiB |
| Compaction.PrepareCheckpoint | src/aoi_orgware/harnesslib.py:5068-5109 | the chosen view fits; with the lock held and a durable state on disk it shows everything added since, and is refused iff a history does not extend the durable one; otherwise a field shows what was added iff it is shown in full, is short, or its tail reaches far enough |
| Compaction.UnguardedViewIff | src/aoi_orgware/harnesslib.py:5075-5104 | without a policy, a view ends with a field's new entries iff it is the full view, the history is under sixteen entries, or its tail is at least as long as what was added |
| Compaction.UnlockedCheckpointHidesNewEntries | src/aoi_orgware/harnesslib.py:5075-5104 | twenty new facts of which, without the lock, twelve are not shown |
| GraphCopy.CopyUnfolds | src/aoi_orgware/checkpoint_compaction.py:52-80 | a successful copy is an unfolding of the graph, shared objects repeated |
| GraphCopy.UnfoldingIsUnique | src/aoi_orgware/checkpoint_compaction.py:52-80 | a graph has at most one unfolding |
| GraphCopy.CopySucceedsIff | src/aoi_orgware/checkpoint_compaction.py:52-80 | the copy succeeds iff no walk returns to an object, every reachable key and leaf is an exact builtin and the nesting is within the recursion limit |
| GraphCopy.SnapshotSucceedsIff | src/aoi_orgware/checkpoint_compaction.py:47-88 | a state is accepted iff that holds and it is an object |
| GraphCopy.Copier.CloneItem | src/aoi_orgware/checkpoint_compaction.py:52-80 | the recursion with its shared active set computes the copy, and restores the set on success |
| GraphCopy.Copier.CloneChildren | src/aoi_orgware/checkpoint_compaction.py:60-76 | the loop over the children copies them in order and stops at the first error |
| GraphCopy.Copier.SnapshotExactJsonObject | src/aoi_orgware/checkpoint_compaction.py:47-88 | the whole snapshot |
| ReceiptChain.NoErrorsIffLinear | src/aoi_orgware/codebase_memory.py:669-708 | no error is reported iff ids are distinct, the first receipt supersedes nothing, each later one exactly its predecessor and every receipt but the last has a non-empty id; the active set is then exactly the last receipt |
| ReceiptChain.CleanExtension | src/aoi_orgware/codebase_memory.py:683-708 | a clean history stays clean iff the next receipt is new and supersedes the last one |
| ReceiptChain.EmptyIdDefeatsTheAudit | src/aoi_orgware/codebase_memory.py:675-680 | a linear history of two receipts that is reported |
| ReceiptChain.ActiveReceiptRecords | src/aoi_orgware/codebase_memory.py:669-680 | the records that nothing supersedes, in order |
| ReceiptChain.PassOver | src/aoi_orgware/codebase_memory.py:691-704 | the loop with its growing set of known ids reports each entry against exactly the ids before it |
| ReceiptChain.ReceiptChainErrors | src/aoi_orgware/codebase_memory.py:683-708 | the whole audit |
| ChiefOptions.NormalizedIsStablePartition | src/aoi_orgware/cli.py:8667-8689 | the output is a permutation of the input that keeps the order within the options and within the rest, and no option is left in the rest |
| ChiefOptions.NormalizedIsIdempotent | src/aoi_orgware/cli.py:8667-8689 | normalising twice equals normalising once, dangling options included |
| ChiefOptions.LocatedAfterNormalizing | src/aoi_orgware/cli.py:8667-8710 | the located command is the command word of the rest, less its first item when an option dangles |
| ChiefOptions.CommandIsKeptIff | src/aoi_orgware/cli.py:8667-8710 | the located command is the command word of the rest iff nothing dangles, or nothing is left to swallow, or the swallowed item is not what the command is found by |
| ChiefOptions.InsertionDoesNotMoveTheCommand | src/aoi_orgware/cli.py:8667-8710 | complete options inserted anywhere between complete tokens do not change the located command, whether or not the line ends in a dangling option |
| ChiefOptions.DanglingOptionHidesTheCommand | src/aoi_orgware/cli.py:8667-8710 | a dangling option after the command makes the located command empty |
| ChiefOptions.NormalizeChiefGlobalOptions | src/aoi_orgware/cli.py:8667-8689 | the index loop yields options first and the rest second |
| ChiefOptions.CommandFromNormalizedArgv | src/aoi_orgware/cli.py:8692-8710 | the index loop locates the command |

## What is assumed of code outside this model

- `dispatch_protocol`, `execution_topology`: activation needs the dispatched
  parent or owner, modelled as written there; lanes, selections, budgets,
  resource envelopes and Chief authority are one boolean guard, `allowed`, free
  for every command.
- `harnesslib.write_task`, `commit_checkpoint`: a write happens whole or not at
  all; `write_task` accepts what it is given.
- The commands that write a checkpoint hold the state lock while they do; a task
  that has no state file yet has no durable entries.
- `prepare_checkpoint`, for the seal: a deterministic function of the final
  state and the durable part of the task, which the seal does not change.
- Record and migration integrity checks of physical files
  (`verification_record_integrity_errors`,
  `verification_migration_integrity_errors`): arbitrary predicates.
- Receipt rotation: the digest of a preview is an arbitrary function of mode,
  operation and the store without what is pending; a Chief is its session and
  epoch; whatever is staged between the intent and the control is what the intent
  says.
- coverage.py: reading a fragment is an arbitrary function of time, and
  `CoverageData.update` is a union of lines under the path map.
- A receipt, record or hook command decodes to what was encoded.

## Left out

- Filesystem primitives: a walk of a directory is one observation (complete, a
  member vanished, or impossible), and links, replacements and unlinks are atomic.
- The window between an identity check and the unlink after it, which the code
  itself leaves to cooperating writers.
- Commands that fail between two files under one lock, other than the terminal
  seal, the provenance rotation, the receipt rotation and the bootstrap install:
  the task and session commands are atomic.
- Semantic-v2 and mini tasks, transport-owned packets, permit packets, helper
  spawns, resumed agents, and replay of hook events by event id.
- Recovery of packet inputs from a tar archive.
- The other writes of `codex-init` (configuration, policy flag, user skill), and
  hook entries with several handlers: a handler is an entry of its own.
- A file that another process creates between the checks of a receipt store and
  its own exclusive create.
- The chunk loop of `_read_exact`, and interrupts of the bootstrap command that
  end it without an exit code of its own.
- Verification of a measured source on disk (`_verify_fragment_source`): an
  arbitrary function of the path that does not change during the run.
- Field-by-field schema checks, argument parsing, output and messages, because
  they would add only easy members.
- A temporary name of a process receipt that is drawn for a third time while its
  first user still holds it; two users are modelled, the second of which removes
  the file of the first.
- CombineFragments.Combiner.CombineFragments: says exactly when it succeeds only for a
  directory that stays as it is, fragments and output that can be read at any time,
  and one seal for all attempts, because with other processes at work the
  outcome depends on every one of their steps.
- FragmentQuiescence.CachedEqualsReread: needs that a fragment's changed identity
  does not come back, because an lstat bracket cannot see a change that is undone
  between two walks.
- TerminalSeal.CrashesConverge: the uninterrupted run it compares with is made at
  the time of the first run that wrote, because the time is part of the state.
- ArmHomes.ConsiderateRunsShareNoParent: is one way; the exact condition for slots
  over runs is ArmHomes.RunKeepsSlotsApartIff.
- ArmHomes.BindKeepsHomesIff: decides whether arms stay in the task their session
  leads to, not whether a slot is shared, which is ArmHomes.ArmSharesNoSlotIff.
- ReceiptChain.NoErrorsIffLinear: ids and references are texts; a missing
  reference is the empty text, and other types are not modelled.
