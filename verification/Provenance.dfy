/** Replacing an install: the hook pair is published first, then the replaced
    receipt is archived, then the new receipt is written. A crash may fall
    between any two of these writes. */
module Provenance {
  import opened Wrappers

  const HISTORY_MAX: nat := 16

  type Digest = string

  /** A provenance receipt; `body` stands for its canonical bytes. */
  datatype Receipt = Receipt(body: string)

  type Pair = string

  /** One handler of a hook event: somebody else's, one of this program with its
      exact command pair, or one in an older grammar that may be upgraded. */
  datatype Handler = Foreign(text: string) | Aoi(pair: Pair) | Legacy(text: string)

  type Hooks = map<string, seq<Handler>>

  datatype Disk = Disk(hooks: Hooks, history: map<Digest, Receipt>, receipt: Option<Receipt>)

  /** The digest that names a receipt, the pair rendered from it, and the events
      that get a handler. */
  datatype Env = Env(digest: Receipt -> Digest, pair: Receipt -> Pair, events: seq<string>)

  datatype Refusal = HistoryOverfull | HistoryConflict | HistoryExhausted | HookDrift

  datatype Write = PutHooks(hooks: Hooks) | Archive(receipt: Receipt) | PutReceipt(receipt: Receipt)

  datatype Plan = Refuse(error: Refusal) | Commit(writes: seq<Write>)

  // ----- merging the hook pair -----

  function ForeignOnly(hs: seq<Handler>): seq<Handler> {
    if hs == [] then []
    else (if hs[0].Foreign? then [hs[0]] else []) + ForeignOnly(hs[1..])
  }

  function OwnedOnly(hs: seq<Handler>): seq<Handler> {
    if hs == [] then []
    else (if hs[0].Foreign? then [] else [hs[0]]) + OwnedOnly(hs[1..])
  }

  /** A current handler of this program with a pair that is not accepted. */
  predicate Drifted(hs: seq<Handler>, accepted: set<Pair>) {
    exists i | 0 <= i < |hs| :: hs[i].Aoi? && hs[i].pair !in accepted
  }

  /** The handlers of one event after the merge. */
  function MergedEvent(hs: seq<Handler>, desired: Pair): seq<Handler> {
    if OwnedOnly(hs) == [Aoi(desired)] then hs else ForeignOnly(hs) + [Aoi(desired)]
  }

  function HandlersOf(hooks: Hooks, event: string): seq<Handler> {
    if event in hooks then hooks[event] else []
  }

  predicate HooksDrifted(hooks: Hooks, events: seq<string>, accepted: set<Pair>) {
    exists i | 0 <= i < |events| :: Drifted(HandlersOf(hooks, events[i]), accepted)
  }

  function MergedHooks(hooks: Hooks, events: seq<string>, desired: Pair): Hooks {
    map e | e in hooks.Keys + (set i | 0 <= i < |events| :: events[i]) ::
      if e in events then MergedEvent(HandlersOf(hooks, e), desired) else hooks[e]
  }

  // ----- the plan of one run -----

  /** What stops the receipt before anything is written. */
  function PreflightError(env: Env, d: Disk, candidate: Receipt): Option<Refusal> {
    if d.receipt.None? || d.receipt.value == candidate then None
    else if |d.history| > HISTORY_MAX then Some(HistoryOverfull)
    else
      var name := env.digest(d.receipt.value);
      if name in d.history then
        if d.history[name] != d.receipt.value then Some(HistoryConflict) else None
      else if |d.history| >= HISTORY_MAX then Some(HistoryExhausted)
      else None
  }

  /** The pairs a handler may carry: the candidate's, and while a receipt is being
      replaced, the current one's. */
  function Accepted(env: Env, d: Disk, candidate: Receipt): set<Pair> {
    {env.pair(candidate)} +
    if d.receipt.Some? && d.receipt.value != candidate then {env.pair(d.receipt.value)} else {}
  }

  function ReceiptWrites(env: Env, d: Disk, candidate: Receipt): seq<Write> {
    if d.receipt == Some(candidate) then []
    else if d.receipt.None? || env.digest(d.receipt.value) in d.history then [PutReceipt(candidate)]
    else [Archive(d.receipt.value), PutReceipt(candidate)]
  }

  function PlanInit(env: Env, d: Disk, candidate: Receipt): Plan {
    if PreflightError(env, d, candidate).Some? then Refuse(PreflightError(env, d, candidate).value)
    else if HooksDrifted(d.hooks, env.events, Accepted(env, d, candidate)) then Refuse(HookDrift)
    else
      var merged := MergedHooks(d.hooks, env.events, env.pair(candidate));
      Commit((if merged != d.hooks then [PutHooks(merged)] else []) + ReceiptWrites(env, d, candidate))
  }

  // ----- runs that may crash -----

  function Put(env: Env, d: Disk, w: Write): Disk {
    match w
    case PutHooks(hooks) => d.(hooks := hooks)
    case Archive(r) => d.(history := d.history[env.digest(r) := r])
    case PutReceipt(r) => d.(receipt := Some(r))
  }

  function Apply(env: Env, d: Disk, writes: seq<Write>, budget: nat): Disk
    decreases |writes|
  {
    if writes == [] || budget == 0 then d else Apply(env, Put(env, d, writes[0]), writes[1..], budget - 1)
  }

  lemma ApplyOne(env: Env, d: Disk, w: Write, budget: nat)
    ensures Apply(env, d, [w], budget) == if budget == 0 then d else Put(env, d, w)
  {
    assert [w][1..] == [];
  }

  datatype Attempt = Attempt(candidate: Receipt, budget: nat)

  function Once(env: Env, d: Disk, t: Attempt): Disk {
    match PlanInit(env, d, t.candidate)
    case Refuse(_) => d
    case Commit(writes) => Apply(env, d, writes, t.budget)
  }

  function Runs(env: Env, d: Disk, attempts: seq<Attempt>): Disk
    decreases |attempts|
  {
    if attempts == [] then d else Runs(env, Once(env, d, attempts[0]), attempts[1..])
  }

  // ----- nothing is lost -----

  /** Still current, or archived under its own digest. */
  predicate Kept(env: Env, d: Disk, r: Receipt) {
    d.receipt == Some(r) || (env.digest(r) in d.history && d.history[env.digest(r)] == r)
  }

  /** Every archive is named by its digest, and there are at most sixteen. */
  predicate Sound(env: Env, d: Disk) {
    |d.history| <= HISTORY_MAX && forall n | n in d.history :: n == env.digest(d.history[n])
  }

  /** A write that may follow in this disk: nothing current is replaced before it
      is archived, and no archive is overwritten or added beyond the cap. */
  predicate Safe(env: Env, d: Disk, w: Write) {
    match w
    case PutHooks(_) => true
    case Archive(r) => env.digest(r) !in d.history && |d.history| < HISTORY_MAX
    case PutReceipt(r) =>
      d.receipt.Some? ==> env.digest(d.receipt.value) in d.history && d.history[env.digest(d.receipt.value)] == d.receipt.value
  }

  predicate AllSafe(env: Env, d: Disk, writes: seq<Write>)
    decreases |writes|
  {
    writes == [] || (Safe(env, d, writes[0]) && AllSafe(env, Put(env, d, writes[0]), writes[1..]))
  }

  lemma PlansAreSafe(env: Env, d: Disk, candidate: Receipt)
    requires PlanInit(env, d, candidate).Commit?
    ensures AllSafe(env, d, PlanInit(env, d, candidate).writes)
  {
    hide MergedHooks, HooksDrifted;
    var tail := ReceiptWrites(env, d, candidate);
    ReceiptWritesAreSafe(env, d, candidate);
    var merged := MergedHooks(d.hooks, env.events, env.pair(candidate));
    if merged != d.hooks {
      var next := d.(hooks := merged);
      ReceiptWritesAreSafe(env, next, candidate);
      assert ([PutHooks(merged)] + tail)[1..] == tail;
      assert ReceiptWrites(env, next, candidate) == tail;
    } else {
      assert [] + tail == tail;
    }
  }

  lemma ReceiptWritesAreSafe(env: Env, d: Disk, candidate: Receipt)
    requires PreflightError(env, d, candidate).None?
    ensures AllSafe(env, d, ReceiptWrites(env, d, candidate))
  {
    var writes := ReceiptWrites(env, d, candidate);
    if |writes| == 2 {
      assert writes[1..] == [PutReceipt(candidate)];
      assert writes[1..][1..] == [];
    } else if |writes| == 1 {
      assert writes[1..] == [];
    }
  }

  lemma {:induction false} SafeWritesKeep(env: Env, d: Disk, writes: seq<Write>, budget: nat, r: Receipt)
    requires Sound(env, d) && AllSafe(env, d, writes)
    ensures Sound(env, Apply(env, d, writes, budget))
    ensures Kept(env, d, r) ==> Kept(env, Apply(env, d, writes, budget), r)
    decreases |writes|
  {
    hide Sound, Kept, Safe, Put;
    if writes != [] && budget > 0 {
      SafeWriteKeeps(env, d, writes[0], r);
      SafeWritesKeep(env, Put(env, d, writes[0]), writes[1..], budget - 1, r);
    }
  }

  lemma SafeWriteKeeps(env: Env, d: Disk, w: Write, r: Receipt)
    requires Sound(env, d) && Safe(env, d, w)
    ensures Sound(env, Put(env, d, w))
    ensures Kept(env, d, r) ==> Kept(env, Put(env, d, w), r)
  {
    if w.Archive? {
      assert Put(env, d, w).history.Keys == d.history.Keys + {env.digest(w.receipt)};
    }
  }

  /** At every crash point of every sequence of runs, whatever their candidates:
      each receipt that was ever current is still current or archived, and the
      history stays within its cap. */
  lemma {:induction false} NothingIsLost(env: Env, d: Disk, attempts: seq<Attempt>, r: Receipt)
    requires Sound(env, d) && Kept(env, d, r)
    ensures Sound(env, Runs(env, d, attempts)) && Kept(env, Runs(env, d, attempts), r)
    decreases |attempts|
  {
    hide Sound, Kept, AllSafe, PlanInit;
    if attempts != [] {
      var t := attempts[0];
      if PlanInit(env, d, t.candidate).Commit? {
        PlansAreSafe(env, d, t.candidate);
        SafeWritesKeep(env, d, PlanInit(env, d, t.candidate).writes, t.budget, r);
      }
      NothingIsLost(env, Once(env, d, t), attempts[1..], r);
    }
  }

  // ----- what a finished run leaves -----

  /** One handler of this program, with this pair, and everybody else's as before. */
  predicate Installed(before: seq<Handler>, after: seq<Handler>, desired: Pair) {
    OwnedOnly(after) == [Aoi(desired)] && ForeignOnly(after) == ForeignOnly(before)
  }

  lemma {:induction false} PartsOfLonger(hs: seq<Handler>, h: Handler)
    ensures ForeignOnly(hs + [h]) == ForeignOnly(hs) + if h.Foreign? then [h] else []
    ensures OwnedOnly(hs + [h]) == OwnedOnly(hs) + if h.Foreign? then [] else [h]
  {
    if hs != [] {
      PartsOfLonger(hs[1..], h);
      assert (hs + [h])[1..] == hs[1..] + [h];
    } else {
      assert (hs + [h])[1..] == [];
    }
  }

  lemma {:induction false} ForeignOfForeign(hs: seq<Handler>)
    ensures ForeignOnly(ForeignOnly(hs)) == ForeignOnly(hs) && OwnedOnly(ForeignOnly(hs)) == []
  {
    if hs != [] {
      ForeignOfForeign(hs[1..]);
      if hs[0].Foreign? {
        assert ForeignOnly(hs)[1..] == ForeignOnly(hs[1..]);
      } else {
        assert ForeignOnly(hs) == ForeignOnly(hs[1..]);
      }
    }
  }

  lemma MergeInstalls(hs: seq<Handler>, desired: Pair)
    ensures Installed(hs, MergedEvent(hs, desired), desired)
    ensures MergedEvent(MergedEvent(hs, desired), desired) == MergedEvent(hs, desired)
  {
    if OwnedOnly(hs) != [Aoi(desired)] {
      ForeignOfForeign(hs);
      PartsOfLonger(ForeignOnly(hs), Aoi(desired));
      assert [] + [Aoi(desired)] == [Aoi(desired)];
    }
  }

  lemma {:induction false} OwnedMember(hs: seq<Handler>, i: nat)
    requires i < |hs| && !hs[i].Foreign?
    ensures hs[i] in OwnedOnly(hs)
  {
    if i > 0 {
      OwnedMember(hs[1..], i - 1);
      assert hs[1..][i - 1] == hs[i];
    }
  }

  lemma MergedDoesNotDrift(hs: seq<Handler>, desired: Pair, accepted: set<Pair>)
    requires desired in accepted
    ensures !Drifted(MergedEvent(hs, desired), accepted)
  {
    var after := MergedEvent(hs, desired);
    MergeInstalls(hs, desired);
    forall i | 0 <= i < |after| && after[i].Aoi? ensures after[i].pair == desired {
      OwnedMember(after, i);
    }
  }

  /** Merging again changes nothing, and its result is accepted. */
  lemma MergedHooksAreStable(hooks: Hooks, events: seq<string>, desired: Pair, accepted: set<Pair>)
    requires desired in accepted
    ensures var merged := MergedHooks(hooks, events, desired);
      && MergedHooks(merged, events, desired) == merged
      && !HooksDrifted(merged, events, accepted)
      && (forall e | e in events :: e in merged && Installed(HandlersOf(hooks, e), merged[e], desired))
      && (forall e | e in hooks && e !in events :: e in merged && merged[e] == hooks[e])
  {
    hide MergedEvent, Installed, Drifted;
    var merged := MergedHooks(hooks, events, desired);
    forall e | e in events
      ensures e in merged && merged[e] == MergedEvent(HandlersOf(hooks, e), desired)
      ensures MergedEvent(merged[e], desired) == merged[e] && !Drifted(merged[e], accepted)
      ensures Installed(HandlersOf(hooks, e), merged[e], desired)
    {
      var i :| 0 <= i < |events| && events[i] == e;
      MergeInstalls(HandlersOf(hooks, e), desired);
      MergedDoesNotDrift(HandlersOf(hooks, e), desired, accepted);
    }
    forall i | 0 <= i < |events| ensures !Drifted(HandlersOf(merged, events[i]), accepted) {
      assert events[i] in events;
    }
    assert MergedHooks(merged, events, desired).Keys == merged.Keys;
  }

  // ----- a rerun converges -----

  /** The disk a run of this candidate ends with when nothing stops it. */
  function Finished(env: Env, d: Disk, candidate: Receipt): Disk {
    Disk(MergedHooks(d.hooks, env.events, env.pair(candidate)),
         if d.receipt.Some? && d.receipt.value != candidate then d.history[env.digest(d.receipt.value) := d.receipt.value] else d.history,
         Some(candidate))
  }

  /** Where a run of this candidate may have stopped. */
  predicate Midway(env: Env, d: Disk, candidate: Receipt, at: Disk) {
    && (at.hooks == d.hooks || at.hooks == Finished(env, d, candidate).hooks)
    && (at.history == d.history || at.history == Finished(env, d, candidate).history)
    && (at.receipt == d.receipt || at.receipt == Some(candidate))
    && (at.history != d.history ==> at.hooks == Finished(env, d, candidate).hooks)
    && (at.receipt != d.receipt ==> at == Finished(env, d, candidate))
  }

  /** What a plan writes, one write at a time. */
  lemma PlanByWrites(env: Env, d: Disk, candidate: Receipt, budget: nat)
    requires PlanInit(env, d, candidate).Commit?
    ensures var writes := PlanInit(env, d, candidate).writes;
      var tail := ReceiptWrites(env, d, candidate);
      var merged := MergedHooks(d.hooks, env.events, env.pair(candidate));
      if merged == d.hooks then writes == tail
      else
        && |writes| == |tail| + 1
        && ReceiptWrites(env, d.(hooks := merged), candidate) == tail
        && Apply(env, d, writes, budget) ==
           if budget == 0 then d else Apply(env, d.(hooks := merged), tail, budget - 1)
  {
    hide MergedHooks, HooksDrifted, PreflightError, Accepted;
    var tail := ReceiptWrites(env, d, candidate);
    var merged := MergedHooks(d.hooks, env.events, env.pair(candidate));
    if merged == d.hooks {
      assert [] + tail == tail;
    } else {
      assert ([PutHooks(merged)] + tail)[1..] == tail;
    }
  }

  lemma PlanFinishes(env: Env, d: Disk, candidate: Receipt, budget: nat)
    requires PlanInit(env, d, candidate).Commit?
    ensures var writes := PlanInit(env, d, candidate).writes;
      && |writes| <= 3
      && Midway(env, d, candidate, Apply(env, d, writes, budget))
      && (budget >= 3 ==> Apply(env, d, writes, budget) == Finished(env, d, candidate))
  {
    hide MergedHooks, HooksDrifted, Apply, ReceiptWrites, PreflightError;
    var merged := MergedHooks(d.hooks, env.events, env.pair(candidate));
    PlanByWrites(env, d, candidate, budget);
    if merged == d.hooks {
      ReceiptWritesFinish(env, d, candidate, budget);
    } else if budget > 0 {
      PreflightIgnoresHooks(env, d, merged, candidate);
      ReceiptWritesFinish(env, d.(hooks := merged), candidate, budget - 1);
    } else {
      PreflightIgnoresHooks(env, d, merged, candidate);
      ReceiptWritesFinish(env, d.(hooks := merged), candidate, 0);
    }
  }

  lemma PreflightIgnoresHooks(env: Env, d: Disk, hooks: Hooks, candidate: Receipt)
    ensures PreflightError(env, d.(hooks := hooks), candidate) == PreflightError(env, d, candidate)
  {
  }

  lemma ReceiptWritesFinish(env: Env, d: Disk, candidate: Receipt, budget: nat)
    requires PreflightError(env, d, candidate).None?
    ensures var writes := ReceiptWrites(env, d, candidate);
      var end := Apply(env, d, writes, budget);
      var history := if d.receipt.Some? && d.receipt.value != candidate then d.history[env.digest(d.receipt.value) := d.receipt.value] else d.history;
      && |writes| <= 2
      && end.hooks == d.hooks
      && (end.history == d.history || end.history == history)
      && (end.receipt == d.receipt || (end.receipt == Some(candidate) && end.history == history))
      && (budget >= 2 ==> end.receipt == Some(candidate) && end.history == history)
  {
    var writes := ReceiptWrites(env, d, candidate);
    if |writes| == 2 {
      var first := Put(env, d, writes[0]);
      assert writes[1..] == [PutReceipt(candidate)] && writes[1..][1..] == [];
      assert budget >= 1 ==> Apply(env, d, writes, budget) == Apply(env, first, writes[1..], budget - 1);
      assert budget >= 2 ==> Apply(env, first, writes[1..], budget - 1) == Put(env, first, writes[1]);
    } else if |writes| == 1 {
      assert writes[1..] == [];
      assert d.receipt.Some? ==> d.history[env.digest(d.receipt.value) := d.receipt.value] == d.history;
    }
  }

  /** A rerun of the same candidate is accepted wherever an accepted run stopped,
      and heads for the same end. */
  lemma MidwayResumes(env: Env, d: Disk, candidate: Receipt, at: Disk)
    requires Sound(env, d) && PlanInit(env, d, candidate).Commit? && Midway(env, d, candidate, at)
    ensures PlanInit(env, at, candidate).Commit?
    ensures Finished(env, at, candidate) == Finished(env, d, candidate)
  {
    hide HooksDrifted, MergedHooks, PreflightError;
    MergedHooksAreStable(d.hooks, env.events, env.pair(candidate), Accepted(env, at, candidate));
    PreflightMidway(env, d, candidate, at);
  }

  lemma PreflightMidway(env: Env, d: Disk, candidate: Receipt, at: Disk)
    requires Sound(env, d) && PreflightError(env, d, candidate).None? && Midway(env, d, candidate, at)
    ensures PreflightError(env, at, candidate).None?
    ensures at.receipt == d.receipt ==> Accepted(env, at, candidate) == Accepted(env, d, candidate)
    ensures at.receipt == d.receipt && d.receipt.Some? && d.receipt.value != candidate ==>
      at.history[env.digest(d.receipt.value) := d.receipt.value] == d.history[env.digest(d.receipt.value) := d.receipt.value]
  {
    hide HooksDrifted, MergedHooks;
    if at.history != d.history {
      assert at.history.Keys == d.history.Keys + {env.digest(d.receipt.value)};
    }
  }

  lemma {:induction false} MidwayIsTransitive(env: Env, d: Disk, candidate: Receipt, at: Disk, end: Disk)
    requires Midway(env, d, candidate, at) && Midway(env, at, candidate, end)
    requires Finished(env, at, candidate) == Finished(env, d, candidate)
    ensures Midway(env, d, candidate, end)
  {
    hide MergedHooks;
  }

  predicate AllOf(attempts: seq<Attempt>, candidate: Receipt) {
    forall i | 0 <= i < |attempts| :: attempts[i].candidate == candidate
  }

  /** From any sound disk that accepts the candidate, every sequence of crashed
      runs of it, ended by one that is not interrupted, leaves the candidate's
      pair together with the candidate's receipt. */
  lemma {:induction false} RerunsConverge(env: Env, d: Disk, candidate: Receipt, at: Disk, attempts: seq<Attempt>)
    requires Sound(env, d) && PlanInit(env, d, candidate).Commit? && Midway(env, d, candidate, at)
    requires AllOf(attempts, candidate) && attempts != [] && attempts[|attempts| - 1].budget >= 3
    ensures Runs(env, at, attempts) == Finished(env, d, candidate)
    decreases |attempts|
  {
    hide PlanInit, Finished, Midway, Sound;
    MidwayResumes(env, d, candidate, at);
    PlanFinishes(env, at, candidate, attempts[0].budget);
    var next := Once(env, at, attempts[0]);
    if |attempts| > 1 {
      MidwayIsTransitive(env, d, candidate, at, next);
      RerunsConverge(env, d, candidate, next, attempts[1..]);
    } else {
      assert attempts[1..] == [];
    }
  }

  lemma FinishedHasPairAndReceipt(env: Env, d: Disk, candidate: Receipt)
    ensures Finished(env, d, candidate).receipt == Some(candidate)
    ensures forall e | e in env.events ::
      && e in Finished(env, d, candidate).hooks
      && Installed(HandlersOf(d.hooks, e), Finished(env, d, candidate).hooks[e], env.pair(candidate))
  {
    MergedHooksAreStable(d.hooks, env.events, env.pair(candidate), {env.pair(candidate)});
  }

  /** What a caller can look up before a run: no drifted handler, and room or an
      exact archive for the receipt that is to be replaced. */
  predicate Installable(env: Env, d: Disk, candidate: Receipt) {
    && !HooksDrifted(d.hooks, env.events, Accepted(env, d, candidate))
    && (|| d.receipt.None? || d.receipt == Some(candidate)
        || (|d.history| < HISTORY_MAX && env.digest(d.receipt.value) !in d.history)
        || Archived(env, d, d.receipt.value))
  }

  /** Reruns of a candidate, the last of them not interrupted, reach its pair and
      its receipt if and only if the candidate was installable to begin with;
      otherwise they change nothing. */
  lemma {:induction false} CandidateReachedIff(env: Env, d: Disk, candidate: Receipt, attempts: seq<Attempt>)
    requires Sound(env, d)
    requires AllOf(attempts, candidate) && attempts != [] && attempts[|attempts| - 1].budget >= 3
    ensures Runs(env, d, attempts) == Finished(env, d, candidate) <==> Installable(env, d, candidate)
    ensures !Installable(env, d, candidate) ==> Runs(env, d, attempts) == d
  {
    hide HooksDrifted, MergedHooks;
    if Installable(env, d, candidate) {
      assert PlanInit(env, d, candidate).Commit?;
      RerunsConverge(env, d, candidate, d, attempts);
    } else {
      assert PlanInit(env, d, candidate).Refuse?;
      RefusedRunsStay(env, d, candidate, attempts);
      MergedHooksAreStable(d.hooks, env.events, env.pair(candidate), Accepted(env, d, candidate));
    }
  }

  lemma {:induction false} RefusedRunsStay(env: Env, d: Disk, candidate: Receipt, attempts: seq<Attempt>)
    requires AllOf(attempts, candidate) && PlanInit(env, d, candidate).Refuse?
    ensures Runs(env, d, attempts) == d
    decreases |attempts|
  {
    hide PlanInit;
    if attempts != [] {
      RefusedRunsStay(env, d, candidate, attempts[1..]);
    }
  }

  predicate Archived(env: Env, d: Disk, r: Receipt) {
    env.digest(r) in d.history && d.history[env.digest(r)] == r
  }

  /** Once sixteen receipts are archived and the current one is not among them,
      no run ever replaces it. */
  lemma {:induction false} FullHistoryIsFinal(env: Env, d: Disk, current: Receipt, attempts: seq<Attempt>)
    requires d.receipt == Some(current) && |d.history| == HISTORY_MAX && env.digest(current) !in d.history
    ensures Runs(env, d, attempts).receipt == Some(current) && Runs(env, d, attempts).history == d.history
    decreases |attempts|
  {
    if attempts != [] {
      var t := attempts[0];
      if PlanInit(env, d, t.candidate).Commit? {
        PlanFinishes(env, d, t.candidate, t.budget);
      }
      FullHistoryIsFinal(env, Once(env, d, t), current, attempts[1..]);
    }
  }

  function Name(n: nat): string {
    seq(n, _ => 'x')
  }

  function Archives(n: nat): map<Digest, Receipt> {
    if n == 0 then map[] else Archives(n - 1)[Name(n) := Receipt(Name(n))]
  }

  lemma {:induction false} ArchivesAreMany(n: nat)
    ensures |Archives(n)| == n
    ensures forall k | k in Archives(n) :: |k| <= n && Archives(n)[k] == Receipt(k)
  {
    if n > 0 {
      ArchivesAreMany(n - 1);
      assert |Name(n)| == n;
    }
  }

  /** With sixteen archives and a seventeenth receipt current, no run whatever
      installs an eighteenth, even though its hooks are those of the seventeenth. */
  lemma NoEighteenthReceipt(events: seq<string>, attempts: seq<Attempt>)
    requires events != []
    ensures var env := Env((r: Receipt) => r.body, (r: Receipt) => "hook " + r.body, events);
      var d := Disk(MergedHooks(map[], events, "hook " + Name(17)), Archives(16), Some(Receipt(Name(17))));
      && Sound(env, d) && !HooksDrifted(d.hooks, events, Accepted(env, d, Receipt(Name(18))))
      && Runs(env, d, attempts).receipt == Some(Receipt(Name(17)))
  {
    hide MergedHooks, HooksDrifted;
    var env := Env((r: Receipt) => r.body, (r: Receipt) => "hook " + r.body, events);
    var d := Disk(MergedHooks(map[], events, "hook " + Name(17)), Archives(16), Some(Receipt(Name(17))));
    MergedHooksAreStable(map[], events, "hook " + Name(17), Accepted(env, d, Receipt(Name(18))));
    ArchivesAreMany(16);
    assert |Name(17)| == 17;
    FullHistoryIsFinal(env, d, Receipt(Name(17)), attempts);
  }

  /** After a crash between the hook pair and the receipt, only candidates with the
      pair that was published may go on; every other one is refused, the receipt
      that was to be replaced included. */
  lemma OtherCandidateAfterHookCrash(env: Env, d: Disk, candidate: Receipt, other: Receipt)
    requires PlanInit(env, d, candidate).Commit? && env.events != []
    requires d.receipt.Some? ==> env.pair(d.receipt.value) != env.pair(candidate)
    requires env.pair(other) != env.pair(candidate)
    ensures var crashed := d.(hooks := MergedHooks(d.hooks, env.events, env.pair(candidate)));
      PlanInit(env, crashed, other).Refuse?
  {
    hide MergedHooks, MergedEvent, PreflightError;
    var crashed := d.(hooks := MergedHooks(d.hooks, env.events, env.pair(candidate)));
    MergedHooksAreStable(d.hooks, env.events, env.pair(candidate), {env.pair(candidate)});
    assert env.events[0] in env.events;
    InstalledPairDrifts(crashed.hooks[env.events[0]], env.pair(candidate), Accepted(env, crashed, other));
  }

  lemma InstalledPairDrifts(hs: seq<Handler>, pair: Pair, accepted: set<Pair>)
    requires OwnedOnly(hs) == [Aoi(pair)] && pair !in accepted
    ensures Drifted(hs, accepted)
  {
    OwnedIsPresent(hs, Aoi(pair));
    var i :| 0 <= i < |hs| && hs[i] == Aoi(pair);
  }

  lemma {:induction false} OwnedIsPresent(hs: seq<Handler>, h: Handler)
    requires h in OwnedOnly(hs)
    ensures h in hs
  {
    if hs[0] != h {
      OwnedIsPresent(hs[1..], h);
    }
  }

  // ----- the command on a live project -----

  datatype Answer = Installed | Rejected(error: Refusal) | Crashed

  predicate DistinctEvents(events: seq<string>) {
    forall i, j | 0 <= i < j < |events| :: events[i] != events[j]
  }

  lemma NoEventsMerged(hooks: Hooks, events: seq<string>, desired: Pair)
    requires events == []
    ensures MergedHooks(hooks, events, desired) == hooks
  {
  }

  lemma NextEventMerged(hooks: Hooks, events: seq<string>, i: nat, desired: Pair)
    requires DistinctEvents(events) && i < |events|
    ensures var merged := MergedHooks(hooks, events[..i], desired);
      && HandlersOf(merged, events[i]) == HandlersOf(hooks, events[i])
      && merged[events[i] := MergedEvent(HandlersOf(hooks, events[i]), desired)] == MergedHooks(hooks, events[..i + 1], desired)
  {
    hide MergedEvent;
    var before, after, e := events[..i], events[..i + 1], events[i];
    assert after == before + [e] && e !in before;
    NamesOfLonger(before, e);
    var merged := MergedHooks(hooks, before, desired);
    assert e in merged <==> e in hooks;
    var next := merged[e := MergedEvent(HandlersOf(hooks, e), desired)];
    assert next.Keys == MergedHooks(hooks, after, desired).Keys;
    forall x | x in next ensures next[x] == MergedHooks(hooks, after, desired)[x] {
      assert x != e ==> (x in before <==> x in after);
    }
  }

  lemma NamesOfLonger(before: seq<string>, e: string)
    ensures (set k | 0 <= k < |before + [e]| :: (before + [e])[k]) == (set k | 0 <= k < |before| :: before[k]) + {e}
  {
    var after := before + [e];
    assert after[|before|] == e;
    assert forall k | 0 <= k < |before| :: before[k] == after[k];
  }

  class Project {
    const env: Env
    var hooks: Hooks
    var history: map<Digest, Receipt>
    var receipt: Option<Receipt>
    var budget: nat

    constructor (env: Env, d: Disk, budget: nat)
      ensures this.env == env && Contents() == d && this.budget == budget
    {
      this.env, hooks, history, receipt, this.budget := env, d.hooks, d.history, d.receipt, budget;
    }

    function Contents(): Disk
      reads this
    {
      Disk(hooks, history, receipt)
    }

    /** The merge of one event's handlers: everybody else's kept in order, this
        program's replaced. None when a handler carries a pair that drifted. */
    method MergeEvent(hs: seq<Handler>, desired: Pair, accepted: set<Pair>) returns (r: Option<seq<Handler>>)
      ensures r == if Drifted(hs, accepted) then None else Some(MergedEvent(hs, desired))
    {
      var owned: seq<Handler>, foreign: seq<Handler> := [], [];
      assert hs[0..] == hs;
      for i := 0 to |hs|
        invariant forall k | 0 <= k < i && hs[k].Aoi? :: hs[k].pair in accepted
        invariant owned == OwnedOnly(hs[..i]) && foreign == ForeignOnly(hs[..i])
      {
        assert hs[..i + 1] == hs[..i] + [hs[i]];
        PartsOfLonger(hs[..i], hs[i]);
        match hs[i] {
          case Foreign(_) => foreign := foreign + [hs[i]];
          case Legacy(_) => owned := owned + [hs[i]];
          case Aoi(pair) =>
            if pair !in accepted {
              return None;
            }
            owned := owned + [hs[i]];
        }
      }
      assert hs[..|hs|] == hs;
      return Some(if owned == [Aoi(desired)] then hs else foreign + [Aoi(desired)]);
    }

    /** The merge of the whole file, event by event. */
    method MergeHooks(desired: Pair, accepted: set<Pair>) returns (r: Option<Hooks>)
      requires DistinctEvents(env.events)
      ensures r == if HooksDrifted(hooks, env.events, accepted) then None else Some(MergedHooks(hooks, env.events, desired))
    {
      hide MergedEvent, Drifted, MergedHooks;
      var merged := hooks;
      NoEventsMerged(hooks, env.events[..0], desired);
      for i := 0 to |env.events|
        invariant forall k | 0 <= k < i :: !Drifted(HandlersOf(hooks, env.events[k]), accepted)
        invariant merged == MergedHooks(hooks, env.events[..i], desired)
      {
        var e := env.events[i];
        NextEventMerged(hooks, env.events, i, desired);
        var current := if e in merged then merged[e] else [];
        var next := MergeEvent(current, desired, accepted);
        if next.None? {
          return None;
        }
        merged := merged[e := next.value];
      }
      assert env.events[..|env.events|] == env.events;
      return Some(merged);
    }

    method Perform(w: Write) returns (alive: bool)
      modifies this
      ensures alive == (old(budget) > 0)
      ensures Contents() == if alive then Put(env, old(Contents()), w) else old(Contents())
      ensures budget == if alive then old(budget) - 1 else 0
    {
      alive := budget > 0;
      if alive {
        budget := budget - 1;
        match w
        case PutHooks(h) => hooks := h;
        case Archive(r) => history := history[env.digest(r) := r];
        case PutReceipt(r) => receipt := Some(r);
      }
    }

    /** `codex-init`: both preflights, then the pair, the archive, the receipt. */
    method CodexInit(candidate: Receipt) returns (answer: Answer)
      requires DistinctEvents(env.events)
      modifies this
      ensures Contents() == Once(env, old(Contents()), Attempt(candidate, old(budget)))
      ensures answer == match PlanInit(env, old(Contents()), candidate)
                        case Refuse(error) => Rejected(error)
                        case Commit(writes) => if |writes| <= old(budget) then Installed else Crashed
    {
      hide MergedHooks, HooksDrifted, Apply, ReceiptWrites, PreflightError;
      ghost var was, lived := Contents(), budget;
      var error := ProvenancePreflight(candidate);
      if error.Some? {
        return Rejected(error.value);
      }
      var accepted := {env.pair(candidate)};
      if receipt.Some? && receipt.value != candidate {
        accepted := accepted + {env.pair(receipt.value)};
      }
      assert accepted == Accepted(env, was, candidate);
      var merged := MergeHooks(env.pair(candidate), accepted);
      if merged.None? {
        return Rejected(HookDrift);
      }
      PlanByWrites(env, was, candidate, lived);
      if merged.value != hooks {
        var alive := Perform(PutHooks(merged.value));
        if !alive {
          return Crashed;
        }
      }
      PreflightIgnoresHooks(env, was, merged.value, candidate);
      answer := InstallReceipt(candidate);
    }

    method ProvenancePreflight(candidate: Receipt) returns (error: Option<Refusal>)
      ensures error == PreflightError(env, Contents(), candidate)
    {
      if receipt.None? || receipt.value == candidate {
        return None;
      }
      if |history| > HISTORY_MAX {
        return Some(HistoryOverfull);
      }
      var name := env.digest(receipt.value);
      if name in history {
        return if history[name] != receipt.value then Some(HistoryConflict) else None;
      }
      return if |history| >= HISTORY_MAX then Some(HistoryExhausted) else None;
    }

    method InstallReceipt(candidate: Receipt) returns (answer: Answer)
      requires PreflightError(env, Contents(), candidate).None?
      modifies this
      ensures var writes := ReceiptWrites(env, old(Contents()), candidate);
        && Contents() == Apply(env, old(Contents()), writes, old(budget))
        && answer == if |writes| <= old(budget) then Installed else Crashed
    {
      if receipt == Some(candidate) {
        return Installed;
      }
      ghost var was, lived := Contents(), budget;
      ghost var writes := ReceiptWrites(env, was, candidate);
      var alive := true;
      if receipt.Some? && env.digest(receipt.value) !in history {
        assert writes[1..] == [PutReceipt(candidate)];
        alive := Perform(Archive(receipt.value));
        if !alive {
          return Crashed;
        }
        assert Apply(env, was, writes, lived) == Apply(env, Contents(), writes[1..], lived - 1);
      } else {
        assert writes == [PutReceipt(candidate)];
      }
      ApplyOne(env, Contents(), PutReceipt(candidate), budget);
      alive := Perform(PutReceipt(candidate));
      return if alive then Installed else Crashed;
    }
  }
}
