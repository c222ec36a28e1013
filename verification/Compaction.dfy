/** Bounding a checkpoint: long string histories give way to a digest marker and
    a verbatim tail, and the largest view that fits is written. */
module Compaction {
  import opened Wrappers

  const COMPACT_FACT_HISTORY_THRESHOLD: nat := 16
  const COMPACT_FACT_RECENT_TAIL: nat := 8
  const CHECKPOINT_COMPACT_THRESHOLD_BYTES: nat := 16 * 1024
  const CHECKPOINT_MAX_BYTES: nat := 32 * 1024

  datatype Field = Facts | Decisions | RejectedPaths | ChangedFiles

  const FIELDS: seq<Field> := [Facts, Decisions, RejectedPaths, ChangedFiles]

  type History = seq<string>

  /** A value for each of the four fields. */
  type PerField<T> = map<Field, T>

  predicate Complete<T>(m: PerField<T>) {
    forall f: Field :: f in m
  }

  type Digest = string

  datatype Marker = Marker(field: Field, total: nat, omitted: nat, recent: nat, recentVerbatim: nat, valueDigest: Digest, fieldDigest: Digest)

  /** One line of a projected history. */
  datatype Line = Digested(marker: Marker) | Verbatim(entry: string)

  datatype Summary = Summary(marker: Marker, recent: History)

  /** Fields to digest even when short, and how much of each tail has to stay. */
  datatype Policy = Policy(forced: set<Field>, tails: PerField<nat>)

  const EMPTY_POLICY: Policy := Policy({}, map[Facts := 0, Decisions := 0, RejectedPaths := 0, ChangedFiles := 0])

  datatype Outcome<+T> = Ok(value: T) | Err(error: Fault)

  datatype Fault = NegativeBound | NotAPrefix(field: Field) | TailTooLong(field: Field) | NeedsCompactMode | BadThresholds

  /** The digests of a history, and whether an entry survives rendering as it is. */
  datatype Env = Env(value: History -> Digest, field: (Field, History) -> Digest, survives: string -> bool)

  // ----- one history -----

  function Suffix(entries: History, n: nat): History
    requires n <= |entries|
  {
    entries[|entries| - n..]
  }

  function Survivors(env: Env, entries: History): nat {
    if entries == [] then 0 else (if env.survives(entries[0]) then 1 else 0) + Survivors(env, entries[1..])
  }

  function CompactStringHistory(env: Env, entries: History, field: Field, minimumCount: int, recentTail: int, force: bool): Outcome<Option<Summary>> {
    if minimumCount < 0 || recentTail < 0 then Err(NegativeBound)
    else if entries == [] || (|entries| < minimumCount && !force) then Ok(None)
    else
      var count := if |entries| < recentTail then |entries| else recentTail;
      var recent := Suffix(entries, count);
      Ok(Some(Summary(
        Marker(field, |entries|, |entries| - count, count, Survivors(env, recent), env.value(entries), env.field(field, entries)),
        recent)))
  }

  function AsLines(entries: History): seq<Line> {
    seq(|entries|, i requires 0 <= i < |entries| => Verbatim(entries[i]))
  }

  /** The lines of a summary, or of the whole history where there is none. */
  function Shown(entries: History, summary: Option<Summary>): seq<Line> {
    if summary.Some? then [Digested(summary.value.marker)] + AsLines(summary.value.recent) else AsLines(entries)
  }

  // ----- the policy that a durable state imposes -----

  predicate Extends(candidate: History, durable: History) {
    durable <= candidate
  }

  /** The policy a durable state imposes on a candidate that extends it: every
      new entry stays, and no history is too short to be digested. */
  predicate Imposes(policy: Policy, candidate: PerField<History>, durable: PerField<History>, minimumCount: nat)
    requires Complete(candidate) && Complete(durable)
  {
    && Complete(policy.tails)
    && (forall f: Field :: Extends(candidate[f], durable[f]) && policy.tails[f] == |candidate[f]| - |durable[f]|)
    && (forall f: Field :: f in policy.forced <==> candidate[f] != [] && |candidate[f]| < minimumCount)
  }

  lemma EveryField(f: Field)
    ensures f in FIELDS
  {
    assert FIELDS[0] == Facts && FIELDS[1] == Decisions && FIELDS[2] == RejectedPaths && FIELDS[3] == ChangedFiles;
  }

  method DerivePolicy(candidate: PerField<History>, durable: PerField<History>, minimumCount: int) returns (r: Outcome<Policy>)
    requires Complete(candidate) && Complete(durable)
    ensures r.Ok? <==> minimumCount >= 0 && forall f: Field :: Extends(candidate[f], durable[f])
    ensures r.Ok? ==> Imposes(r.value, candidate, durable, minimumCount)
  {
    if minimumCount < 0 {
      return Err(NegativeBound);
    }
    var forced: set<Field>, tails: PerField<nat> := {}, map[];
    for i := 0 to |FIELDS|
      invariant forall k | 0 <= k < i :: Extends(candidate[FIELDS[k]], durable[FIELDS[k]])
      invariant forall k | 0 <= k < i :: FIELDS[k] in tails && tails[FIELDS[k]] == |candidate[FIELDS[k]]| - |durable[FIELDS[k]]|
      invariant forall f | f in forced :: candidate[f] != [] && |candidate[f]| < minimumCount
      invariant forall k | 0 <= k < i && candidate[FIELDS[k]] != [] && |candidate[FIELDS[k]]| < minimumCount :: FIELDS[k] in forced
    {
      var f := FIELDS[i];
      var entries, kept := candidate[f], durable[f];
      if |kept| > |entries| || entries[..|kept|] != kept {
        return Err(NotAPrefix(f));
      }
      if entries != [] && |entries| < minimumCount {
        forced := forced + {f};
      }
      tails := tails[f := |entries| - |kept|];
    }
    forall f: Field
      ensures Extends(candidate[f], durable[f]) && f in tails && tails[f] == |candidate[f]| - |durable[f]|
      ensures f in forced <==> candidate[f] != [] && |candidate[f]| < minimumCount
    {
      EveryField(f);
    }
    return Ok(Policy(forced, tails));
  }

  // ----- projecting all histories -----

  function Largest(a: int, b: int): int {
    if a < b then b else a
  }

  /** What is shown of one field. */
  function Projected(env: Env, entries: History, f: Field, compact: bool, minimumCount: int, recentTail: int, policy: Policy): Outcome<seq<Line>>
    requires Complete(policy.tails)
  {
    if policy.tails[f] > |entries| then Err(TailTooLong(f))
    else
      match CompactStringHistory(env, entries, f, if compact then minimumCount else |entries| + 1,
                                 Largest(recentTail, policy.tails[f]), f in policy.forced)
      case Err(e) => Err(e)
      case Ok(summary) => Ok(Shown(entries, summary))
  }

  predicate NeedsCompact(policy: Policy)
    requires Complete(policy.tails)
  {
    policy.forced != {} || exists f: Field :: policy.tails[f] > 0
  }

  method ProjectHistories(env: Env, histories: PerField<History>, compact: bool, minimumCount: int, recentTail: int, policy: Policy)
    returns (r: Outcome<PerField<seq<Line>>>)
    requires Complete(histories) && Complete(policy.tails)
    ensures r.Ok? <==>
      && (NeedsCompact(policy) ==> compact)
      && forall f: Field :: Projected(env, histories[f], f, compact, minimumCount, recentTail, policy).Ok?
    ensures r.Ok? ==> Complete(r.value)
    ensures r.Ok? ==> forall f: Field :: Ok(r.value[f]) == Projected(env, histories[f], f, compact, minimumCount, recentTail, policy)
  {
    hide Projected;
    if exists f: Field :: policy.tails[f] > 0 {
      var f: Field :| policy.tails[f] > 0;
      assert f == Facts || f == Decisions || f == RejectedPaths || f == ChangedFiles;
    }
    if (policy.forced != {} || policy.tails[Facts] > 0 || policy.tails[Decisions] > 0
        || policy.tails[RejectedPaths] > 0 || policy.tails[ChangedFiles] > 0) && !compact {
      return Err(NeedsCompactMode);
    }
    var projected: PerField<seq<Line>> := map[];
    for i := 0 to |FIELDS|
      invariant forall k | 0 <= k < i :: FIELDS[k] in projected
      invariant forall k | 0 <= k < i ::
        Ok(projected[FIELDS[k]]) == Projected(env, histories[FIELDS[k]], FIELDS[k], compact, minimumCount, recentTail, policy)
    {
      var f := FIELDS[i];
      var lines := Projected(env, histories[f], f, compact, minimumCount, recentTail, policy);
      if lines.Err? {
        return Err(lines.error);
      }
      projected := projected[f := lines.value];
    }
    forall f: Field
      ensures f in projected && Ok(projected[f]) == Projected(env, histories[f], f, compact, minimumCount, recentTail, policy)
    {
      EveryField(f);
    }
    return Ok(projected);
  }

  /** A digest marker and a verbatim suffix that add up to the whole history. */
  predicate MarkedSuffix(lines: seq<Line>, entries: History, n: nat) {
    && lines != [] && lines[0].Digested?
    && n <= |entries| && lines[1..] == AsLines(Suffix(entries, n))
    && lines[0].marker.recent == n && lines[0].marker.total == |entries|
    && lines[0].marker.omitted + lines[0].marker.recent == lines[0].marker.total
  }

  /** Under the policy of a durable prefix and the same minimum, the compact view
      of a history is empty, or a marker followed by a verbatim suffix at least as
      long as everything added since. */
  lemma NewEntriesStay(env: Env, candidate: PerField<History>, durable: PerField<History>, minimumCount: nat, recentTail: nat, policy: Policy, f: Field)
    requires Complete(candidate) && Complete(durable) && Imposes(policy, candidate, durable, minimumCount)
    ensures var r := Projected(env, candidate[f], f, true, minimumCount, recentTail, policy);
      && r.Ok?
      && (candidate[f] == [] ==> r.value == [])
      && (candidate[f] != [] ==>
            var n := if |candidate[f]| < Largest(recentTail, policy.tails[f]) then |candidate[f]| else Largest(recentTail, policy.tails[f]);
            MarkedSuffix(r.value, candidate[f], n) && n >= |candidate[f]| - |durable[f]|)
  {
    var entries := candidate[f];
    assert Extends(entries, durable[f]);
    var r := Projected(env, entries, f, true, minimumCount, recentTail, policy);
    if entries != [] {
      var n := if |entries| < Largest(recentTail, policy.tails[f]) then |entries| else Largest(recentTail, policy.tails[f]);
      assert r.value[1..] == AsLines(Suffix(entries, n));
    }
  }

  /** The last lines are the last n entries, verbatim. */
  predicate EndsWith(lines: seq<Line>, entries: History, n: nat) {
    n <= |entries| && n <= |lines| && lines[|lines| - n..] == AsLines(Suffix(entries, n))
  }

  /** Whatever the policy, the minimum and the tail: each required tail is shown
      verbatim at the end of its field. */
  lemma RequiredTailIsShown(env: Env, entries: History, f: Field, compact: bool, minimumCount: int, recentTail: int, policy: Policy)
    requires Complete(policy.tails) && Projected(env, entries, f, compact, minimumCount, recentTail, policy).Ok?
    ensures EndsWith(Projected(env, entries, f, compact, minimumCount, recentTail, policy).value, entries, policy.tails[f])
  {
    hide AsLines, Suffix, Survivors, EndsWith;
    var n := policy.tails[f];
    var summary := CompactStringHistory(env, entries, f, if compact then minimumCount else |entries| + 1,
                                        Largest(recentTail, n), f in policy.forced).value;
    if summary.Some? {
      var m := if |entries| < Largest(recentTail, n) then |entries| else Largest(recentTail, n);
      EndOfLines(Digested(summary.value.marker), entries, m, n);
    } else {
      EndOfAll(entries, n);
    }
  }

  lemma EndOfAll(entries: History, n: nat)
    requires n <= |entries|
    ensures EndsWith(AsLines(entries), entries, n)
  {
  }

  lemma SuffixOfSuffix(entries: History, m: nat, n: nat)
    requires n <= m <= |entries|
    ensures |Suffix(entries, m)| == m && Suffix(Suffix(entries, m), n) == Suffix(entries, n)
  {
  }

  lemma DropFirst<T>(first: T, rest: seq<T>, n: nat)
    requires n <= |rest|
    ensures ([first] + rest)[|[first] + rest| - n..] == rest[|rest| - n..]
  {
  }

  lemma EndOfLines(first: Line, entries: History, m: nat, n: nat)
    requires n <= m <= |entries|
    ensures EndsWith([first] + AsLines(Suffix(entries, m)), entries, n)
  {
    hide AsLines, Suffix;
    SuffixOfSuffix(entries, m, n);
    EndOfAll(Suffix(entries, m), n);
    DropFirst(first, AsLines(Suffix(entries, m)), n);
  }

  // ----- choosing the text -----

  /** The view that was written, if any. */
  datatype Choice = Full | Compact | Tail(tail: nat) | Nothing

  /** The sizes of the full view, of the compact view, and of each shorter tail. */
  datatype Sizes = Sizes(full: nat, compact: nat, tail: nat -> nat)

  predicate Fits(sizes: Sizes, maxBytes: nat, choice: Choice) {
    match choice
    case Full => sizes.full <= maxBytes
    case Compact => sizes.compact <= maxBytes
    case Tail(k) => sizes.tail(k) <= maxBytes
    case Nothing => true
  }

  /** The largest tail whose view fits. */
  method FirstFittingText(sizes: Sizes, highestTail: int, maxBytes: int) returns (r: Outcome<Choice>)
    ensures r.Err? <==> highestTail < 0 || maxBytes < 0
    ensures r.Ok? ==> r.value.Tail? || r.value.Nothing?
    ensures r.Ok? && r.value.Tail? ==>
      && r.value.tail <= highestTail && sizes.tail(r.value.tail) <= maxBytes
      && forall k | r.value.tail < k <= highestTail :: sizes.tail(k) > maxBytes
    ensures r.Ok? && r.value.Nothing? ==> forall k | 0 <= k <= highestTail :: sizes.tail(k) > maxBytes
  {
    if highestTail < 0 || maxBytes < 0 {
      return Err(NegativeBound);
    }
    var tail: int := highestTail;
    while tail >= 0
      invariant -1 <= tail <= highestTail
      invariant forall k | tail < k <= highestTail :: sizes.tail(k) > maxBytes
    {
      if sizes.tail(tail) <= maxBytes {
        return Ok(Tail(tail));
      }
      tail := tail - 1;
    }
    return Ok(Nothing);
  }

  /** `select_checkpoint_text`. Nothing is returned exactly when nothing fits, and
      the full view exactly when it is small, or fits where the compact one does
      not. */
  method SelectCheckpointText(sizes: Sizes, threshold: int, maxBytes: int, highestTail: int) returns (r: Outcome<Choice>)
    ensures r.Err? <==> threshold < 0 || maxBytes < 0 || highestTail < 0 || threshold > maxBytes
    ensures r.Ok? ==> Fits(sizes, maxBytes, r.value)
    ensures r == Ok(Nothing) <==>
      && r.Ok? && sizes.full > maxBytes && sizes.compact > maxBytes
      && forall k | 0 <= k <= highestTail :: sizes.tail(k) > maxBytes
    ensures r == Ok(Full) <==>
      r.Ok? && (sizes.full <= threshold || (sizes.full <= maxBytes && sizes.compact > maxBytes))
    ensures r == Ok(Compact) <==> r.Ok? && sizes.full > threshold && sizes.compact <= maxBytes
    ensures r.Ok? && r.value.Tail? ==>
      && r.value.tail <= highestTail && sizes.full > maxBytes && sizes.compact > maxBytes
      && forall k | r.value.tail < k <= highestTail :: sizes.tail(k) > maxBytes
  {
    if threshold < 0 || maxBytes < 0 || highestTail < 0 {
      return Err(NegativeBound);
    }
    if threshold > maxBytes {
      return Err(BadThresholds);
    }
    if sizes.full <= threshold {
      return Ok(Full);
    }
    if sizes.full <= maxBytes && sizes.compact > maxBytes {
      return Ok(Full);
    }
    if sizes.compact <= maxBytes {
      return Ok(Compact);
    }
    r := FirstFittingText(sizes, highestTail, maxBytes);
  }

  /** The documentation says a valid smaller full view is never replaced. The
      code keeps to that if and only if the compact view is no larger, or does
      not fit, or the full view is below the threshold or does not fit either. */
  method SmallerFullViewIsKeptIff(sizes: Sizes, threshold: nat, maxBytes: nat, highestTail: nat) returns (r: Outcome<Choice>, replaced: bool)
    requires threshold <= maxBytes
    ensures r.Ok?
    ensures replaced <==> sizes.full <= maxBytes && r.value == Compact && sizes.full < sizes.compact
    ensures replaced <==> threshold < sizes.full < sizes.compact <= maxBytes
  {
    r := SelectCheckpointText(sizes, threshold, maxBytes, highestTail);
    replaced := r == Ok(Compact) && sizes.full < sizes.compact;
  }

  /** A full view of 20 KiB gives way to a compact one of 30 KiB. */
  method LargerCompactViewReplacesFullView() returns (r: Outcome<Choice>)
    ensures r == Ok(Compact)
  {
    var sizes := Sizes(20 * 1024, 30 * 1024, k => 1024);
    r := SelectCheckpointText(sizes, CHECKPOINT_COMPACT_THRESHOLD_BYTES, CHECKPOINT_MAX_BYTES, COMPACT_FACT_RECENT_TAIL - 1);
  }

  // ----- the whole preparation -----

  /** The tail a choice renders with. */
  function TailOf(choice: Choice): nat {
    if choice.Tail? then choice.tail else COMPACT_FACT_RECENT_TAIL
  }

  /** What the chosen view shows of one field. */
  function ViewOf(env: Env, choice: Choice, entries: History, f: Field, policy: Policy): Outcome<seq<Line>>
    requires Complete(policy.tails)
  {
    if choice.Full? then Ok(AsLines(entries))
    else Projected(env, entries, f, true, COMPACT_FACT_HISTORY_THRESHOLD, TailOf(choice), policy)
  }

  /** Prepares a checkpoint. Under the state lock and with a durable state on disk,
      whichever view is chosen, everything added since the durable state is in it,
      verbatim. Without either, no policy is derived, and a field shows what was
      added to it exactly when it is shown in full or its tail is long enough. */
  method PrepareCheckpoint(env: Env, candidate: PerField<History>, durable: PerField<History>, sizes: Sizes, lockHeld: bool, onDisk: bool)
    returns (r: Outcome<Choice>, policy: Policy)
    requires Complete(candidate) && Complete(durable)
    ensures Complete(policy.tails)
    ensures r.Ok? ==> Fits(sizes, CHECKPOINT_MAX_BYTES, r.value)
    ensures sizes.full <= CHECKPOINT_COMPACT_THRESHOLD_BYTES ==> r == Ok(Full)
    ensures r.Err? <==>
      sizes.full > CHECKPOINT_COMPACT_THRESHOLD_BYTES && lockHeld && onDisk && exists f: Field :: !Extends(candidate[f], durable[f])
    ensures r.Ok? && sizes.full > CHECKPOINT_COMPACT_THRESHOLD_BYTES && lockHeld && onDisk ==>
      forall f: Field :: Extends(candidate[f], durable[f]) && ShowsNewEntries(env, r.value, candidate[f], durable[f], f, policy)
    ensures r.Ok? && !(lockHeld && onDisk) ==>
      forall f: Field | Extends(candidate[f], durable[f]) ::
        ShowsNewEntries(env, r.value, candidate[f], durable[f], f, policy) <==> ShownUnguarded(r.value, candidate[f], durable[f])
    ensures r.Ok? && !(lockHeld && onDisk) ==>
      && (r.value.Full? <==>
          sizes.full <= CHECKPOINT_COMPACT_THRESHOLD_BYTES || (sizes.full <= CHECKPOINT_MAX_BYTES && sizes.compact > CHECKPOINT_MAX_BYTES))
      && (r.value.Compact? <==> sizes.full > CHECKPOINT_COMPACT_THRESHOLD_BYTES && sizes.compact <= CHECKPOINT_MAX_BYTES)
  {
    policy := EMPTY_POLICY;
    forall f: Field ensures f in EMPTY_POLICY.tails {
      EveryField(f);
    }
    if sizes.full > CHECKPOINT_COMPACT_THRESHOLD_BYTES && lockHeld && onDisk {
      var derived := DerivePolicy(candidate, durable, COMPACT_FACT_HISTORY_THRESHOLD);
      if derived.Err? {
        return Err(derived.error), policy;
      }
      policy := derived.value;
    }
    r := SelectCheckpointText(sizes, CHECKPOINT_COMPACT_THRESHOLD_BYTES, CHECKPOINT_MAX_BYTES, COMPACT_FACT_RECENT_TAIL - 1);
    if sizes.full > CHECKPOINT_COMPACT_THRESHOLD_BYTES && lockHeld && onDisk {
      forall f: Field ensures ShowsNewEntries(env, r.value, candidate[f], durable[f], f, policy) {
        ViewShowsNewEntries(env, r.value, candidate, durable, policy, f);
      }
    } else {
      forall f: Field | Extends(candidate[f], durable[f])
        ensures !(lockHeld && onDisk) ==>
          (ShowsNewEntries(env, r.value, candidate[f], durable[f], f, policy) <==> ShownUnguarded(r.value, candidate[f], durable[f]))
      {
        UnguardedViewIff(env, r.value, candidate[f], durable[f], f);
      }
    }
  }

  /** What a view without a policy still shows of a field's new entries. */
  predicate ShownUnguarded(choice: Choice, entries: History, durable: History)
    requires Extends(entries, durable)
  {
    choice.Full? || |entries| < COMPACT_FACT_HISTORY_THRESHOLD || |entries| - |durable| <= TailOf(choice)
  }

  lemma UnguardedViewIff(env: Env, choice: Choice, entries: History, durable: History, f: Field)
    requires Complete(EMPTY_POLICY.tails) && Extends(entries, durable)
    requires choice.Tail? ==> choice.tail < COMPACT_FACT_RECENT_TAIL
    ensures ShowsNewEntries(env, choice, entries, durable, f, EMPTY_POLICY) <==> ShownUnguarded(choice, entries, durable)
  {
    var n := |entries| - |durable|;
    EveryField(f);
    if choice.Full? || |entries| < COMPACT_FACT_HISTORY_THRESHOLD {
      assert ViewOf(env, choice, entries, f, EMPTY_POLICY) == Ok(AsLines(entries));
      EndOfAll(entries, n);
    } else {
      var tail := TailOf(choice);
      var view := ViewOf(env, choice, entries, f, EMPTY_POLICY).value;
      assert view == [view[0]] + AsLines(Suffix(entries, tail)) && view[0].Digested?;
      if n <= tail {
        EndOfLines(view[0], entries, tail, n);
      } else {
        assert AsLines(Suffix(entries, n))[0].Verbatim?;
        assert n == |view| ==> view[|view| - n..] == view;
      }
    }
  }

  /** Twenty new facts, a full view of 20 KiB and a compact one of 10 KiB: without
      the lock, the text that is written hides twelve of them. */
  method UnlockedCheckpointHidesNewEntries(env: Env, facts: History) returns (r: Outcome<Choice>, policy: Policy)
    requires |facts| == 20
    ensures r == Ok(Compact) && Complete(policy.tails)
    ensures !ShowsNewEntries(env, r.value, facts, [], Facts, policy)
  {
    var none: PerField<History> := map[Facts := [], Decisions := [], RejectedPaths := [], ChangedFiles := []];
    forall f: Field ensures f in none && none[f] == [] {
      EveryField(f);
    }
    assert Extends(facts, none[Facts]) && none[Facts := facts][Facts] == facts;
    r, policy := PrepareCheckpoint(env, none[Facts := facts], none, Sizes(20 * 1024, 10 * 1024, k => 1024), false, true);
  }

  /** The view of a field ends with its new entries. */
  predicate ShowsNewEntries(env: Env, choice: Choice, entries: History, durable: History, f: Field, policy: Policy)
    requires Complete(policy.tails) && Extends(entries, durable)
  {
    var view := ViewOf(env, choice, entries, f, policy);
    view.Ok? && EndsWith(view.value, entries, |entries| - |durable|)
  }

  lemma ViewShowsNewEntries(env: Env, choice: Choice, candidate: PerField<History>, durable: PerField<History>, policy: Policy, f: Field)
    requires Complete(candidate) && Complete(durable) && Imposes(policy, candidate, durable, COMPACT_FACT_HISTORY_THRESHOLD)
    ensures ShowsNewEntries(env, choice, candidate[f], durable[f], f, policy)
  {
    hide Projected, AsLines, Suffix, MarkedSuffix, EndsWith;
    assert Extends(candidate[f], durable[f]);
    if choice.Full? {
      EndOfAll(candidate[f], |candidate[f]| - |durable[f]|);
    } else {
      NewEntriesStay(env, candidate, durable, COMPACT_FACT_HISTORY_THRESHOLD, TailOf(choice), policy, f);
      RequiredTailIsShown(env, candidate[f], f, true, COMPACT_FACT_HISTORY_THRESHOLD, TailOf(choice), policy);
    }
  }
}
