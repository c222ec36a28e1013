/** The quiescence seal: a bounded retry loop over a directory that another
    process may change between any two observations. Every observation, clock
    reading and read takes the next tick of an arbitrary world; the ghost log
    keeps what was seen at each tick. */
module FragmentQuiescence {
  import opened FragmentSnapshots
  import opened Wrappers

  const MAX_FRAGMENT_STABILITY_ATTEMPTS: nat := 8

  /** One walk of the directory. `Vanished`: a member disappeared before its
      lstat. `Broken`: the directory cannot be walked or has too many members. */
  datatype Observation = Members(snapshot: Snapshot) | Vanished | Broken

  datatype Reading = At(time: real) | NotFinite

  datatype Stage = SchemaPreflight | CoverageDataRead | CoverageDataClose | MeasuredFiles | ReaderUnclassified

  datatype Raised = ReadError(stage: Stage) | OtherException

  function StageOf(raised: Raised): Stage {
    if raised.ReadError? then raised.stage else ReaderUnclassified
  }

  datatype Consultation<+M> = Got(measured: M) | Failed(raised: Raised) | OutOfMemory

  datatype Event<+M> =
    | AttemptBegan
    | Listed(seen: Observation)
    | Clocked(reading: Reading)
    | Slept
    | Consulted(fragment: Name, outcome: Consultation<M>)

  /** What the other processes, the clock and the reader do at each tick. */
  datatype World<!M> = World(
    listing: nat -> Observation,
    clock: nat -> Reading,
    reader: (nat, Name) -> Consultation<M>)

  /** A walk that succeeds comes back sorted by name. */
  ghost predicate SortedWalks<M>(world: World<M>) {
    forall t: nat | world.listing(t).Members? :: Sorted(world.listing(t).snapshot)
  }

  // ----- reading the log -----

  predicate Occurs<M(==)>(world: World<M>, t: nat, e: Event<M>) {
    match e
    case Listed(seen) => seen == world.listing(t)
    case Clocked(reading) => reading == world.clock(t)
    case Consulted(fragment, outcome) => outcome == world.reader(t, fragment)
    case _ => true
  }

  predicate Honest<M(==)>(world: World<M>, log: seq<Event<M>>) {
    forall i | 0 <= i < |log| :: Occurs(world, i, log[i])
  }

  function Began<M>(log: seq<Event<M>>): nat {
    if log == [] then 0
    else Began(log[..|log| - 1]) + if log[|log| - 1].AttemptBegan? then 1 else 0
  }

  /** An attempt begins, and the first thing it does is to walk the directory. */
  predicate AttemptAt<M>(log: seq<Event<M>>, start: nat) {
    start + 1 < |log| && log[start].AttemptBegan? && log[start + 1].Listed?
  }

  predicate LastAttemptAt<M>(log: seq<Event<M>>, start: nat) {
    AttemptAt(log, start) && forall j | start < j < |log| :: !log[j].AttemptBegan?
  }

  /** Every walk since then saw exactly this snapshot. */
  predicate Steady<M>(log: seq<Event<M>>, since: nat, s: Snapshot) {
    forall j | since <= j < |log| && log[j].Listed? :: log[j].seen == Members(s)
  }

  /** Every measurement was read since then. */
  predicate ReadSince<M(==)>(log: seq<Event<M>>, since: nat, measured: map<Name, M>) {
    forall f | f in measured :: exists i | since <= i < |log| :: log[i] == Consulted(f, Got(measured[f]))
  }

  /** The clock never ran backwards, and this was its latest reading. */
  predicate ClockedBy<M(==)>(log: seq<Event<M>>, latest: real) {
    && (exists i | 0 <= i < |log| :: log[i] == Clocked(At(latest)))
    && (forall i | 0 <= i < |log| && log[i].Clocked? :: log[i].reading.At? && log[i].reading.time <= latest)
    && forall i, j | 0 <= i < j < |log| && log[i].Clocked? && log[j].Clocked? ::
         log[i].reading.time <= log[j].reading.time
  }

  /** From `at` on: a clock reading, a sleep, and a reading at least the
      interval later, then a walk. */
  predicate Waited<M>(log: seq<Event<M>>, at: nat, interval: real) {
    && at + 3 < |log|
    && log[at].Clocked? && log[at].reading.At?
    && log[at + 1].Slept?
    && log[at + 2].Clocked? && log[at + 2].reading.At?
    && log[at].reading.time + interval <= log[at + 2].reading.time
    && log[at + 3].Listed?
  }

  /** Two equal walks with at least the interval between them. */
  predicate Bracket<M>(log: seq<Event<M>>, at: nat, interval: real, s: Snapshot) {
    && Waited(log, at + 1, interval)
    && log[at] == Listed(Members(s)) && log[at + 4] == Listed(Members(s))
  }

  /** The measurements were read from members of `s` in attempts since then, and
      every walk since then has seen `s`. */
  predicate Backed<M(==)>(log: seq<Event<M>>, since: nat, s: Snapshot, measured: map<Name, M>) {
    && AttemptAt(log, since)
    && Steady(log, since, s)
    && ReadSince(log, since, measured)
    && forall f | f in measured :: f in NamesOf(s)
  }

  predicate NothingRead<M>(log: seq<Event<M>>, start: nat) {
    forall j | start <= j < |log| :: !log[j].Consulted?
  }

  predicate NothingFailed<M>(log: seq<Event<M>>, start: nat) {
    forall j | start <= j < |log| && log[j].Consulted? :: log[j].outcome.Got?
  }

  // ----- growing the log -----

  lemma ReadSinceGrows<M(!new)>(log: seq<Event<M>>, more: seq<Event<M>>, since: nat, measured: map<Name, M>)
    requires log <= more && ReadSince(log, since, measured)
    ensures ReadSince(more, since, measured)
  {
    forall f | f in measured ensures exists i | since <= i < |more| :: more[i] == Consulted(f, Got(measured[f])) {
      var i :| since <= i < |log| && log[i] == Consulted(f, Got(measured[f]));
      assert more[i] == log[i];
    }
  }

  lemma ReadSinceNext<M(!new)>(log: seq<Event<M>>, since: nat, measured: map<Name, M>, f: Name, m: M)
    requires ReadSince(log, since, measured) && since <= |log|
    ensures ReadSince(log + [Consulted(f, Got(m))], since, measured[f := m])
  {
    var more, grown := log + [Consulted(f, Got(m))], measured[f := m];
    ReadSinceGrows(log, more, since, measured);
    forall g | g in grown ensures exists i | since <= i < |more| :: more[i] == Consulted(g, Got(grown[g])) {
      if g == f {
        assert more[|log|] == Consulted(f, Got(m));
      } else {
        assert g in measured;
      }
    }
  }

  /** What was steady up to an attempt, and steady in it, is steady. */
  lemma SteadyJoins<M(!new)>(log: seq<Event<M>>, more: seq<Event<M>>, since: nat, s: Snapshot)
    requires log <= more && since <= |log|
    requires Steady(log, since, s) && Steady(more, |log|, s)
    ensures Steady(more, since, s)
  {
    forall j | since <= j < |more| && more[j].Listed? ensures more[j].seen == Members(s) {
      if j < |log| {
        assert more[j] == log[j];
      }
    }
  }

  lemma BackedGrows<M(!new)>(log: seq<Event<M>>, more: seq<Event<M>>, since: nat, s: Snapshot, measured: map<Name, M>)
    requires log <= more && Backed(log, since, s, measured) && Steady(more, |log|, s)
    ensures Backed(more, since, s, measured)
  {
    ReadSinceGrows(log, more, since, measured);
    SteadyJoins(log, more, since, s);
    assert more[since] == log[since] && more[since + 1] == log[since + 1];
  }

  lemma BackedFresh<M(!new)>(log: seq<Event<M>>, start: nat, s: Snapshot)
    requires AttemptAt(log, start) && Steady(log, start, s)
    ensures Backed(log, start, s, map[])
  {
  }

  lemma ClockAdvances<M(!new)>(log: seq<Event<M>>, latest: real, next: real)
    requires ClockedBy(log, latest) && latest <= next
    ensures ClockedBy(log + [Clocked(At(next))], next)
  {
    var more := log + [Clocked(At(next))];
    assert more[|log|] == Clocked(At(next));
    forall i | 0 <= i < |log| && more[i].Clocked? ensures more[i].reading.At? && more[i].reading.time <= latest {
      assert more[i] == log[i];
    }
    forall i, j | 0 <= i < j < |more| && more[i].Clocked? && more[j].Clocked?
      ensures more[i].reading.time <= more[j].reading.time
    {
      if j < |log| {
        assert more[i] == log[i] && more[j] == log[j];
      }
    }
  }

  lemma ClockKeeps<M(!new)>(log: seq<Event<M>>, latest: real, e: Event<M>)
    requires ClockedBy(log, latest) && !e.Clocked?
    ensures ClockedBy(log + [e], latest)
  {
    var more := log + [e];
    var last :| 0 <= last < |log| && log[last] == Clocked(At(latest));
    assert more[last] == Clocked(At(latest));
    forall i | 0 <= i < |more| && more[i].Clocked? ensures i < |log| && more[i] == log[i] {
    }
  }

  lemma EarlierReading<M(!new)>(log: seq<Event<M>>, latest: real, e: Event<M>)
    requires ClockedBy(log, latest)
    ensures exists i | 0 <= i < |log| :: (log + [e])[i] == Clocked(At(latest))
  {
    var i :| 0 <= i < |log| && log[i] == Clocked(At(latest));
    assert (log + [e])[i] == log[i];
  }

  // ----- why an attempt did not seal -----

  datatype Cause = WriterActive | Incomplete(reason: Reason) | Unreadable(fragment: Name, stage: Stage)

  predicate FailureIs<M>(e: Event<M>, fragment: Name, stage: Stage) {
    e.Consulted? && e.outcome.Failed? && e.fragment == fragment && StageOf(e.outcome.raised) == stage
  }

  predicate OnlyFailure<M>(log: seq<Event<M>>, start: nat, fragment: Name, stage: Stage) {
    && (exists k | start <= k < |log| :: FailureIs(log[k], fragment, stage))
    && forall k | start <= k < |log| && log[k].Consulted? && log[k].outcome.Failed? :: FailureIs(log[k], fragment, stage)
  }

  predicate Moved<M>(log: seq<Event<M>>, start: nat) {
    || (exists i | start <= i < |log| :: log[i] == Listed(Vanished))
    || exists i, j | start <= i < j < |log| && log[i].Listed? && log[j].Listed? :: log[i].seen != log[j].seen
  }

  /** The attempt that began at `start` failed for this cause: its walks
      disagree, or they agree on a set a writer has still to complete, or they
      agree on a clean set one of whose members could not be read. */
  ghost predicate CausedBy<M(!new)>(log: seq<Event<M>>, start: nat, cause: Cause) {
    match cause
    case WriterActive => Moved(log, start)
    case Incomplete(reason) => exists s :: Steady(log, start, s) && Judge(s) == Retry(reason)
    case Unreadable(fragment, stage) =>
      exists s :: Steady(log, start, s) && Judge(s) == Clean && OnlyFailure(log, start, fragment, stage)
  }

  /** The cause of an attempt is determined by what it observed. */
  lemma CauseIsUnique<M(!new)>(log: seq<Event<M>>, start: nat, a: Cause, b: Cause)
    requires AttemptAt(log, start) && CausedBy(log, start, a) && CausedBy(log, start, b)
    ensures a == b
  {
    hide Judge;
    assert log[start + 1].Listed?;
    if !a.WriterActive? {
      SteadyMeansUnmoved(log, start);
    }
    if !b.WriterActive? {
      SteadyMeansUnmoved(log, start);
    }
    if a.Unreadable? && b.Unreadable? {
      var k :| start <= k < |log| && FailureIs(log[k], a.fragment, a.stage);
      assert FailureIs(log[k], b.fragment, b.stage);
    }
  }

  lemma VanishedMoves<M(!new)>(log: seq<Event<M>>, start: nat, i: nat)
    requires start <= i < |log| && log[i] == Listed(Vanished)
    ensures CausedBy(log, start, WriterActive)
  {
  }

  lemma DifferenceMoves<M(!new)>(log: seq<Event<M>>, start: nat, i: nat, j: nat)
    requires start <= i < j < |log| && log[i].Listed? && log[j].Listed? && log[i].seen != log[j].seen
    ensures CausedBy(log, start, WriterActive)
  {
  }

  lemma FirstWalkVanished<M(!new)>(log: seq<Event<M>>, start: nat)
    requires |log| == start + 2 && log[start].AttemptBegan? && log[start + 1] == Listed(Vanished)
    ensures LastAttemptAt(log, start) && CausedBy(log, start, WriterActive)
  {
    VanishedMoves(log, start, start + 1);
  }

  /** An attempt up to its second walk. */
  predicate TwoWalks<M(==)>(log: seq<Event<M>>, start: nat, interval: real, first: Observation, second: Observation) {
    && |log| == start + 6
    && log[start].AttemptBegan?
    && log[start + 1] == Listed(first)
    && Waited(log, start + 2, interval)
    && log[start + 5] == Listed(second)
  }

  lemma TwoWalksShape<M(!new)>(log: seq<Event<M>>, start: nat, interval: real, first: Observation, second: Observation)
    requires TwoWalks(log, start, interval, first, second)
    ensures LastAttemptAt(log, start) && NothingRead(log, start)
    ensures first.Members? && first == second ==>
      Steady(log, start, first.snapshot) && Bracket(log, start + 1, interval, first.snapshot)
    ensures first != second || first.Vanished? || second.Vanished? ==> CausedBy(log, start, WriterActive)
  {
    assert log[start + 3].Slept?;
    forall j | start < j < |log| ensures !log[j].AttemptBegan? && !log[j].Consulted? {
      assert j == start + 1 || j == start + 2 || j == start + 3 || j == start + 4 || j == start + 5;
    }
    if first != second {
      DifferenceMoves(log, start, start + 1, start + 5);
    } else if first.Vanished? {
      VanishedMoves(log, start, start + 1);
    }
  }

  lemma AttemptContinues<M(!new)>(log: seq<Event<M>>, more: seq<Event<M>>, start: nat)
    requires LastAttemptAt(log, start) && log <= more
    requires forall j | |log| <= j < |more| :: !more[j].AttemptBegan?
    ensures LastAttemptAt(more, start)
  {
    assert more[start] == log[start] && more[start + 1] == log[start + 1];
    forall j | start < j < |more| ensures !more[j].AttemptBegan? {
      if j < |log| {
        assert more[j] == log[j];
      }
    }
  }

  /** Two more walks either keep the attempt steady or show a change. */
  lemma RecheckObserved<M(!new)>(log: seq<Event<M>>, more: seq<Event<M>>, start: nat, s: Snapshot, a: Snapshot, b: Snapshot)
    requires LastAttemptAt(log, start) && log <= more && Steady(log, start, s)
    requires |more| == |log| + 5 && more[|log|] == Listed(Members(a)) && more[|log| + 4] == Listed(Members(b))
    requires forall j | |log| < j < |log| + 4 :: !more[j].Listed?
    ensures a == s && b == s ==> Steady(more, |log|, s)
    ensures a != s || b != s ==> CausedBy(more, start, WriterActive)
  {
    assert more[start + 1] == log[start + 1] == Listed(Members(s));
    if a != s {
      DifferenceMoves(more, start, start + 1, |log|);
    } else if b != s {
      DifferenceMoves(more, start, start + 1, |log| + 4);
    }
  }

  lemma StillOnlyFailure<M(!new)>(log: seq<Event<M>>, more: seq<Event<M>>, start: nat, s: Snapshot, fragment: Name, stage: Stage)
    requires start <= |log| && log <= more && Steady(log, start, s) && Steady(more, |log|, s) && Judge(s) == Clean
    requires OnlyFailure(log, start, fragment, stage)
    requires forall j | |log| <= j < |more| :: !more[j].Consulted?
    ensures CausedBy(more, start, Unreadable(fragment, stage))
  {
    hide Judge;
    SteadyJoins(log, more, start, s);
    var k :| start <= k < |log| && FailureIs(log[k], fragment, stage);
    assert FailureIs(more[k], fragment, stage);
    forall k | start <= k < |more| && more[k].Consulted? && more[k].outcome.Failed? ensures FailureIs(more[k], fragment, stage) {
      assert more[k] == log[k];
    }
  }

  lemma AfterRead<M(!new)>(log: seq<Event<M>>, start: nat, s: Snapshot, f: Name, outcome: Consultation<M>)
    requires LastAttemptAt(log, start) && Steady(log, start, s) && NothingFailed(log, start)
    ensures var more := log + [Consulted(f, outcome)];
      && LastAttemptAt(more, start) && Steady(more, start, s)
      && (outcome.Got? ==> NothingFailed(more, start))
      && (outcome.Failed? ==> OnlyFailure(more, start, f, StageOf(outcome.raised)))
  {
    var more := log + [Consulted(f, outcome)];
    assert forall j | 0 <= j < |log| :: more[j] == log[j];
    if outcome.Failed? {
      assert FailureIs(more[|log|], f, StageOf(outcome.raised));
    }
  }

  lemma BackedNext<M(!new)>(log: seq<Event<M>>, since: nat, s: Snapshot, measured: map<Name, M>, f: Name, m: M)
    requires Backed(log, since, s, measured) && f in NamesOf(s)
    ensures Backed(log + [Consulted(f, Got(m))], since, s, measured[f := m])
  {
    ReadSinceNext(log, since, measured, f, m);
  }

  lemma BackedThrough<M(!new)>(log: seq<Event<M>>, since: nat, s: Snapshot, measured: map<Name, M>, e: Event<M>)
    requires Backed(log, since, s, measured) && e.Consulted?
    ensures Backed(log + [e], since, s, measured)
  {
    BackedGrows(log, log + [e], since, s, measured);
  }

  lemma FinalWalk<M(!new)>(log: seq<Event<M>>, more: seq<Event<M>>, start: nat, since: nat, s: Snapshot,
                           measured: map<Name, M>, last: Snapshot)
    requires LastAttemptAt(log, start) && Steady(log, start, s) && Backed(log, since, s, measured)
    requires more == log + [Listed(Members(last))]
    ensures last != s ==> CausedBy(more, start, WriterActive)
    ensures last == s ==> Backed(more, since, s, measured) && since <= start
  {
    assert more[start + 1] == log[start + 1];
    if last != s {
      DifferenceMoves(more, start, start + 1, |log|);
    } else {
      BackedGrows(log, more, since, s, measured);
      assert log[since].AttemptBegan?;
    }
  }

  lemma BracketStays<M(!new)>(log: seq<Event<M>>, more: seq<Event<M>>, at: nat, interval: real, s: Snapshot)
    requires log <= more && Bracket(log, at, interval, s)
    ensures Bracket(more, at, interval, s)
  {
    assert more[at] == log[at] && more[at + 1] == log[at + 1] && more[at + 2] == log[at + 2];
    assert more[at + 3] == log[at + 3] && more[at + 4] == log[at + 4];
  }

  lemma SteadyMeansUnmoved<M(!new)>(log: seq<Event<M>>, start: nat)
    ensures (exists s :: Steady(log, start, s)) ==> !Moved(log, start)
  {
    if s :| Steady(log, start, s) {
      forall i | start <= i < |log| && log[i].Listed? ensures log[i].seen == Members(s) {
      }
    }
  }

  // ----- results -----

  datatype Error =
    | BadAttempts | BadInterval
    | ListingBroken | BadShape | DestinationExists | InvalidSet(verdict: Verdict)
    | BadClock | IntervalTooShort | MemoryExhausted
    | StablyUnreadable(fragment: Name, stage: Stage)
    | UnexpectedOrEmpty(reason: Reason, last: Snapshot)
    | DidNotStabilize(last: Snapshot)

  predicate IsExhaustion(error: Error) {
    error.StablyUnreadable? || error.UnexpectedOrEmpty? || error.DidNotStabilize?
  }

  function CauseIn(error: Error): Cause
    requires IsExhaustion(error)
  {
    match error
    case StablyUnreadable(fragment, stage) => Unreadable(fragment, stage)
    case UnexpectedOrEmpty(reason, _) => Incomplete(reason)
    case DidNotStabilize(_) => WriterActive
  }

  /** What the last thing observed was when the loop gave up at once. */
  predicate StoppedBy<M>(log: seq<Event<M>>, error: Error, interval: real)
  {
    var n := |log|;
    n > 0 &&
    match error
    case ListingBroken => log[n - 1] == Listed(Broken)
    case BadShape =>
      log[n - 1].Listed? && log[n - 1].seen.Members? && !ValidShape(log[n - 1].seen.snapshot)
    case DestinationExists =>
      log[n - 1].Listed? && log[n - 1].seen.Members? && ReservedDestination in Problems(log[n - 1].seen.snapshot)
    case InvalidSet(verdict) =>
      && log[n - 1].Listed? && log[n - 1].seen.Members?
      && Judge(log[n - 1].seen.snapshot) == verdict && !verdict.Clean? && !verdict.Retry?
    case BadClock =>
      log[n - 1].Clocked? &&
      (log[n - 1].reading.NotFinite? ||
       exists i | 0 <= i < n - 1 && log[i].Clocked? && log[i].reading.At? :: log[n - 1].reading.time < log[i].reading.time)
    case IntervalTooShort =>
      && n > 2 && log[n - 1].Clocked? && log[n - 3].Clocked?
      && log[n - 1].reading.At? && log[n - 3].reading.At?
      && log[n - 1].reading.time < log[n - 3].reading.time + interval
    case MemoryExhausted => log[n - 1].Consulted? && log[n - 1].outcome.OutOfMemory?
    case _ => false
  }

  datatype Capture = Captured(snapshot: Snapshot) | Changed | Stop(error: Error)

  datatype Step<+T> = Next(value: T) | TryAgain | Halt(error: Error)

  datatype LastReason = WriterNotQuiescent | Problem(reason: Reason) | DataIncompleteOrInvalid

  datatype Outcome<+M> =
    | Again
    | Sealed(order: seq<Name>, measured: map<Name, M>, snapshot: Snapshot)
    | Refused(error: Error)

  /** `dict.get` on a snapshot. */
  function Lookup(s: Snapshot, name: Name): Option<Identity> {
    if s == [] then None else if s[0].name == name then Some(s[0].identity) else Lookup(s[1..], name)
  }

  predicate CoversExactly<M>(measured: map<Name, M>, order: seq<Name>) {
    (forall f | f in measured :: f in order) && forall f | f in order :: f in measured
  }

  function NamesOf(s: Snapshot): seq<Name> {
    seq(|s|, i requires 0 <= i < |s| => s[i].name)
  }

  /** The seal: from the attempt in which the oldest returned measurement was
      read up to the return, every walk saw the returned snapshot. */
  predicate SealedSince<M(==)>(log: seq<Event<M>>, since: nat, r: Outcome<M>, interval: real)
    requires r.Sealed?
  {
    && AttemptAt(log, since)
    && Steady(log, since, r.snapshot)
    && ReadSince(log, since, r.measured)
    && log[|log| - 1] == Listed(Members(r.snapshot))
    && exists at | since < at < |log| :: Bracket(log, at, interval, r.snapshot)
  }

  // ----- the loop -----

  class StabilityLoop<M(==, !new)> {
    const world: World<M>
    const interval: real
    var tick: nat
    ghost var log: seq<Event<M>>
    ghost var cacheSince: nat
    var lastTime: real
    var lastSnapshot: Snapshot
    var lastReason: LastReason
    var lastReader: Option<(Name, Stage)>
    var cachedSnapshot: Option<Snapshot>
    var cachedMeasurements: map<Name, M>

    constructor (world: World<M>, interval: real)
      ensures this.world == world && this.interval == interval
      ensures Recorded() && log == []
      ensures cachedSnapshot.None? && cachedMeasurements == map[]
      ensures lastReason == WriterNotQuiescent && lastReader.None? && lastSnapshot == []
    {
      this.world, this.interval := world, interval;
      tick, log, cacheSince := 0, [], 0;
      lastTime, lastSnapshot, lastReason, lastReader := 0.0, [], WriterNotQuiescent, None;
      cachedSnapshot, cachedMeasurements := None, map[];
    }

    ghost predicate Recorded()
      reads this
    {
      tick == |log| && Honest(world, log)
    }

    /** The cache never outlives the snapshot it was read under: since the
        attempt that filled it every walk has seen that snapshot. */
    ghost predicate CacheSoundIn(l: seq<Event<M>>)
      reads this
    {
      if cachedSnapshot.None? then cachedMeasurements == map[]
      else Backed(l, cacheSince, cachedSnapshot.value, cachedMeasurements)
    }

    ghost predicate CacheSound()
      reads this
    {
      CacheSoundIn(log)
    }

    ghost predicate Valid()
      reads this
    {
      Recorded() && ClockedBy(log, lastTime) && CacheSound() && SortedWalks(world)
    }

    ghost function CauseNoted(): Cause
      reads this
    {
      if lastReader.Some? then Unreadable(lastReader.value.0, lastReader.value.1)
      else if lastReason.Problem? then Incomplete(lastReason.reason)
      else WriterActive
    }

    // ----- one tick each -----

    ghost method Record(e: Event<M>)
      modifies `log
      ensures log == old(log) + [e]
      ensures Began(log) == Began(old(log)) + if e.AttemptBegan? then 1 else 0
    {
      log := log + [e];
      assert log[..|log| - 1] == old(log);
    }

    method Take() returns (c: Capture)
      requires Recorded()
      modifies `tick, `log
      ensures Recorded() && log == old(log) + [Listed(world.listing(|old(log)|))]
      ensures Began(log) == Began(old(log))
      ensures c == match world.listing(|old(log)|)
                   case Members(s) => if ValidShape(s) then Captured(s) else Stop(BadShape)
                   case Vanished => Changed
                   case Broken => Stop(ListingBroken)
      ensures c.Stop? ==> StoppedBy(log, c.error, interval)
    {
      var seen := world.listing(tick);
      Record(Listed(seen));
      tick := tick + 1;
      match seen
      case Members(s) => c := if ValidShape(s) then Captured(s) else Stop(BadShape);
      case Vanished => c := Changed;
      case Broken => c := Stop(ListingBroken);
    }

    method Monotonic() returns (r: Reading)
      requires Recorded()
      modifies `tick, `log
      ensures Recorded() && log == old(log) + [Clocked(r)]
      ensures Began(log) == Began(old(log))
    {
      r := world.clock(tick);
      Record(Clocked(r));
      tick := tick + 1;
    }

    method BeginAttempt()
      requires Recorded()
      modifies `tick, `log
      ensures Recorded() && log == old(log) + [AttemptBegan]
      ensures Began(log) == Began(old(log)) + 1
    {
      Record(AttemptBegan);
      tick := tick + 1;
    }

    method Sleep()
      requires Recorded()
      modifies `tick, `log
      ensures Recorded() && log == old(log) + [Slept]
      ensures Began(log) == Began(old(log))
    {
      Record(Slept);
      tick := tick + 1;
    }

    method Read(fragment: Name) returns (outcome: Consultation<M>)
      requires Recorded()
      modifies `tick, `log
      ensures Recorded() && log == old(log) + [Consulted(fragment, outcome)]
      ensures Began(log) == Began(old(log))
    {
      outcome := world.reader(tick, fragment);
      Record(Consulted(fragment, outcome));
      tick := tick + 1;
    }

    // ----- the closures over the retry state -----

    method ResetReaderCache()
      modifies `cachedSnapshot, `cachedMeasurements
      ensures cachedSnapshot.None? && cachedMeasurements == map[]
    {
      cachedSnapshot, cachedMeasurements := None, map[];
    }

    method NoteWriterChange()
      modifies `lastReason, `lastReader, `cachedSnapshot, `cachedMeasurements
      ensures CauseNoted() == WriterActive && !lastReason.Problem?
      ensures cachedSnapshot.None? && cachedMeasurements == map[]
    {
      lastReason, lastReader := WriterNotQuiescent, None;
      ResetReaderCache();
    }

    /** Waits out the interval on a clock that may not run backwards, and walks. */
    method PostIntervalSnapshot() returns (c: Capture)
      requires Recorded() && ClockedBy(log, lastTime)
      modifies `tick, `log, `lastTime
      ensures Recorded() && old(log) <= log && Began(log) == Began(old(log))
      ensures forall j | |old(log)| <= j < |log| :: !log[j].AttemptBegan? && !log[j].Consulted?
      ensures forall j | |old(log)| <= j < |log| && log[j].Listed? :: j == |old(log)| + 3
      ensures !c.Stop? ==>
        && ClockedBy(log, lastTime) && |log| == |old(log)| + 4
        && Waited(log, |old(log)|, interval)
        && log[|old(log)| + 3] == Listed(if c.Captured? then Members(c.snapshot) else Vanished)
      ensures c.Captured? ==> ValidShape(c.snapshot)
      ensures c.Stop? ==> StoppedBy(log, c.error, interval) && !IsExhaustion(c.error)
    {
      hide ClockedBy, Honest, Occurs, Began;
      ghost var was, at := log, |log|;
      var beforeSleep := Monotonic();
      if beforeSleep.NotFinite? {
        return Stop(BadClock);
      }
      if beforeSleep.time < lastTime {
        EarlierReading(was, lastTime, Clocked(beforeSleep));
        return Stop(BadClock);
      }
      ClockAdvances(was, lastTime, beforeSleep.time);
      ClockKeeps(log, beforeSleep.time, Slept);
      Sleep();
      was := log;
      var afterSleep := Monotonic();
      if afterSleep.NotFinite? {
        return Stop(BadClock);
      }
      if afterSleep.time < beforeSleep.time {
        EarlierReading(was, beforeSleep.time, Clocked(afterSleep));
        return Stop(BadClock);
      }
      if afterSleep.time < beforeSleep.time + interval {
        return Stop(IntervalTooShort);
      }
      ClockAdvances(was, beforeSleep.time, afterSleep.time);
      lastTime := afterSleep.time;
      ClockKeeps(log, lastTime, Listed(world.listing(|log|)));
      c := Take();
    }

    // ----- one attempt -----

    /** An attempt that did not seal leaves a sound cache and its own cause. */
    ghost predicate GaveUp(start: nat)
      reads this
    {
      && Recorded() && ClockedBy(log, lastTime) && CacheSound()
      && LastAttemptAt(log, start) && CausedBy(log, start, CauseNoted())
      && (lastReason.Problem? ==> Retryable(lastReason.reason))
    }

    /** Two walks with the interval between them agree on a clean set; the cache
        is then the cache of that set. */
    method BracketSet(ghost start: nat) returns (step: Step<Snapshot>)
      requires Recorded() && ClockedBy(log, lastTime) && SortedWalks(world)
      requires start + 1 == |log| && log[start].AttemptBegan? && CacheSoundIn(log[..start])
      modifies this
      ensures Recorded() && old(log) <= log && Began(log) == Began(old(log))
      ensures step.TryAgain? ==> GaveUp(start)
      ensures step.Halt? ==> StoppedBy(log, step.error, interval) && !IsExhaustion(step.error)
      ensures step.Next? ==>
        && ClockedBy(log, lastTime) && LastAttemptAt(log, start) && Steady(log, start, step.value)
        && Bracket(log, start + 1, interval, step.value) && NothingRead(log, start)
        && Judge(step.value) == Clean && Sorted(step.value)
        && cachedSnapshot == Some(step.value) && Backed(log, cacheSince, step.value, cachedMeasurements)
    {
      hide ClockedBy, Honest, Occurs, Began, Judge, ValidShape, Problems, Backed;
      hide Steady, CausedBy, Bracket, NothingRead, LastAttemptAt;
      ghost var prior := log[..start];
      ClockKeeps(log, lastTime, Listed(world.listing(|log|)));
      var before := Take();
      if before.Stop? {
        return Halt(before.error);
      }
      if before.Changed? {
        FirstWalkVanished(log, start);
        NoteWriterChange();
        return TryAgain;
      }
      lastSnapshot := before.snapshot;
      var problems := SnapshotProblems(before.snapshot);
      if ReservedDestination in problems {
        return Halt(DestinationExists);
      }
      var after := PostIntervalSnapshot();
      if after.Stop? {
        return Halt(after.error);
      }
      ghost var second := if after.Captured? then Members(after.snapshot) else Vanished;
      TwoWalksShape(log, start, interval, Members(before.snapshot), second);
      if after.Changed? {
        NoteWriterChange();
        return TryAgain;
      }
      var stable := after.snapshot;
      lastSnapshot := stable;
      if before.snapshot != stable {
        NoteWriterChange();
        return TryAgain;
      }
      assert log[..start] == prior;
      step := Admit(start, stable);
    }

    /** Judges an agreed set, and drops the cache of any other. */
    method Admit(ghost start: nat, stable: Snapshot) returns (step: Step<Snapshot>)
      requires Recorded() && ClockedBy(log, lastTime) && SortedWalks(world)
      requires LastAttemptAt(log, start) && Steady(log, start, stable) && NothingRead(log, start)
      requires start + 1 < |log| && CacheSoundIn(log[..start])
      requires log[|log| - 1] == Listed(Members(stable))
      modifies `lastReason, `lastReader, `cachedSnapshot, `cachedMeasurements, `cacheSince
      ensures step.TryAgain? ==> GaveUp(start)
      ensures step.Halt? ==> StoppedBy(log, step.error, interval) && !IsExhaustion(step.error)
      ensures step.Next? ==>
        && step.value == stable && Judge(stable) == Clean && Sorted(stable)
        && cachedSnapshot == Some(stable) && Backed(log, cacheSince, stable, cachedMeasurements)
    {
      hide ClockedBy, Began, Judge, ValidShape, Problems, Backed;
      var verdict := Judge(stable);
      if verdict.Retry? {
        VerdictMeaning(stable);
        lastReason, lastReader := Problem(verdict.first), None;
        ResetReaderCache();
        return TryAgain;
      }
      if !verdict.Clean? {
        return Halt(InvalidSet(verdict));
      }
      assert Occurs(world, |log| - 1, log[|log| - 1]);
      if cachedSnapshot != Some(stable) {
        ResetReaderCache();
        cachedSnapshot := Some(stable);
        cacheSince := start;
        BackedFresh(log, start, stable);
      } else {
        BackedGrows(log[..start], log, cacheSince, stable, cachedMeasurements);
      }
      return Next(stable);
    }

    /** After a failed read: unless two more walks, the interval between them,
        still agree with the set, the failure is the writer's doing. */
    method RecheckAfterFailure(ghost start: nat, fragment: Name, raised: Raised,
                               stable: Snapshot, measured: map<Name, M>)
      returns (step: Step<map<Name, M>>)
      requires Recorded() && ClockedBy(log, lastTime)
      requires LastAttemptAt(log, start) && Steady(log, start, stable) && Judge(stable) == Clean
      requires start < |log| && OnlyFailure(log, start, fragment, StageOf(raised))
      requires cachedSnapshot == Some(stable) && Backed(log, cacheSince, stable, measured)
      modifies this
      ensures Recorded() && old(log) <= log && Began(log) == Began(old(log))
      ensures !step.Next? && (step.TryAgain? ==> GaveUp(start))
      ensures step.Halt? ==> StoppedBy(log, step.error, interval) && !IsExhaustion(step.error)
    {
      hide ClockedBy, Honest, Occurs, Began, Judge, ValidShape, Problems, Backed;
      hide Steady, CausedBy, LastAttemptAt, OnlyFailure;
      ghost var prior := log;
      ClockKeeps(log, lastTime, Listed(world.listing(|log|)));
      var immediate := Take();
      if immediate.Stop? {
        return Halt(immediate.error);
      }
      AttemptContinues(prior, log, start);
      if immediate.Changed? {
        VanishedMoves(log, start, |log| - 1);
        NoteWriterChange();
        return TryAgain;
      }
      var after := PostIntervalSnapshot();
      if after.Stop? {
        return Halt(after.error);
      }
      AttemptContinues(prior, log, start);
      if after.Changed? {
        VanishedMoves(log, start, |log| - 1);
        NoteWriterChange();
        return TryAgain;
      }
      lastSnapshot := after.snapshot;
      var sameFailing := Lookup(immediate.snapshot, fragment) == Lookup(stable, fragment)
                         && Lookup(after.snapshot, fragment) == Lookup(stable, fragment);
      var sameFull := immediate.snapshot == stable && after.snapshot == stable;
      RecheckObserved(prior, log, start, stable, immediate.snapshot, after.snapshot);
      if !sameFailing || !sameFull {
        NoteWriterChange();
        return TryAgain;
      }
      StillOnlyFailure(prior, log, start, stable, fragment, StageOf(raised));
      BackedGrows(prior, log, cacheSince, stable, measured);
      lastReason := DataIncompleteOrInvalid;
      cachedMeasurements := measured;
      lastReader := Some((fragment, StageOf(raised)));
      return TryAgain;
    }

    /** Reads every member that the cache does not already hold. */
    method ReadMembers(ghost start: nat, stable: Snapshot) returns (step: Step<map<Name, M>>)
      requires Recorded() && ClockedBy(log, lastTime)
      requires LastAttemptAt(log, start) && Steady(log, start, stable) && Judge(stable) == Clean
      requires NothingFailed(log, start)
      requires cachedSnapshot == Some(stable) && Backed(log, cacheSince, stable, cachedMeasurements)
      modifies this
      ensures Recorded() && old(log) <= log && Began(log) == Began(old(log))
      ensures step.TryAgain? ==> GaveUp(start)
      ensures step.Halt? ==> StoppedBy(log, step.error, interval) && !IsExhaustion(step.error)
      ensures step.Next? ==>
        && ClockedBy(log, lastTime) && LastAttemptAt(log, start)
        && Backed(log, cacheSince, stable, step.value)
        && Steady(log, start, stable)
        && forall k | 0 <= k < |stable| :: stable[k].name in step.value
    {
      hide ClockedBy, Honest, Occurs, Began, Judge, Backed, Steady, LastAttemptAt, NothingFailed;
      var measured := cachedMeasurements;
      for i := 0 to |stable|
        invariant Recorded() && old(log) <= log && Began(log) == Began(old(log))
        invariant ClockedBy(log, lastTime) && LastAttemptAt(log, start)
        invariant Steady(log, start, stable) && NothingFailed(log, start)
        invariant cachedSnapshot == Some(stable) && Backed(log, cacheSince, stable, measured)
        invariant forall k | 0 <= k < i :: stable[k].name in measured
      {
        var fragment := stable[i].name;
        if fragment in measured {
          continue;
        }
        ghost var was := log;
        var outcome := Read(fragment);
        AfterRead(was, start, stable, fragment, outcome);
        ClockKeeps(was, lastTime, Consulted(fragment, outcome));
        match outcome {
          case OutOfMemory => return Halt(MemoryExhausted);
          case Got(m) =>
            assert NamesOf(stable)[i] == fragment;
            BackedNext(was, cacheSince, stable, measured, fragment, m);
            measured := measured[fragment := m];
          case Failed(raised) =>
            BackedThrough(was, cacheSince, stable, measured, Consulted(fragment, outcome));
            step := RecheckAfterFailure(start, fragment, raised, stable, measured);
            return;
        }
      }
      return Next(measured);
    }

    /** One attempt, from its first walk to its last. */
    method Attempt() returns (r: Outcome<M>)
      requires Valid()
      modifies this
      ensures Recorded() && old(log) <= log && Began(log) == Began(old(log)) + 1
      ensures r.Again? ==> GaveUp(|old(log)|)
      ensures r.Refused? ==> StoppedBy(log, r.error, interval) && !IsExhaustion(r.error)
      ensures r.Sealed? ==>
        && Judge(r.snapshot) == Clean
        && r.order == NamesOf(r.snapshot) && Sorted(r.snapshot)
        && CoversExactly(r.measured, r.order)
        && ClockedBy(log, lastTime)
        && exists since :: SealedSince(log, since, r, interval)
    {
      hide ClockedBy, Honest, Occurs, Began, Judge, Steady, Sorted, ReadSince, Waited, CausedBy, ValidShape, Bracket, StoppedBy;
      ghost var start, prior := |log|, log;
      ClockKeeps(log, lastTime, AttemptBegan);
      BeginAttempt();
      assert log[..start] == prior;
      var bracket := BracketSet(start);
      if bracket.Halt? {
        return Refused(bracket.error);
      }
      if bracket.TryAgain? {
        return Again;
      }
      var stable := bracket.value;
      ghost var bracketed := log;
      var outcome := ReadMembers(start, stable);
      if outcome.Halt? {
        return Refused(outcome.error);
      }
      if outcome.TryAgain? {
        return Again;
      }
      ghost var read := log;
      ghost var since := cacheSince;
      r := Conclude(start, stable, outcome.value);
      if r.Sealed? {
        BracketStays(bracketed, log, start + 1, interval, stable);
        assert SealedSince(log, since, r, interval);
      }
    }

    /** The last walk of an attempt whose members have all been read. */
    method Conclude(ghost start: nat, stable: Snapshot, measured: map<Name, M>) returns (r: Outcome<M>)
      requires Recorded() && ClockedBy(log, lastTime)
      requires start < |log| && LastAttemptAt(log, start) && Steady(log, start, stable)
      requires Backed(log, cacheSince, stable, measured)
      modifies this
      ensures Recorded() && old(log) <= log && Began(log) == Began(old(log))
      ensures r.Again? ==> GaveUp(start)
      ensures r.Refused? ==> StoppedBy(log, r.error, interval) && !IsExhaustion(r.error)
      ensures r.Sealed? ==>
        && r == Sealed(NamesOf(stable), measured, stable) && ClockedBy(log, lastTime)
        && Backed(log, old(cacheSince), stable, measured) && old(cacheSince) <= start
        && log[|log| - 1] == Listed(Members(stable))
    {
      hide ClockedBy, Honest, Occurs, Began, Judge, Steady, ReadSince, CausedBy, ValidShape, LastAttemptAt;
      ghost var read := log;
      ClockKeeps(log, lastTime, Listed(world.listing(|log|)));
      var final := Take();
      if final.Stop? {
        return Refused(final.error);
      }
      AttemptContinues(read, log, start);
      if final.Changed? {
        VanishedMoves(log, start, |log| - 1);
        NoteWriterChange();
        return Again;
      }
      FinalWalk(read, log, start, cacheSince, stable, measured, final.snapshot);
      if final.snapshot != stable {
        NoteWriterChange();
        return Again;
      }
      return Sealed(NamesOf(stable), measured, stable);
    }

    /** The whole loop. Whatever the world does, it returns a seal, or stops at
        an observation that justifies it, or uses up its attempts and reports
        exactly what stopped the last one. */
    method ReadStableFragmentSet(attempts: int, intervalIsNumber: bool) returns (r: Outcome<M>)
      requires SortedWalks(world)
      requires Recorded() && log == [] && cachedSnapshot.None? && cachedMeasurements == map[]
      requires lastReason == WriterNotQuiescent && lastReader.None?
      modifies this
      ensures Recorded() && !r.Again?
      ensures r.Sealed? ==>
        && Judge(r.snapshot) == Clean
        && r.order == NamesOf(r.snapshot) && Sorted(r.snapshot)
        && CoversExactly(r.measured, r.order)
        && (exists latest :: ClockedBy(log, latest))
        && exists since :: SealedSince(log, since, r, interval)
      ensures r == Refused(BadAttempts) <==> !(1 <= attempts <= MAX_FRAGMENT_STABILITY_ATTEMPTS)
      ensures r == Refused(BadInterval) <==>
        1 <= attempts <= MAX_FRAGMENT_STABILITY_ATTEMPTS && (!intervalIsNumber || interval <= 0.0)
      ensures r.Refused? && IsExhaustion(r.error) ==>
        && Began(log) == attempts
        && exists start :: LastAttemptAt(log, start) && CausedBy(log, start, CauseIn(r.error))
      ensures r.Refused? && !IsExhaustion(r.error) && !r.error.BadAttempts? && !r.error.BadInterval? ==>
        StoppedBy(log, r.error, interval)
    {
      hide Honest, ClockedBy, Began, Backed, Judge, Sorted, SealedSince, CausedBy, LastAttemptAt, NamesOf;
      if !(1 <= attempts <= MAX_FRAGMENT_STABILITY_ATTEMPTS) {
        return Refused(BadAttempts);
      }
      if !intervalIsNumber || interval <= 0.0 {
        return Refused(BadInterval);
      }
      var began := Monotonic();
      if began.NotFinite? {
        return Refused(BadClock);
      }
      lastTime := began.time;
      StartOfClock(log, lastTime);
      ghost var start: nat := 0;
      for n := 0 to attempts
        invariant Valid() && Began(log) == n
        invariant lastReason.Problem? ==> Retryable(lastReason.reason)
        invariant n > 0 ==> LastAttemptAt(log, start) && CausedBy(log, start, CauseNoted())
      {
        start := |log|;
        r := Attempt();
        if !r.Again? {
          return r;
        }
      }
      if lastReader.Some? {
        return Refused(StablyUnreadable(lastReader.value.0, lastReader.value.1));
      }
      if lastReason.Problem? && Retryable(lastReason.reason) {
        return Refused(UnexpectedOrEmpty(lastReason.reason, lastSnapshot));
      }
      return Refused(DidNotStabilize(lastSnapshot));
    }
  }

  lemma StartOfClock<M(!new)>(log: seq<Event<M>>, latest: real)
    requires log == [Clocked(At(latest))]
    ensures ClockedBy(log, latest) && Began(log) == 0
  {
    assert log[0] == Clocked(At(latest));
    assert log[..0] == [];
  }

  // ----- the cached result and an uncached re-read -----

  /** The true state of one fragment at each tick. A walk tells the truth about it,
      a read depends on nothing but its identity, and an identity that has changed
      does not come back. */
  ghost predicate IdentityDecides<M(!new)>(world: World<M>, disk: nat -> Option<Identity>, f: Name) {
    && (forall t: nat, e | world.listing(t).Members? && e in world.listing(t).snapshot :: e.name == f ==> disk(t) == Some(e.identity))
    && (forall t: nat, u: nat | disk(t).Some? && disk(t) == disk(u) :: world.reader(t, f) == world.reader(u, f))
    && (forall t: nat, u: nat, v: nat | t <= u <= v && disk(t).Some? && disk(t) == disk(v) :: disk(u) == disk(t))
  }

  /** At any tick from the attempt that filled the cache to the return, reading
      a member afresh gives what the seal returned. */
  lemma CachedEqualsReread<M(!new)>(world: World<M>, disk: nat -> Option<Identity>, log: seq<Event<M>>,
                                    since: nat, r: Outcome<M>, interval: real, t: nat, f: Name)
    requires Honest(world, log) && IdentityDecides(world, disk, f)
    requires r.Sealed? && SealedSince(log, since, r, interval)
    requires f in r.measured && f in NamesOf(r.snapshot)
    requires since < t < |log|
    ensures world.reader(t, f) == Got(r.measured[f])
  {
    hide IdentityDecides, Honest;
    var last := |log| - 1;
    var i :| since <= i < |log| && log[i] == Consulted(f, Got(r.measured[f]));
    WalkTold(world, log, since + 1, r.snapshot);
    WalkTold(world, log, last, r.snapshot);
    ReadTold(world, log, i);
    SameRead(world, disk, since + 1, last, r.snapshot, f, t, i);
  }

  lemma WalkTold<M(!new)>(world: World<M>, log: seq<Event<M>>, i: nat, s: Snapshot)
    requires Honest(world, log) && i < |log| && log[i] == Listed(Members(s))
    ensures world.listing(i) == Members(s)
  {
    assert Occurs(world, i, log[i]);
  }

  lemma ReadTold<M(!new)>(world: World<M>, log: seq<Event<M>>, i: nat)
    requires Honest(world, log) && i < |log| && log[i].Consulted?
    ensures world.reader(i, log[i].fragment) == log[i].outcome
  {
    assert Occurs(world, i, log[i]);
  }

  /** Between two walks that agree, all reads of a member agree. */
  lemma SameRead<M(!new)>(world: World<M>, disk: nat -> Option<Identity>, first: nat, last: nat,
                          s: Snapshot, f: Name, t: nat, u: nat)
    requires IdentityDecides(world, disk, f) && f in NamesOf(s)
    requires world.listing(first) == Members(s) && world.listing(last) == Members(s)
    requires first <= t <= last && first <= u <= last
    ensures world.reader(t, f) == world.reader(u, f)
  {
    var k :| 0 <= k < |s| && NamesOf(s)[k] == f;
    var e := s[k];
    assert e in s && e.name == f;
    assert disk(first) == Some(e.identity) && disk(last) == Some(e.identity);
    assert disk(t) == disk(first) && disk(u) == disk(first);
  }
}
