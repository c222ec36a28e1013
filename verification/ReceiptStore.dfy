/** The create-only store of hook receipts. Its files are spread over a legacy
    directory and later generations, each with its own caps; together they have
    to behave like one map that only ever grows. */
module ReceiptStore {
  import opened Wrappers

  type Key = string

  type byte = x: int | 0 <= x < 256

  const MAX_RECEIPT_BYTES: nat := 64 * 1024
  const MAX_ENTRIES: nat := 1024
  const MAX_STORE_BYTES: nat := 16 * 1024 * 1024
  const MAX_GENERATIONS: nat := 16
  const NEAR_CAPACITY_PERCENT: nat := 90

  /** A validated receipt with its canonical bytes; `currentAgent` says whether
      its agent identity meets the current contract. */
  datatype Receipt = Receipt(kind: string, identity: string, payload: seq<byte>, currentAgent: bool)

  /** One file: its name without the suffix, and what it holds. */
  datatype Entry = Entry(name: Key, receipt: Receipt)

  type Directory = seq<Entry>

  type KeyOf = (string, string) -> Key

  datatype Mode = AdoptV1 | RotateV2

  /** A rotation, as it is asked for and as its intent records it: the preview that
      was agreed to, and the Chief whose authority it has. */
  datatype Rotation = Rotation(op: string, mode: Mode, preview: nat, chief: string)

  /** What a crash can leave of a rotation: directories without an intent, of no
      operation yet or of one; or the intent. */
  datatype Pending = Scaffold(owner: Option<string>) | Intent(rotation: Rotation)

  /** Where a rotation ends early: before its directory is made, before its intent
      is written, before its control is committed, or right after that. */
  datatype Crash = NoCrash | BeforeDirectory | BeforeIntent | BeforeControl | AfterControl

  /** The durable store. Before adoption there is no generation and the legacy
      directory is active; afterwards the last generation is. `applied` lists the
      rotations whose control is committed. */
  datatype Store = Store(
    legacy: Directory, generations: seq<Directory>,
    pending: Option<Pending>, applied: seq<Rotation>)

  /** The digest that a rotation's preview has in a store with nothing pending. */
  type PreviewOf = (Mode, string, Store) -> nat

  datatype Refusal =
    | RotationPending | Duplicated | NameMismatch | Collision | NotCurrentAgent | Invalid
    | EntriesFull | BytesFull | Missing | IdentityMismatch
    | WrongMode | GenerationsExhausted | PreviewChanged | AuthorityConflict | ReplayConflict
    | Crashed

  datatype Outcome<+T> = Ok(value: T) | Refused(error: Refusal)

  // ----- reading the store -----

  function Concat(ds: seq<Directory>): Directory {
    if ds == [] then [] else ds[0] + Concat(ds[1..])
  }

  /** Every retained file, generation after generation. */
  function All(s: Store): Directory {
    s.legacy + Concat(s.generations)
  }

  function Active(s: Store): Directory {
    if s.generations != [] then s.generations[|s.generations| - 1] else s.legacy
  }

  function Bytes(d: Directory): nat {
    if d == [] then 0 else |d[0].receipt.payload| + Bytes(d[1..])
  }

  function InDirectory(d: Directory, key: Key): (r: Option<Receipt>)
    ensures r.Some? <==> exists i | 0 <= i < |d| :: d[i].name == key
    ensures r.Some? ==> exists i | 0 <= i < |d| :: d[i] == Entry(key, r.value)
  {
    if d == [] then None
    else if d[0].name == key then
      assert d[0] == Entry(key, d[0].receipt);
      Some(d[0].receipt)
    else
      var rest := InDirectory(d[1..], key);
      assert forall i | 0 <= i < |d[1..]| :: d[1..][i] == d[i + 1];
      assert rest.None? ==> forall i | 0 <= i < |d| :: d[i].name != key by {
        if rest.None? {
          forall i | 0 <= i < |d| ensures d[i].name != key {
            assert i > 0 ==> d[i] == d[1..][i - 1];
          }
        }
      }
      rest
  }

  predicate Unique(d: Directory) {
    forall i, j | 0 <= i < j < |d| :: d[i].name != d[j].name
  }

  predicate NamesMatch(key: KeyOf, d: Directory) {
    forall i | 0 <= i < |d| :: d[i].name == key(d[i].receipt.kind, d[i].receipt.identity)
  }

  predicate WithinCaps(d: Directory) {
    |d| <= MAX_ENTRIES && Bytes(d) <= MAX_STORE_BYTES
  }

  /** What every command keeps: each identity in at most one place, names and
      sizes as they should be, each generation and their number within caps. */
  predicate Valid(key: KeyOf, s: Store) {
    && Unique(All(s)) && NamesMatch(key, All(s))
    && (forall e | e in All(s) :: |e.receipt.payload| <= MAX_RECEIPT_BYTES)
    && WithinCaps(s.legacy) && (forall i | 0 <= i < |s.generations| :: WithinCaps(s.generations[i]))
    && 1 + |s.generations| <= MAX_GENERATIONS
    && Recorded(s)
  }

  /** One committed rotation for each generation, none twice; what is pending is
      not among them, and fits the store. */
  predicate Recorded(s: Store) {
    && |s.applied| == |s.generations|
    && (forall i, j | 0 <= i < j < |s.applied| :: s.applied[i].op != s.applied[j].op)
    && (s.pending.Some? ==>
          && (if Owner(s.pending.value).Some? then !Applied(s, Owner(s.pending.value).value) else s.generations == [])
          && (s.pending.value.Intent? ==> (s.pending.value.rotation.mode.AdoptV1? <==> s.generations == [])))
  }

  /** The abstract store: a map from keys to receipts. */
  function Abs(s: Store): map<Key, Receipt> {
    map e | e in Names(All(s)) :: InDirectory(All(s), e).value
  }

  function Names(d: Directory): (r: set<Key>)
    ensures forall k :: k in r <==> InDirectory(d, k).Some?
  {
    set e | e in d :: e.name
  }

  /** Nothing is ever lost or changed. */
  predicate Grows(a: map<Key, Receipt>, b: map<Key, Receipt>) {
    forall k | k in a :: k in b && b[k] == a[k]
  }

  // ----- the commands -----

  /** Storing a receipt: replay of the same bytes, or a new file in the active
      generation, or a refusal that changes nothing. */
  function StoreReceipt(key: KeyOf, s: Store, r: Receipt): (Outcome<Receipt>, Store) {
    var k := key(r.kind, r.identity);
    if |r.payload| > MAX_RECEIPT_BYTES then (Refused(Invalid), s)
    else if s.pending.Some? then (Refused(RotationPending), s)
    else if InDirectory(All(s), k).Some? then
      var stored := InDirectory(All(s), k).value;
      if stored.payload != r.payload then (Refused(Collision), s) else (Ok(stored), s)
    else if !r.currentAgent then (Refused(NotCurrentAgent), s)
    else if |Active(s)| >= MAX_ENTRIES then (Refused(EntriesFull), s)
    else if Bytes(Active(s)) + |r.payload| > MAX_STORE_BYTES then (Refused(BytesFull), s)
    else (Ok(r), Appended(s, Entry(k, r)))
  }

  function Appended(s: Store, e: Entry): Store {
    if s.generations != [] then
      s.(generations := s.generations[|s.generations| - 1 := s.generations[|s.generations| - 1] + [e]])
    else s.(legacy := s.legacy + [e])
  }

  function Load(key: KeyOf, s: Store, kind: string, identity: string): Outcome<Receipt> {
    if s.pending.Some? then Refused(RotationPending)
    else
      match InDirectory(All(s), key(kind, identity))
      case None => Refused(Missing)
      case Some(stored) =>
        if stored.kind != kind || stored.identity != identity then Refused(IdentityMismatch) else Ok(stored)
  }

  /** The operation that has to be resumed; None when any may go on. */
  function Owner(p: Pending): Option<string> {
    match p
    case Scaffold(owner) => owner
    case Intent(rotation) => Some(rotation.op)
  }

  predicate BlockedFor(s: Store, op: string) {
    s.pending.Some? && Owner(s.pending.value).Some? && Owner(s.pending.value).value != op
  }

  /** The operation has been committed, in whatever form. */
  predicate Applied(s: Store, op: string) {
    exists i | 0 <= i < |s.applied| :: s.applied[i].op == op
  }

  /** What a preview of this rotation digests to: what its intent says, once there
      is one, and otherwise what the store gives. */
  function PreviewNow(preview: PreviewOf, s: Store, mode: Mode, op: string): nat {
    if s.pending.Some? && s.pending.value.Intent? then s.pending.value.rotation.preview
    else preview(mode, op, s.(pending := None))
  }

  /** Checks of a rotation that is not committed, before it stages anything; None
      when it may go on. A rotation that another one blocks is refused first, but
      for one that is meant for an adopted store when there is none. */
  function RotationError(preview: PreviewOf, s: Store, q: Rotation): Option<Refusal> {
    if s.generations == [] && q.mode.RotateV2? then Some(WrongMode)
    else if BlockedFor(s, q.op) then Some(RotationPending)
    else if s.generations != [] && q.mode.AdoptV1? then Some(WrongMode)
    else if s.generations != [] && 1 + |s.generations| >= MAX_GENERATIONS then Some(GenerationsExhausted)
    else if q.preview != PreviewNow(preview, s, q.mode, q.op) then Some(PreviewChanged)
    else if s.pending.Some? && s.pending.value.Intent? && s.pending.value.rotation.chief != q.chief then Some(AuthorityConflict)
    else None
  }

  /** What is left when an accepted rotation ends early. */
  function Left(s: Store, q: Rotation, crash: Crash): Option<Pending> {
    match crash
    case NoCrash | AfterControl => None
    case BeforeDirectory => if s.generations == [] && s.pending.None? then Some(Scaffold(None)) else s.pending
    case BeforeIntent => if s.pending.Some? && s.pending.value.Intent? then s.pending else Some(Scaffold(Some(q.op)))
    case BeforeControl => Some(Intent(q))
  }

  /** A committed rotation is replayed, but only exactly as it was committed. */
  function Replay(s: Store, q: Rotation): Outcome<()> {
    if q in s.applied then Ok(())
    else if exists a | a in s.applied :: a.op == q.op && a.mode == q.mode && a.preview != q.preview then Refused(PreviewChanged)
    else Refused(ReplayConflict)
  }

  /** Adoption keeps the legacy files as they are and opens the first
      generation; rotation seals the active generation and opens the next. One
      already committed is replayed, unless another one is pending. */
  function Rotate(preview: PreviewOf, s: Store, q: Rotation, crash: Crash): (Outcome<()>, Store) {
    if Applied(s, q.op) && !BlockedFor(s, q.op) then (Replay(s, q), s)
    else if RotationError(preview, s, q).Some? then (Refused(RotationError(preview, s, q).value), s)
    else
      var left := s.(pending := Left(s, q, crash));
      if crash.NoCrash? || crash.AfterControl? then
        (if crash.NoCrash? then Ok(()) else Refused(Crashed),
         left.(generations := s.generations + [[]], applied := s.applied + [q]))
      else (Refused(Crashed), left)
  }

  // ----- the pieces of the partition -----

  lemma {:induction false} ConcatLast(ds: seq<Directory>, d: Directory)
    ensures Concat(ds + [d]) == Concat(ds) + d
  {
    if ds != [] {
      ConcatLast(ds[1..], d);
      assert (ds + [d])[1..] == ds[1..] + [d];
    } else {
      assert (ds + [d])[1..] == [];
    }
  }

  /** An appended file is the last one of all. */
  lemma AppendedAll(s: Store, e: Entry)
    ensures All(Appended(s, e)) == All(s) + [e]
  {
    if s.generations != [] {
      var front, last := s.generations[..|s.generations| - 1], s.generations[|s.generations| - 1];
      assert s.generations == front + [last];
      assert Appended(s, e).generations == front + [last + [e]];
      ConcatLast(front, last);
      ConcatLast(front, last + [e]);
      Regroup(s.legacy, Concat(front), last, [e]);
    }
  }

  lemma Regroup(a: Directory, b: Directory, c: Directory, d: Directory)
    ensures a + (b + (c + d)) == a + (b + c) + d
  {
  }

  lemma {:induction false} FindInLonger(d: Directory, e: Entry, k: Key)
    ensures InDirectory(d + [e], k) ==
            if InDirectory(d, k).Some? then InDirectory(d, k) else if e.name == k then Some(e.receipt) else None
  {
    if d != [] && d[0].name != k {
      FindInLonger(d[1..], e, k);
      assert (d + [e])[1..] == d[1..] + [e];
    } else if d == [] {
      assert (d + [e])[1..] == [];
    }
  }

  lemma {:induction false} BytesOfLonger(d: Directory, e: Entry)
    ensures Bytes(d + [e]) == Bytes(d) + |e.receipt.payload|
  {
    if d != [] {
      BytesOfLonger(d[1..], e);
      assert (d + [e])[1..] == d[1..] + [e];
    } else {
      assert (d + [e])[1..] == [];
    }
  }

  lemma {:induction false} FoundIsNamed(d: Directory, k: Key)
    requires InDirectory(d, k).Some?
    ensures Entry(k, InDirectory(d, k).value) in d
  {
  }

  // ----- refinement of one grow-only map -----

  lemma CreatedReceipt(key: KeyOf, s: Store, r: Receipt)
    requires Valid(key, s) && |r.payload| <= MAX_RECEIPT_BYTES && InDirectory(All(s), key(r.kind, r.identity)).None?
    requires |Active(s)| < MAX_ENTRIES && Bytes(Active(s)) + |r.payload| <= MAX_STORE_BYTES
    ensures var after := Appended(s, Entry(key(r.kind, r.identity), r));
      Valid(key, after) && Abs(after) == Abs(s)[key(r.kind, r.identity) := r]
  {
    hide Valid;
    var e := Entry(key(r.kind, r.identity), r);
    var after := Appended(s, e);
    ValidAfterAppend(key, s, e);
    hide Appended;
    AppendedAll(s, e);
    forall k ensures k in Abs(after) <==> k in Abs(s)[e.name := r] {
      FindInLonger(All(s), e, k);
    }
    forall k | k in Abs(after) ensures Abs(after)[k] == Abs(s)[e.name := r][k] {
      FindInLonger(All(s), e, k);
    }
  }

  lemma ValidAfterAppend(key: KeyOf, s: Store, e: Entry)
    requires Valid(key, s) && |e.receipt.payload| <= MAX_RECEIPT_BYTES
    requires e.name == key(e.receipt.kind, e.receipt.identity) && InDirectory(All(s), e.name).None?
    requires |Active(s)| < MAX_ENTRIES && Bytes(Active(s)) + |e.receipt.payload| <= MAX_STORE_BYTES
    ensures Valid(key, Appended(s, e))
  {
    hide Recorded;
    AppendedAll(s, e);
    BytesOfLonger(Active(s), e);
    CapsAfterAppend(s, e);
    UniqueAfterAppend(All(s), e);
    RecordedAfterAppend(s, e);
  }

  lemma RecordedAfterAppend(s: Store, e: Entry)
    requires Recorded(s)
    ensures Recorded(Appended(s, e))
  {
  }

  lemma UniqueAfterAppend(d: Directory, e: Entry)
    requires Unique(d) && InDirectory(d, e.name).None?
    ensures Unique(d + [e])
  {
  }

  lemma CapsAfterAppend(s: Store, e: Entry)
    requires WithinCaps(s.legacy) && (forall i | 0 <= i < |s.generations| :: WithinCaps(s.generations[i]))
    requires WithinCaps(Active(s) + [e])
    ensures WithinCaps(Appended(s, e).legacy)
    ensures forall i | 0 <= i < |Appended(s, e).generations| :: WithinCaps(Appended(s, e).generations[i])
  {
  }

  /** Storing is insertion into the abstract map: replay of the same bytes and
      every refusal leave it alone, and no other outcome is possible. */
  lemma StoreRefinesInsert(key: KeyOf, s: Store, r: Receipt)
    requires Valid(key, s)
    ensures var (o, after) := StoreReceipt(key, s, r);
      var k := key(r.kind, r.identity);
      && Valid(key, after) && Grows(Abs(s), Abs(after))
      && (o.Refused? ==> after == s)
      && (o.Ok? && k in Abs(s) ==> after == s && o.value == Abs(s)[k] && o.value.payload == r.payload)
      && (o.Ok? && k !in Abs(s) ==> o.value == r && Abs(after) == Abs(s)[k := r])
  {
    hide Valid, Names, Appended, Active;
    var (o, after) := StoreReceipt(key, s, r);
    var k := key(r.kind, r.identity);
    AbsFinds(s, k);
    if o.Ok? && k !in Abs(s) {
      CreatedReceipt(key, s, r);
    }
  }

  lemma AbsFinds(s: Store, k: Key)
    ensures k in Abs(s) <==> InDirectory(All(s), k).Some?
    ensures k in Abs(s) ==> Abs(s)[k] == InDirectory(All(s), k).value
  {
  }

  /** Exact replay succeeds whenever no rotation is pending, full store or not. */
  lemma ReplaySucceeds(key: KeyOf, s: Store, r: Receipt)
    requires Valid(key, s) && s.pending.None? && |r.payload| <= MAX_RECEIPT_BYTES
    requires key(r.kind, r.identity) in Abs(s) && Abs(s)[key(r.kind, r.identity)].payload == r.payload
    ensures StoreReceipt(key, s, r) == (Ok(Abs(s)[key(r.kind, r.identity)]), s)
  {
    AbsFinds(s, key(r.kind, r.identity));
  }

  /** Different bytes for a known identity change nothing, ever. */
  lemma DivergenceIsRefused(key: KeyOf, s: Store, r: Receipt)
    requires Valid(key, s)
    requires key(r.kind, r.identity) in Abs(s) && Abs(s)[key(r.kind, r.identity)].payload != r.payload
    ensures StoreReceipt(key, s, r).0.Refused? && StoreReceipt(key, s, r).1 == s
  {
    AbsFinds(s, key(r.kind, r.identity));
  }

  /** A new receipt is refused for want of room exactly when the active
      generation has none, however much room the sealed ones have. */
  lemma NewReceiptNeedsActiveRoom(key: KeyOf, s: Store, r: Receipt)
    requires Valid(key, s) && s.pending.None? && |r.payload| <= MAX_RECEIPT_BYTES && r.currentAgent
    requires key(r.kind, r.identity) !in Abs(s)
    ensures StoreReceipt(key, s, r).0.Ok? <==>
            |Active(s)| < MAX_ENTRIES && Bytes(Active(s)) + |r.payload| <= MAX_STORE_BYTES
  {
    AbsFinds(s, key(r.kind, r.identity));
  }

  ghost predicate Injective(key: KeyOf) {
    forall a, b, c, d | key(a, b) == key(c, d) :: a == c && b == d
  }

  /** Lookup by identity is lookup in the abstract map. */
  lemma LoadIsLookup(key: KeyOf, s: Store, kind: string, identity: string)
    requires Valid(key, s) && Injective(key) && s.pending.None?
    ensures Load(key, s, kind, identity) ==
            if key(kind, identity) in Abs(s) then Ok(Abs(s)[key(kind, identity)]) else Refused(Missing)
  {
    var k := key(kind, identity);
    AbsFinds(s, k);
    if InDirectory(All(s), k).Some? {
      FoundIsNamed(All(s), k);
      var i :| 0 <= i < |All(s)| && All(s)[i] == Entry(k, InDirectory(All(s), k).value);
    }
  }

  // ----- rotation -----

  lemma RotationKeepsMap(key: KeyOf, preview: PreviewOf, s: Store, q: Rotation, crash: Crash)
    requires Valid(key, s)
    ensures var (o, after) := Rotate(preview, s, q, crash);
      && Valid(key, after) && Abs(after) == Abs(s) && All(after) == All(s)
      && s.legacy == after.legacy && s.generations <= after.generations
  {
    hide InDirectory, Names, NamesMatch, Unique, Concat, PreviewNow;
    var (o, after) := Rotate(preview, s, q, crash);
    if after.generations != s.generations {
      ConcatLast(s.generations, []);
      assert WithinCaps([]);
      assert Concat(s.generations) + [] == Concat(s.generations);
    }
    assert All(after) == All(s);
  }

  /** A committed rotation makes room: any new valid receipt is stored next. */
  lemma RotationMakesRoom(key: KeyOf, preview: PreviewOf, s: Store, q: Rotation, r: Receipt)
    requires Valid(key, s) && !Applied(s, q.op) && RotationError(preview, s, q).None?
    requires r.currentAgent && |r.payload| <= MAX_RECEIPT_BYTES && key(r.kind, r.identity) !in Abs(s)
    ensures var (o, after) := Rotate(preview, s, q, NoCrash);
      o.Ok? && StoreReceipt(key, after, r).0 == Ok(r)
  {
    hide Valid, Abs, All, StoreReceipt, InDirectory;
    RotationKeepsMap(key, preview, s, q, NoCrash);
    NewReceiptNeedsActiveRoom(key, Rotate(preview, s, q, NoCrash).1, r);
    StoreRefinesInsert(key, Rotate(preview, s, q, NoCrash).1, r);
  }

  /** Wherever an accepted rotation crashes, running it again has the effect it
      would have had without the crash. */
  lemma CrashedRotationResumes(key: KeyOf, preview: PreviewOf, s: Store, q: Rotation, crash: Crash)
    requires Valid(key, s) && !Applied(s, q.op) && RotationError(preview, s, q).None?
    ensures Rotate(preview, Rotate(preview, s, q, crash).1, q, NoCrash) == Rotate(preview, s, q, NoCrash)
  {
    hide Valid;
    var crashed := Rotate(preview, s, q, crash).1;
    if crash.NoCrash? || crash.AfterControl? {
      assert crashed.applied[|s.applied|] == q;
    } else {
      assert crashed.(pending := None) == s.(pending := None);
    }
  }

  /** A pending rotation stops everything else: storing, loading, and every rotation
      of another operation, one already committed included; once its intent is
      written, every rotation but exactly itself. */
  lemma PendingStopsTheRest(key: KeyOf, preview: PreviewOf, s: Store, r: Receipt, kind: string, identity: string,
                            other: Rotation, crash: Crash)
    requires Valid(key, s) && s.pending.Some?
    ensures StoreReceipt(key, s, r).0.Refused? && StoreReceipt(key, s, r).1 == s
    ensures Load(key, s, kind, identity) == Refused(RotationPending)
    ensures BlockedFor(s, other.op) || (s.pending.value.Intent? && other != s.pending.value.rotation) ==>
      Rotate(preview, s, other, crash).0.Refused? && Rotate(preview, s, other, crash).1 == s
  {
    hide All, InDirectory, Unique, NamesMatch, WithinCaps, PreviewNow;
    if !BlockedFor(s, other.op) && s.pending.value.Intent? {
      assert other.op == s.pending.value.rotation.op && !Applied(s, other.op);
      assert PreviewNow(preview, s, other.mode, other.op) == s.pending.value.rotation.preview by {
        IntentPreview(preview, s, other.mode, other.op);
      }
    }
  }

  lemma IntentPreview(preview: PreviewOf, s: Store, mode: Mode, op: string)
    ensures s.pending.Some? && s.pending.value.Intent? ==> PreviewNow(preview, s, mode, op) == s.pending.value.rotation.preview
  {
  }

  // ----- every run -----

  datatype Command =
    | Put(receipt: Receipt)
    | Turn(rotation: Rotation, crash: Crash)

  function Step(key: KeyOf, preview: PreviewOf, s: Store, c: Command): Store {
    match c
    case Put(r) => StoreReceipt(key, s, r).1
    case Turn(q, crash) => Rotate(preview, s, q, crash).1
  }

  function Run(key: KeyOf, preview: PreviewOf, s: Store, commands: seq<Command>): Store
    decreases |commands|
  {
    if commands == [] then s else Run(key, preview, Step(key, preview, s, commands[0]), commands[1..])
  }

  /** Over every run the map only grows, each identity stays in one place, and
      every generation stays within its caps. */
  lemma {:induction false} RunsOnlyGrow(key: KeyOf, preview: PreviewOf, s: Store, commands: seq<Command>)
    requires Valid(key, s)
    ensures Valid(key, Run(key, preview, s, commands)) && Grows(Abs(s), Abs(Run(key, preview, s, commands)))
    decreases |commands|
  {
    hide Valid, Abs, Step;
    if commands != [] {
      var next := Step(key, preview, s, commands[0]);
      StepGrows(key, preview, s, commands[0]);
      RunsOnlyGrow(key, preview, next, commands[1..]);
    }
  }

  lemma StepGrows(key: KeyOf, preview: PreviewOf, s: Store, c: Command)
    requires Valid(key, s)
    ensures Valid(key, Step(key, preview, s, c)) && Grows(Abs(s), Abs(Step(key, preview, s, c)))
  {
    hide Valid, Abs, StoreReceipt, Rotate;
    match c
    case Put(r) => StoreRefinesInsert(key, s, r);
    case Turn(q, crash) => RotationKeepsMap(key, preview, s, q, crash);
  }

  /** Sealed generations are immutable: a run never touches a generation that is
      not the active one when it starts. */
  lemma {:induction false} SealedStaySealed(key: KeyOf, preview: PreviewOf, s: Store, commands: seq<Command>)
    requires Valid(key, s) && s.generations != []
    ensures var after := Run(key, preview, s, commands);
      && after.legacy == s.legacy
      && |s.generations| <= |after.generations|
      && after.generations[..|s.generations| - 1] == s.generations[..|s.generations| - 1]
    decreases |commands|
  {
    if commands != [] {
      StepGrows(key, preview, s, commands[0]);
      var next := Step(key, preview, s, commands[0]);
      StepKeepsSealed(key, preview, s, commands[0]);
      SealedStaySealed(key, preview, next, commands[1..]);
      assert next.generations[..|next.generations| - 1][..|s.generations| - 1] == next.generations[..|s.generations| - 1];
      var after := Run(key, preview, s, commands);
      assert after.generations[..|next.generations| - 1][..|s.generations| - 1] == after.generations[..|s.generations| - 1];
    }
  }

  lemma StepKeepsSealed(key: KeyOf, preview: PreviewOf, s: Store, c: Command)
    requires Valid(key, s) && s.generations != []
    ensures var next := Step(key, preview, s, c);
      && next.legacy == s.legacy && |s.generations| <= |next.generations|
      && next.generations[..|s.generations| - 1] == s.generations[..|s.generations| - 1]
  {
    hide InDirectory, Bytes, Concat;
  }

  /** With its intent written, a rotation cannot be overtaken: no run without it
      changes anything, and afterwards it still has the effect it would have had. */
  lemma CrashedRotationWaits(key: KeyOf, preview: PreviewOf, s: Store, q: Rotation, commands: seq<Command>)
    requires Valid(key, s) && !Applied(s, q.op) && RotationError(preview, s, q).None?
    requires forall c | c in commands :: c.Turn? ==> c.rotation != q
    ensures var crashed := Rotate(preview, s, q, BeforeControl).1;
      && Run(key, preview, crashed, commands) == crashed
      && Rotate(preview, Run(key, preview, crashed, commands), q, NoCrash) == Rotate(preview, s, q, NoCrash)
  {
    hide Valid, RotationError;
    RotationKeepsMap(key, preview, s, q, BeforeControl);
    CrashedRotationResumes(key, preview, s, q, BeforeControl);
    NothingElseRuns(key, preview, Rotate(preview, s, q, BeforeControl).1, commands);
  }

  lemma {:induction false} NothingElseRuns(key: KeyOf, preview: PreviewOf, s: Store, commands: seq<Command>)
    requires Valid(key, s) && s.pending.Some? && s.pending.value.Intent?
    requires forall c | c in commands :: c.Turn? ==> c.rotation != s.pending.value.rotation
    ensures Run(key, preview, s, commands) == s
    decreases |commands|
  {
    hide Valid, Rotate, StoreReceipt;
    if commands != [] {
      var none := Receipt("", "", [], false);
      match commands[0] {
        case Put(r) => PendingStopsTheRest(key, preview, s, r, "", "", s.pending.value.rotation, NoCrash);
        case Turn(other, crash) => PendingStopsTheRest(key, preview, s, none, "", "", other, crash);
      }
      assert Step(key, preview, s, commands[0]) == s;
      NothingElseRuns(key, preview, s, commands[1..]);
    }
  }

  const EMPTY: Store := Store([], [], None, [])

  /** Every run of a new store leaves a valid one, and whatever was stored on the
      way is in it. */
  lemma RunsFromEmpty(key: KeyOf, preview: PreviewOf, before: seq<Command>, later: seq<Command>)
    ensures Valid(key, Run(key, preview, EMPTY, before))
    ensures Grows(Abs(Run(key, preview, EMPTY, before)), Abs(Run(key, preview, Run(key, preview, EMPTY, before), later)))
  {
    hide Valid, Abs, Run, Grows;
    EmptyStoreIsValid(key);
    RunsOnlyGrow(key, preview, EMPTY, before);
    RunsOnlyGrow(key, preview, Run(key, preview, EMPTY, before), later);
  }

  lemma EmptyStoreIsValid(key: KeyOf)
    ensures Valid(key, EMPTY)
  {
    assert Concat([]) == [];
  }

  /** A committed rotation stays committed, in its place, over every run. */
  lemma {:induction false} AppliedStays(key: KeyOf, preview: PreviewOf, s: Store, commands: seq<Command>)
    requires Valid(key, s)
    ensures s.applied <= Run(key, preview, s, commands).applied
    decreases |commands|
  {
    hide Valid, StoreReceipt;
    if commands != [] {
      StepGrows(key, preview, s, commands[0]);
      assert s.applied <= Step(key, preview, s, commands[0]).applied by {
        StoringAppliesNothing(key, preview, s, commands[0]);
      }
      AppliedStays(key, preview, Step(key, preview, s, commands[0]), commands[1..]);
    }
  }

  lemma StoringAppliesNothing(key: KeyOf, preview: PreviewOf, s: Store, c: Command)
    ensures c.Put? ==> Step(key, preview, s, c).applied == s.applied
  {
  }

  /** After any run, repeating a committed rotation changes nothing, and succeeds if
      and only if it is repeated exactly and nothing is pending. */
  lemma ReplayedRotationIff(key: KeyOf, preview: PreviewOf, s: Store, q: Rotation, commands: seq<Command>, again: Rotation, crash: Crash)
    requires Valid(key, s) && Rotate(preview, s, q, NoCrash).0.Ok? && again.op == q.op
    ensures var later := Run(key, preview, Rotate(preview, s, q, NoCrash).1, commands);
      && Rotate(preview, later, again, crash).1 == later
      && (Rotate(preview, later, again, crash).0.Ok? <==> again == q && later.pending.None?)
  {
    hide Valid, Rotate, Run, Abs, All;
    var after := Rotate(preview, s, q, NoCrash).1;
    RotationKeepsMap(key, preview, s, q, NoCrash);
    AppliedStays(key, preview, after, commands);
    RunsOnlyGrow(key, preview, after, commands);
    AppliedByRotation(preview, s, q);
    CommittedReplays(key, preview, Run(key, preview, after, commands), q, again, crash);
  }

  lemma AppliedByRotation(preview: PreviewOf, s: Store, q: Rotation)
    ensures Rotate(preview, s, q, NoCrash).0.Ok? ==> q in Rotate(preview, s, q, NoCrash).1.applied
  {
    hide PreviewNow;
  }

  lemma CommittedReplays(key: KeyOf, preview: PreviewOf, s: Store, q: Rotation, again: Rotation, crash: Crash)
    requires Valid(key, s) && q in s.applied && again.op == q.op
    ensures Rotate(preview, s, again, crash) ==
            (if s.pending.Some? then Refused(RotationPending)
             else if again == q then Ok(())
             else Refused(if again.mode == q.mode && again.preview != q.preview then PreviewChanged else ReplayConflict), s)
  {
    hide All, InDirectory, Unique, NamesMatch, WithinCaps, PreviewNow;
    var i :| 0 <= i < |s.applied| && s.applied[i] == q;
    assert Applied(s, q.op);
    if again in s.applied {
      var j :| 0 <= j < |s.applied| && s.applied[j] == again;
      assert s.applied[i].op == s.applied[j].op;
    }
  }

  /** A committed adoption that is repeated exactly while a later rotation is
      pending: it is refused. */
  lemma PendingRotationStopsTheReplay(key: KeyOf, preview: PreviewOf, chief: string)
    ensures var adopt := Rotation("a", AdoptV1, preview(AdoptV1, "a", EMPTY), chief);
      var adopted := Rotate(preview, EMPTY, adopt, NoCrash).1;
      var next := Rotation("b", RotateV2, preview(RotateV2, "b", adopted), chief);
      var later := Run(key, preview, adopted, [Turn(next, BeforeControl)]);
      && Rotate(preview, EMPTY, adopt, NoCrash).0.Ok?
      && Rotate(preview, later, adopt, NoCrash) == (Refused(RotationPending), later)
  {
    var adopt := Rotation("a", AdoptV1, preview(AdoptV1, "a", EMPTY), chief);
    assert EMPTY.(pending := None) == EMPTY && !Applied(EMPTY, "a");
    var adopted := Rotate(preview, EMPTY, adopt, NoCrash).1;
    assert adopted == Store([], [[]], None, [adopt]) && adopted.(pending := None) == adopted;
    var next := Rotation("b", RotateV2, preview(RotateV2, "b", adopted), chief);
    assert !Applied(adopted, "b");
    assert Rotate(preview, adopted, next, BeforeControl).1 == adopted.(pending := Some(Intent(next)));
    assert [Turn(next, BeforeControl)][1..] == [];
  }

  // ----- the store on disk -----

  datatype Capacity = Available | NearFull | Full

  datatype Report = Report(
    entryCount: nat, retainedCount: nat, aggregateBytes: nat, retainedBytes: nat,
    capacity: Capacity, kinds: multiset<string>, retainedKinds: multiset<string>)

  function Kinds(d: Directory): multiset<string> {
    multiset(seq(|d|, i requires 0 <= i < |d| => d[i].receipt.kind))
  }

  lemma KindsOfLonger(d: Directory, e: Entry)
    ensures Kinds(d + [e]) == Kinds(d) + multiset{e.receipt.kind}
  {
    KindsOfBoth(d, [e]);
    assert seq(|[e]|, i requires 0 <= i < |[e]| => [e][i].receipt.kind) == [e.receipt.kind];
  }

  lemma {:induction false} BytesOfBoth(a: Directory, b: Directory)
    ensures Bytes(a + b) == Bytes(a) + Bytes(b)
  {
    if a == [] {
      assert a + b == b;
    } else {
      BytesOfBoth(a[1..], b);
      assert (a + b)[1..] == a[1..] + b;
    }
  }

  lemma KindsOfBoth(a: Directory, b: Directory)
    ensures Kinds(a + b) == Kinds(a) + Kinds(b)
  {
    var c := a + b;
    assert seq(|c|, i requires 0 <= i < |c| => c[i].receipt.kind) ==
           seq(|a|, i requires 0 <= i < |a| => a[i].receipt.kind) + seq(|b|, i requires 0 <= i < |b| => b[i].receipt.kind);
  }

  /** Complete scan of one directory: the count first, then name and size of
      every file. */
  method ScanReceiptDirectory(key: KeyOf, d: Directory) returns (r: Outcome<nat>)
    ensures r.Ok? ==> r.value == Bytes(d) && WithinCaps(d) && NamesMatch(key, d)
    ensures WithinCaps(d) && NamesMatch(key, d) ==> r.Ok?
  {
    if |d| > MAX_ENTRIES {
      return Refused(EntriesFull);
    }
    var total: nat := 0;
    for i := 0 to |d|
      invariant total == Bytes(d[..i]) && total <= MAX_STORE_BYTES
      invariant NamesMatch(key, d[..i])
    {
      assert d[..i + 1] == d[..i] + [d[i]];
      BytesOfLonger(d[..i], d[i]);
      PrefixBytes(d, i + 1);
      if d[i].name != key(d[i].receipt.kind, d[i].receipt.identity) {
        return Refused(NameMismatch);
      }
      total := total + |d[i].receipt.payload|;
      if total > MAX_STORE_BYTES {
        return Refused(BytesFull);
      }
    }
    assert d[..|d|] == d;
    return Ok(total);
  }

  lemma PrefixBytes(d: Directory, i: nat)
    requires i <= |d|
    ensures Bytes(d[..i]) <= Bytes(d)
  {
    BytesOfBoth(d[..i], d[i..]);
    assert d == d[..i] + d[i..];
  }

  lemma {:induction false} FindInBoth(a: Directory, b: Directory, k: Key)
    ensures InDirectory(a + b, k) == if InDirectory(a, k).Some? then InDirectory(a, k) else InDirectory(b, k)
  {
    if a == [] {
      assert a + b == b;
    } else if a[0].name != k {
      FindInBoth(a[1..], b, k);
      assert (a + b)[1..] == a[1..] + b;
    }
  }

  function KeySet(d: Directory): set<Key> {
    set e | e in d :: e.name
  }

  predicate Sound(key: KeyOf, d: Directory) {
    WithinCaps(d) && NamesMatch(key, d)
  }

  lemma SplitAll(s: Store, i: nat)
    requires i < |s.generations|
    ensures All(s) == s.legacy + Concat(s.generations[..i]) + s.generations[i] + Concat(s.generations[i + 1..])
  {
    var front, here, back := s.generations[..i], s.generations[i], s.generations[i + 1..];
    ConcatBoth(front, [here] + back);
    assert s.generations == front + ([here] + back);
    assert ([here] + back)[1..] == back;
    Rejoin(s.legacy, Concat(front), here, Concat(back));
  }

  lemma Rejoin(a: Directory, b: Directory, c: Directory, d: Directory)
    ensures a + (b + (c + d)) == a + b + c + d
  {
  }

  lemma {:induction false} ConcatBoth(a: seq<Directory>, b: seq<Directory>)
    ensures Concat(a + b) == Concat(a) + Concat(b)
  {
    if a == [] {
      assert a + b == b;
    } else {
      ConcatBoth(a[1..], b);
      assert (a + b)[1..] == a[1..] + b;
    }
  }

  lemma SeenTwice(d: Directory, i: nat, before: set<Key>)
    requires i < |d| && d[i].name in before + KeySet(d[..i])
    ensures !(Unique(d) && forall j | 0 <= j < |d| :: d[j].name !in before)
  {
    if d[i].name !in before {
      var e :| e in d[..i] && e.name == d[i].name;
      var j :| 0 <= j < i && d[j] == e;
    }
  }

  lemma UniqueBoth(a: Directory, b: Directory)
    ensures Unique(a + b) <==> Unique(a) && Unique(b) && forall i | 0 <= i < |b| :: b[i].name !in KeySet(a)
  {
    var c := a + b;
    if Unique(c) {
      forall i, j | 0 <= i < j < |b| ensures b[i].name != b[j].name {
        assert c[|a| + i] == b[i] && c[|a| + j] == b[j];
      }
      forall i | 0 <= i < |b| ensures b[i].name !in KeySet(a) {
        assert c[|a| + i] == b[i];
        forall e | e in a ensures e.name != b[i].name {
          var k :| 0 <= k < |a| && a[k] == e;
          assert c[k] == a[k];
        }
      }
      forall i, j | 0 <= i < j < |a| ensures a[i].name != a[j].name {
        assert c[i] == a[i] && c[j] == a[j];
      }
    } else {
      var i, j :| 0 <= i < j < |c| && c[i].name == c[j].name;
      if i < |a| && j >= |a| {
        assert a[i] in a && b[j - |a|].name == a[i].name;
      }
    }
  }

  lemma KeysOfBoth(a: Directory, b: Directory)
    ensures KeySet(a + b) == KeySet(a) + KeySet(b)
  {
  }

  /** Duplicates in the first part are duplicates of the whole. */
  lemma PrefixUnique(s: Store, i: nat)
    requires i <= |s.generations|
    ensures Unique(All(s)) ==> Unique(s.legacy + Concat(s.generations[..i]))
  {
    var front, back := s.generations[..i], s.generations[i..];
    assert s.generations == front + back;
    ConcatBoth(front, back);
    assert All(s) == (s.legacy + Concat(front)) + Concat(back);
    UniqueBoth(s.legacy + Concat(front), Concat(back));
  }

  class ReceiptFiles {
    const key: KeyOf
    const preview: PreviewOf
    var legacy: Directory
    var generations: seq<Directory>
    var pending: Option<Pending>
    var applied: seq<Rotation>

    constructor (key: KeyOf, preview: PreviewOf)
      ensures this.key == key && this.preview == preview && Contents() == Store([], [], None, [])
    {
      this.key, this.preview := key, preview;
      legacy, generations, pending, applied := [], [], None, [];
    }

    function Contents(): Store
      reads this
    {
      Store(legacy, generations, pending, applied)
    }

    /** The files that bear this key, legacy first, one look per directory. */
    method ReceiptLocations(k: Key) returns (found: seq<Receipt>)
      requires Valid(key, Contents())
      ensures found == match InDirectory(All(Contents()), k) case None => [] case Some(r) => [r]
    {
      hide Valid, InDirectory;
      found := [];
      var here := InDirectory(legacy, k);
      if here.Some? {
        found := [here.value];
      }
      ghost var seen := legacy;
      assert generations[..0] == [] && legacy + Concat([]) == legacy;
      hide Concat;
      for i := 0 to |generations|
        invariant seen == legacy + Concat(generations[..i])
        invariant found == match InDirectory(seen, k) case None => [] case Some(r) => [r]
      {
        OneDirectoryMore(Contents(), i);
        FindInBoth(seen, generations[i], k);
        here := InDirectory(generations[i], k);
        if here.Some? {
          OnlyOnePlace(Contents(), i, k);
          found := found + [here.value];
        }
        seen := seen + generations[i];
      }
      assert generations[..|generations|] == generations;
    }

    lemma OneDirectoryMore(s: Store, i: nat)
      requires i < |s.generations|
      ensures s.legacy + Concat(s.generations[..i + 1]) == s.legacy + Concat(s.generations[..i]) + s.generations[i]
    {
      assert s.generations[..i + 1] == s.generations[..i] + [s.generations[i]];
      ConcatLast(s.generations[..i], s.generations[i]);
    }

    /** A key found in a generation is in no earlier one. */
    lemma OnlyOnePlace(s: Store, i: nat, k: Key)
      requires Valid(key, s) && i < |s.generations| && InDirectory(s.generations[i], k).Some?
      ensures InDirectory(s.legacy + Concat(s.generations[..i]), k).None?
    {
      var before, here, after := s.legacy + Concat(s.generations[..i]), s.generations[i], Concat(s.generations[i + 1..]);
      SplitAll(s, i);
      UniqueBoth(before + here, after);
      UniqueBoth(before, here);
      var b :| 0 <= b < |here| && here[b].name == k;
      forall a | 0 <= a < |before| ensures before[a].name != k {
        assert before[a] in before;
      }
    }

    method LoadByIdentity(kind: string, identity: string) returns (r: Outcome<Receipt>)
      requires Valid(key, Contents())
      ensures r == Load(key, Contents(), kind, identity)
    {
      hide Valid, InDirectory;
      if pending.Some? {
        return Refused(RotationPending);
      }
      var found := ReceiptLocations(key(kind, identity));
      if |found| > 1 {
        return Refused(Duplicated);
      }
      if found == [] {
        return Refused(Missing);
      }
      var stored := found[0];
      if stored.kind != kind || stored.identity != identity {
        return Refused(IdentityMismatch);
      }
      return Ok(stored);
    }

    method StoreCodexHookReceipt(r: Receipt) returns (o: Outcome<Receipt>)
      requires Valid(key, Contents())
      modifies this
      ensures (o, Contents()) == StoreReceipt(key, old(Contents()), r)
    {
      hide Valid, InDirectory;
      if |r.payload| > MAX_RECEIPT_BYTES {
        return Refused(Invalid);
      }
      if pending.Some? {
        return Refused(RotationPending);
      }
      var k := key(r.kind, r.identity);
      var found := ReceiptLocations(k);
      if |found| > 1 {
        return Refused(Duplicated);
      }
      if found != [] {
        return if found[0].payload != r.payload then Refused(Collision) else Ok(found[0]);
      }
      if !r.currentAgent {
        return Refused(NotCurrentAgent);
      }
      var active := if generations != [] then generations[|generations| - 1] else legacy;
      var scanned := ScanReceiptDirectory(key, active);
      if scanned.Refused? {
        // the files of a valid store scan
        ActiveIsSound(Contents());
        assert false;
      }
      if |active| >= MAX_ENTRIES {
        return Refused(EntriesFull);
      }
      if scanned.value + |r.payload| > MAX_STORE_BYTES {
        return Refused(BytesFull);
      }
      if generations != [] {
        generations := generations[|generations| - 1 := active + [Entry(k, r)]];
      } else {
        legacy := legacy + [Entry(k, r)];
      }
      return Ok(r);
    }

    lemma ActiveIsSound(s: Store)
      requires Valid(key, s)
      ensures WithinCaps(Active(s)) && NamesMatch(key, Active(s))
    {
      if s.generations != [] {
        SplitAll(s, |s.generations| - 1);
        var before := s.legacy + Concat(s.generations[..|s.generations| - 1]);
        var here := Active(s);
        forall i | 0 <= i < |here| ensures here[i].name == key(here[i].receipt.kind, here[i].receipt.identity) {
          assert All(s)[|before| + i] == here[i];
        }
      } else {
        forall i | 0 <= i < |s.legacy| ensures s.legacy[i].name == key(s.legacy[i].receipt.kind, s.legacy[i].receipt.identity) {
          assert All(s)[i] == s.legacy[i];
        }
      }
    }

    method ApplyRotation(q: Rotation, crash: Crash) returns (o: Outcome<()>)
      modifies this
      ensures (o, Contents()) == Rotate(preview, old(Contents()), q, crash)
    {
      if Applied(Contents(), q.op) && !BlockedFor(Contents(), q.op) {
        return Replay(Contents(), q);
      }
      if generations == [] && q.mode.RotateV2? {
        return Refused(WrongMode);
      }
      if BlockedFor(Contents(), q.op) {
        return Refused(RotationPending);
      }
      if generations != [] {
        if q.mode.AdoptV1? {
          return Refused(WrongMode);
        }
        if 1 + |generations| >= MAX_GENERATIONS {
          return Refused(GenerationsExhausted);
        }
      }
      if q.preview != PreviewNow(preview, Contents(), q.mode, q.op) {
        return Refused(PreviewChanged);
      }
      var resumed := pending.Some? && pending.value.Intent?;
      if resumed && pending.value.rotation.chief != q.chief {
        return Refused(AuthorityConflict);
      }
      if generations == [] && pending.None? {
        pending := Some(Scaffold(None));
      }
      if crash.BeforeDirectory? {
        return Refused(Crashed);
      }
      if !resumed {
        pending := Some(Scaffold(Some(q.op)));
      }
      if crash.BeforeIntent? {
        return Refused(Crashed);
      }
      pending := Some(Intent(q));
      if crash.BeforeControl? {
        return Refused(Crashed);
      }
      generations := generations + [[]];
      applied := applied + [q];
      pending := None;
      if crash.AfterControl? {
        return Refused(Crashed);
      }
      return Ok(());
    }

    /** The keys of one directory, none of them twice and none seen before. */
    method CollectKeys(d: Directory, before: set<Key>) returns (unseen: bool, seen: set<Key>, kinds: multiset<string>)
      ensures unseen <==> Unique(d) && forall i | 0 <= i < |d| :: d[i].name !in before
      ensures unseen ==> seen == before + KeySet(d) && kinds == Kinds(d)
    {
      seen, kinds := before, multiset{};
      for i := 0 to |d|
        invariant Unique(d[..i]) && forall j | 0 <= j < i :: d[j].name !in before
        invariant seen == before + KeySet(d[..i]) && kinds == Kinds(d[..i])
      {
        assert d[..i + 1] == d[..i] + [d[i]];
        KindsOfLonger(d[..i], d[i]);
        if d[i].name in seen {
          SeenTwice(d, i, before);
          return false, seen, kinds;
        }
        seen, kinds := seen + {d[i].name}, kinds + multiset{d[i].receipt.kind};
      }
      assert d[..|d|] == d;
      return true, seen, kinds;
    }

    /** Scans everything that is retained, directory by directory. It fails
        closed: a duplicate, a misnamed file or an overfull generation. */
    method ScanRetained() returns (o: Outcome<Directory>, total: nat, kinds: multiset<string>)
      ensures o.Ok? <==>
        && Unique(All(Contents()))
        && Sound(key, legacy) && forall i | 0 <= i < |generations| :: Sound(key, generations[i])
      ensures o.Ok? ==> o.value == All(Contents()) && total == Bytes(o.value) && kinds == Kinds(o.value)
    {
      hide Unique, WithinCaps, NamesMatch, KeySet, Bytes, Kinds, Concat;
      total, kinds := 0, multiset{};
      var scanned := ScanReceiptDirectory(key, legacy);
      if scanned.Refused? {
        return Refused(scanned.error), total, kinds;
      }
      var unseen, seen;
      unseen, seen, kinds := CollectKeys(legacy, {});
      LegacyIsPart(Contents());
      if !unseen {
        return Refused(Duplicated), total, kinds;
      }
      total := scanned.value;
      var files := legacy;
      for i := 0 to |generations|
        invariant files == legacy + Concat(generations[..i])
        invariant Unique(files) && seen == KeySet(files) && kinds == Kinds(files) && total == Bytes(files)
        invariant forall j | 0 <= j < i :: Sound(key, generations[j])
      {
        var d := generations[i];
        scanned := ScanReceiptDirectory(key, d);
        if scanned.Refused? {
          return Refused(scanned.error), total, kinds;
        }
        var more;
        unseen, seen, more := CollectKeys(d, seen);
        NextPart(Contents(), i, files);
        if !unseen {
          return Refused(Duplicated), total, kinds;
        }
        files, total, kinds := files + d, total + scanned.value, kinds + more;
      }
      assert generations[..|generations|] == generations;
      return Ok(files), total, kinds;
    }

    lemma LegacyIsPart(s: Store)
      ensures Unique(All(s)) ==> Unique(s.legacy)
      ensures s.legacy + Concat(s.generations[..0]) == s.legacy
      ensures {} + KeySet(s.legacy) == KeySet(s.legacy)
    {
      assert s.generations[..0] == [] && s.legacy + [] == s.legacy;
      PrefixUnique(s, 0);
    }

    lemma NextPart(s: Store, i: nat, files: Directory)
      requires i < |s.generations| && files == s.legacy + Concat(s.generations[..i])
      ensures files + s.generations[i] == s.legacy + Concat(s.generations[..i + 1])
      ensures Unique(All(s)) ==> Unique(files + s.generations[i])
      ensures Unique(files + s.generations[i]) <==>
        Unique(files) && Unique(s.generations[i]) && forall j | 0 <= j < |s.generations[i]| :: s.generations[i][j].name !in KeySet(files)
      ensures KeySet(files + s.generations[i]) == KeySet(files) + KeySet(s.generations[i])
      ensures Bytes(files + s.generations[i]) == Bytes(files) + Bytes(s.generations[i])
      ensures Kinds(files + s.generations[i]) == Kinds(files) + Kinds(s.generations[i])
    {
      hide Unique, KeySet, Bytes, Kinds, Concat;
      var d := s.generations[i];
      assert s.generations[..i + 1] == s.generations[..i] + [d];
      ConcatLast(s.generations[..i], d);
      assert files + d == s.legacy + (Concat(s.generations[..i]) + d);
      PrefixUnique(s, i + 1);
      UniqueBoth(files, d);
      KeysOfBoth(files, d);
      BytesOfBoth(files, d);
      KindsOfBoth(files, d);
    }

    /** Complete accounting of the active generation and of all that is retained;
        a store that does not scan has no report. */
    method Inspect() returns (o: Outcome<Report>)
      ensures o.Ok? <==>
        && pending.None? && Unique(All(Contents()))
        && Sound(key, legacy) && forall i | 0 <= i < |generations| :: Sound(key, generations[i])
      ensures o.Ok? ==>
        && o.value.entryCount == |Active(Contents())| && o.value.retainedCount == |All(Contents())|
        && o.value.aggregateBytes == Bytes(Active(Contents())) && o.value.retainedBytes == Bytes(All(Contents()))
        && o.value.kinds == Kinds(Active(Contents())) && o.value.retainedKinds == Kinds(All(Contents()))
        && (o.value.capacity.Full? <==> |Active(Contents())| >= MAX_ENTRIES || Bytes(Active(Contents())) >= MAX_STORE_BYTES)
        && (o.value.capacity.Available? <==>
            && |Active(Contents())| * 100 < MAX_ENTRIES * NEAR_CAPACITY_PERCENT
            && Bytes(Active(Contents())) * 100 < MAX_STORE_BYTES * NEAR_CAPACITY_PERCENT)
    {
      hide Unique, WithinCaps, NamesMatch, Bytes, Kinds, Concat;
      if pending.Some? {
        return Refused(RotationPending);
      }
      var retained, total, kinds := ScanRetained();
      if retained.Refused? {
        return Refused(retained.error);
      }
      var active := if generations != [] then generations[|generations| - 1] else legacy;
      var bytes := Bytes(active);
      var capacity := Available;
      if |active| >= MAX_ENTRIES || bytes >= MAX_STORE_BYTES {
        capacity := Full;
      } else if |active| * 100 >= MAX_ENTRIES * NEAR_CAPACITY_PERCENT || bytes * 100 >= MAX_STORE_BYTES * NEAR_CAPACITY_PERCENT {
        capacity := NearFull;
      }
      return Ok(Report(|active|, |retained.value|, bytes, total, capacity, Kinds(active), kinds));
    }
  }
}
