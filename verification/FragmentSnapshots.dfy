/** A snapshot of the raw coverage directory: every member with its lstat
    identity, in the order of the filesystem spelling of the names. */
module FragmentSnapshots {
  import opened Wrappers

  type byte = x: int | 0 <= x < 256

  type Name = seq<byte>

  /** The identity that has to stay fixed while a fragment is trusted. */
  datatype Identity = Identity(fileType: int, inode: int, size: int, mtime: int)

  datatype Entry = Entry(name: Name, identity: Identity)

  /** The members as the directory was walked, or sorted. */
  type Snapshot = seq<Entry>

  const MAX_FRAGMENT_FILES: nat := 8192
  const MAX_FRAGMENT_BYTES: nat := 64 * 1024 * 1024
  const MAX_FRAGMENT_SET_BYTES: nat := 4 * 1024 * 1024 * 1024
  const MAX_FRAGMENT_NAME_BYTES: nat := 1024
  const MAX_IDENTITY_INTEGER: nat := 0x7FFF_FFFF_FFFF_FFFF_FFFF_FFFF_FFFF_FFFF
  const S_IFREG: nat := 0x8000

  // ----- shape -----

  predicate ValidIdentity(id: Identity) {
    && 0 <= id.fileType <= 0xFFFF && id.fileType % 0x1000 == 0
    && 0 <= id.inode <= MAX_IDENTITY_INTEGER
    && 0 <= id.size <= MAX_IDENTITY_INTEGER
    && 0 <= id.mtime <= MAX_IDENTITY_INTEGER
  }

  predicate ValidShape(s: Snapshot) {
    forall e | e in s :: ValidIdentity(e.identity)
  }

  predicate ValidName(name: Name) {
    0 < |name| <= MAX_FRAGMENT_NAME_BYTES
  }

  predicate ValidNames(s: Snapshot) {
    forall e | e in s :: ValidName(e.name)
  }

  predicate DistinctNames(s: Snapshot) {
    forall i, j | 0 <= i < j < |s| :: s[i].name != s[j].name
  }

  /** Two walks of a directory found the same mapping of names to identities. */
  predicate SameMembers(a: Snapshot, b: Snapshot) {
    (forall e | e in a :: e in b) && (forall e | e in b :: e in a)
  }

  // ----- order -----

  predicate Before(a: Name, b: Name) {
    b != [] && (a == [] || a[0] < b[0] || (a[0] == b[0] && Before(a[1..], b[1..])))
  }

  lemma {:induction false} BeforeIsStrict(a: Name, b: Name)
    requires Before(a, b)
    ensures a != b && !Before(b, a)
  {
    if a != [] && a[0] == b[0] {
      BeforeIsStrict(a[1..], b[1..]);
    }
  }

  lemma {:induction false} BeforeIsTransitive(a: Name, b: Name, c: Name)
    requires Before(a, b) && Before(b, c)
    ensures Before(a, c)
  {
    if a != [] && a[0] == b[0] && b[0] == c[0] {
      BeforeIsTransitive(a[1..], b[1..], c[1..]);
    }
  }

  lemma {:induction false} BeforeIsTotal(a: Name, b: Name)
    ensures a == b || Before(a, b) || Before(b, a)
  {
    if a != [] && b != [] && a[0] == b[0] {
      BeforeIsTotal(a[1..], b[1..]);
      assert a == [a[0]] + a[1..] && b == [b[0]] + b[1..];
    }
  }

  predicate Sorted(s: Snapshot) {
    forall i, j | 0 <= i < j < |s| :: Before(s[i].name, s[j].name)
  }

  function Insert(e: Entry, s: Snapshot): Snapshot {
    if s == [] || !Before(s[0].name, e.name) then [e] + s else [s[0]] + Insert(e, s[1..])
  }

  function Sort(s: Snapshot): Snapshot {
    if s == [] then [] else Insert(s[0], Sort(s[1..]))
  }

  lemma {:induction false} InsertMembers(e: Entry, s: Snapshot, x: Entry)
    ensures x in Insert(e, s) <==> x == e || x in s
  {
    if !(s == [] || !Before(s[0].name, e.name)) {
      InsertMembers(e, s[1..], x);
      assert s == [s[0]] + s[1..];
    }
  }

  lemma {:induction false} SortMembers(s: Snapshot, x: Entry)
    ensures x in Sort(s) <==> x in s
  {
    if s != [] {
      InsertMembers(s[0], Sort(s[1..]), x);
      SortMembers(s[1..], x);
      assert s == [s[0]] + s[1..];
    }
  }

  lemma {:induction false} InsertSorted(e: Entry, s: Snapshot)
    requires Sorted(s) && forall x | x in s :: x.name != e.name
    ensures Sorted(Insert(e, s))
  {
    if s == [] {
    } else if !Before(s[0].name, e.name) {
      BeforeIsTotal(s[0].name, e.name);
      forall j | 1 <= j < |s| ensures Before(e.name, s[j].name) {
        BeforeIsTransitive(e.name, s[0].name, s[j].name);
      }
    } else {
      var rest := Insert(e, s[1..]);
      forall x | x in s[1..] ensures x.name != e.name && Before(s[0].name, x.name) {
        assert x in s;
      }
      InsertSorted(e, s[1..]);
      forall j | 0 <= j < |rest| ensures Before(s[0].name, rest[j].name) {
        InsertMembers(e, s[1..], rest[j]);
      }
    }
  }

  /** Sorting by name gives the unique strictly ascending list of the members. */
  lemma {:induction false} SortIsSorted(s: Snapshot)
    requires DistinctNames(s)
    ensures Sorted(Sort(s)) && SameMembers(Sort(s), s)
  {
    forall x ensures x in Sort(s) <==> x in s {
      SortMembers(s, x);
    }
    if s != [] {
      SortIsSorted(s[1..]);
      InsertSorted(s[0], Sort(s[1..]));
    }
  }

  lemma {:induction false} SortedIsUnique(a: Snapshot, b: Snapshot)
    requires Sorted(a) && Sorted(b) && SameMembers(a, b)
    ensures a == b
  {
    if b != [] {
      NonEmptyTogether(b, a);
    }
    if a != [] {
      NonEmptyTogether(a, b);
      assert a[0] in a && a[0] in b;
      assert b[0] in b && b[0] in a;
      HeadsAgree(a, b);
      forall e | e in a[1..] ensures e in b[1..] {
        TailMember(a, b, e);
      }
      forall e | e in b[1..] ensures e in a[1..] {
        TailMember(b, a, e);
      }
      SortedIsUnique(a[1..], b[1..]);
      assert a == [a[0]] + a[1..] && b == [b[0]] + b[1..];
    }
  }

  lemma NonEmptyTogether(a: Snapshot, b: Snapshot)
    requires SameMembers(a, b) && a != []
    ensures b != []
  {
    assert a[0] in a;
  }

  lemma HeadsAgree(a: Snapshot, b: Snapshot)
    requires Sorted(a) && Sorted(b) && a != [] && b != [] && a[0] in b && b[0] in a
    ensures a[0] == b[0]
  {
    if a[0] != b[0] {
      assert Before(b[0].name, a[0].name);
      assert Before(a[0].name, b[0].name);
      BeforeIsStrict(a[0].name, b[0].name);
    }
  }

  lemma TailMember(a: Snapshot, b: Snapshot, e: Entry)
    requires Sorted(a) && SameMembers(a, b) && a != [] && b != [] && a[0] == b[0] && e in a[1..]
    ensures e in b[1..]
  {
    assert e in a && e in b;
    BeforeIsStrict(a[0].name, e.name);
    assert b == [b[0]] + b[1..];
  }

  // ----- what is wrong with a member -----

  datatype Reason =
    | ReservedDestination | SqliteSidecar | UnexpectedName | NonRegular
    | ZeroByte | Oversize | EmptySet

  /** Something a cooperative writer may still put right. */
  predicate Retryable(reason: Reason) {
    reason == EmptySet || reason == ZeroByte || reason == SqliteSidecar
  }

  function Ascii(text: string): Name
    requires forall i | 0 <= i < |text| :: text[i] as int < 128
  {
    seq<byte>(|text|, i requires 0 <= i < |text| => text[i] as int)
  }

  predicate EndsWith(name: Name, suffix: Name) {
    |suffix| <= |name| && name[|name| - |suffix|..] == suffix
  }

  const DESTINATION: Name := Ascii(".coverage")
  const PREFIX: Name := Ascii(".coverage.")
  const SIDECARS: seq<Name> := [Ascii("-journal"), Ascii("-wal"), Ascii("-shm")]

  predicate IsSidecar(name: Name) {
    exists i | 0 <= i < |SIDECARS| :: EndsWith(name, SIDECARS[i])
  }

  /** The first complaint about one member, in the order they are checked. */
  function ReasonOf(e: Entry): Option<Reason> {
    if e.name == DESTINATION then Some(ReservedDestination)
    else if IsSidecar(e.name) then Some(SqliteSidecar)
    else if !(PREFIX <= e.name) then Some(UnexpectedName)
    else if e.identity.fileType != S_IFREG then Some(NonRegular)
    else if e.identity.size == 0 then Some(ZeroByte)
    else if e.identity.size > MAX_FRAGMENT_BYTES then Some(Oversize)
    else None
  }

  function Problems(s: Snapshot): seq<Reason> {
    if s == [] then []
    else (if ReasonOf(s[0]).Some? then [ReasonOf(s[0]).value] else []) + Problems(s[1..])
  }

  lemma {:induction false} ProblemsAreComplaints(s: Snapshot, reason: Reason)
    ensures reason in Problems(s) <==> exists i | 0 <= i < |s| :: ReasonOf(s[i]) == Some(reason)
  {
    if s != [] {
      ProblemsAreComplaints(s[1..], reason);
      if i :| 0 <= i < |s| && ReasonOf(s[i]) == Some(reason) {
        assert i > 0 ==> ReasonOf(s[1..][i - 1]) == Some(reason);
      }
      if i :| 0 <= i < |s[1..]| && ReasonOf(s[1..][i]) == Some(reason) {
        assert ReasonOf(s[i + 1]) == Some(reason);
      }
    }
  }

  method SnapshotProblems(s: Snapshot) returns (problems: seq<Reason>)
    ensures problems == Problems(s)
  {
    problems := [];
    assert s[0..] == s;
    for i := 0 to |s|
      invariant problems + Problems(s[i..]) == Problems(s)
    {
      assert s[i..][1..] == s[i + 1..];
      var reason := ReasonOf(s[i]);
      if reason.Some? {
        assert problems + ([reason.value] + Problems(s[i + 1..])) == (problems + [reason.value]) + Problems(s[i + 1..]);
        problems := problems + [reason.value];
      } else {
        assert [] + Problems(s[i + 1..]) == Problems(s[i + 1..]);
      }
    }
    assert s[|s|..] == [];
  }

  // ----- the verdict on a snapshot -----

  function TotalBytes(s: Snapshot): nat {
    if s == [] then 0 else (if s[0].identity.size > 0 then s[0].identity.size else 0) + TotalBytes(s[1..])
  }

  /** `Clean` may be read, `Retry` may become clean, the rest is final. */
  datatype Verdict = Clean | Retry(first: Reason) | TooManyMembers | TooManyBytes | Invalid(reason: Reason)

  /** The first problem that no writer will put right. */
  function FirstFatal(problems: seq<Reason>): Option<Reason> {
    if problems == [] then None
    else if !Retryable(problems[0]) then Some(problems[0])
    else FirstFatal(problems[1..])
  }

  lemma {:induction false} FirstFatalFound(problems: seq<Reason>)
    ensures FirstFatal(problems).None? <==> forall r | r in problems :: Retryable(r)
    ensures FirstFatal(problems).Some? ==> FirstFatal(problems).value in problems && !Retryable(FirstFatal(problems).value)
  {
    if problems != [] {
      assert problems == [problems[0]] + problems[1..];
      FirstFatalFound(problems[1..]);
    }
  }

  function Judge(s: Snapshot): Verdict {
    if |s| > MAX_FRAGMENT_FILES then TooManyMembers
    else if TotalBytes(s) > MAX_FRAGMENT_SET_BYTES then TooManyBytes
    else if s == [] then Retry(EmptySet)
    else
      var problems := Problems(s);
      if FirstFatal(problems).Some? then Invalid(FirstFatal(problems).value)
      else if problems != [] then Retry(problems[0])
      else Clean
  }

  /** A member that may be read: a regular `.coverage.*` file within its bounds. */
  predicate Readable(e: Entry) {
    && e.name != DESTINATION && !IsSidecar(e.name) && PREFIX <= e.name
    && e.identity.fileType == S_IFREG && e.identity.size != 0 && e.identity.size <= MAX_FRAGMENT_BYTES
  }

  predicate WithinBounds(s: Snapshot) {
    |s| <= MAX_FRAGMENT_FILES && TotalBytes(s) <= MAX_FRAGMENT_SET_BYTES
  }

  /** Only a non-empty bounded set of readable members is clean, and only one
      whose every fault may still heal is worth another attempt. */
  lemma VerdictMeaning(s: Snapshot)
    ensures Judge(s).Clean? <==> WithinBounds(s) && s != [] && forall e | e in s :: Readable(e)
    ensures s != [] ==>
            (Judge(s).Retry? <==>
             && WithinBounds(s) && (exists e | e in s :: !Readable(e))
             && forall e | e in s && !Readable(e) :: ReasonOf(e).Some? && Retryable(ReasonOf(e).value))
    ensures Judge(s).Retry? ==> Retryable(Judge(s).first)
    ensures Judge(s).Invalid? ==> exists e | e in s :: ReasonOf(e) == Some(Judge(s).reason) && !Retryable(Judge(s).reason)
  {
    hide TotalBytes, ReasonOf, Readable, Problems;
    var problems := Problems(s);
    FirstFatalFound(problems);
    forall e | e in s ensures Readable(e) <==> ReasonOf(e).None? {
      ReadableMeaning(e);
    }
    forall e | e in s && !Readable(e) ensures ReasonOf(e).value in problems {
      UnreadableIsReported(s, e);
    }
    forall r | r in problems ensures exists e | e in s :: ReasonOf(e) == Some(r) {
      var e := ReportedIsUnreadable(s, r);
    }
    if problems != [] {
      assert problems[0] in problems;
    }
  }

  lemma ReadableMeaning(e: Entry)
    ensures Readable(e) <==> ReasonOf(e).None?
  {
    hide IsSidecar, DESTINATION, PREFIX;
  }

  lemma UnreadableIsReported(s: Snapshot, e: Entry)
    requires e in s && ReasonOf(e).Some?
    ensures ReasonOf(e).value in Problems(s)
  {
    hide ReasonOf, Problems;
    ProblemsAreComplaints(s, ReasonOf(e).value);
    var i :| 0 <= i < |s| && s[i] == e;
  }

  lemma ReportedIsUnreadable(s: Snapshot, reason: Reason) returns (e: Entry)
    requires reason in Problems(s)
    ensures e in s && ReasonOf(e) == Some(reason)
  {
    hide ReasonOf, Problems;
    ProblemsAreComplaints(s, reason);
    var i :| 0 <= i < |s| && ReasonOf(s[i]) == Some(reason);
    e := s[i];
  }
}
