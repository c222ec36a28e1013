/** The chain of codebase-memory receipts kept in a task. The audit is local:
    one pass in which every receipt may only name an earlier one, and a count
    of the receipts that nothing supersedes. It forces a linear history. */
module ReceiptChain {

  /** An entry of the stored list; anything that is not an object is malformed. */
  datatype Entry = Malformed | Receipt(id: string, supersedes: string)

  datatype ChainError =
    | MalformedEntry
    | DuplicateIds
    | NotPrior(id: string)
    | SupersedesItself(id: string)
    | ManyActive

  function Ids(records: seq<Entry>): seq<string> {
    if records == [] then []
    else (if records[0].Receipt? then [records[0].id] else []) + Ids(records[1..])
  }

  function Superseded(records: seq<Entry>): set<string> {
    set r | r in records && r.Receipt? && r.supersedes != "" :: r.supersedes
  }

  function Unnamed(records: seq<Entry>, named: set<string>): seq<Entry> {
    if records == [] then []
    else (if records[0].Receipt? && records[0].id !in named then [records[0]] else []) + Unnamed(records[1..], named)
  }

  /** The receipts that no receipt supersedes. */
  function Active(records: seq<Entry>): seq<Entry> {
    Unnamed(records, Superseded(records))
  }

  /** What the pass reports about one entry, knowing the earlier ids. */
  function EntryErrors(entry: Entry, known: set<string>): seq<ChainError> {
    if entry.Malformed? || entry.supersedes == "" then []
    else
      (if entry.supersedes !in known then [NotPrior(entry.id)] else []) +
      (if entry.supersedes == entry.id then [SupersedesItself(entry.id)] else [])
  }

  function Known(records: seq<Entry>): set<string> {
    set r | r in records && r.Receipt? :: r.id
  }

  function PassErrors(records: seq<Entry>): seq<ChainError> {
    if records == [] then []
    else
      var before, last := records[..|records| - 1], records[|records| - 1];
      PassErrors(before) + EntryErrors(last, Known(before))
  }

  function ChainErrors(records: seq<Entry>): seq<ChainError> {
    (if Malformed in records then [MalformedEntry] else []) +
    (if |Ids(records)| != |SetOf(Ids(records))| then [DuplicateIds] else []) +
    PassErrors(records) +
    (if |Active(records)| > 1 then [ManyActive] else [])
  }

  function SetOf(items: seq<string>): set<string> {
    set item | item in items
  }

  // ----- the history the audit is meant to enforce -----

  predicate WellFormed(records: seq<Entry>) {
    forall i | 0 <= i < |records| :: records[i].Receipt?
  }

  predicate Distinct(records: seq<Entry>)
    requires WellFormed(records)
  {
    forall i, j | 0 <= i < j < |records| :: records[i].id != records[j].id
  }

  /** Distinct ids; the first receipt supersedes nothing and each later one
      supersedes exactly its immediate predecessor. */
  predicate Linear(records: seq<Entry>) {
    && WellFormed(records)
    && Distinct(records)
    && (records != [] ==> records[0].supersedes == "")
    && (forall i | 0 < i < |records| :: records[i].supersedes == records[i - 1].id)
  }

  /** Every receipt that should be superseded can be named at all. */
  predicate NamesUsable(records: seq<Entry>)
    requires WellFormed(records)
  {
    forall i | 0 <= i < |records| - 1 :: records[i].id != ""
  }

  // ----- the local conditions -----

  predicate EntryPriorOnly(entry: Entry, known: set<string>) {
    entry.Receipt? && entry.supersedes != "" ==> entry.supersedes in known && entry.supersedes != entry.id
  }

  predicate PriorOnly(records: seq<Entry>) {
    forall i | 0 <= i < |records| :: EntryPriorOnly(records[i], Known(records[..i]))
  }

  lemma {:induction false} NoPassErrors(records: seq<Entry>)
    ensures PassErrors(records) == [] <==> PriorOnly(records)
  {
    if records != [] {
      var n := |records| - 1;
      NoPassErrors(records[..n]);
      NoErrorsInEntry(records[n], Known(records[..n]));
      PriorOnlyAppend(records[..n], records[n]);
      assert records == records[..n] + [records[n]];
    }
  }

  lemma NoErrorsInEntry(entry: Entry, known: set<string>)
    ensures EntryErrors(entry, known) == [] <==> EntryPriorOnly(entry, known)
  {
  }

  lemma PriorOnlyAppend(before: seq<Entry>, last: Entry)
    ensures PriorOnly(before + [last]) <==> PriorOnly(before) && EntryPriorOnly(last, Known(before))
  {
    hide Known, EntryPriorOnly;
    var records := before + [last];
    assert forall i | 0 <= i < |before| :: before[..i] == records[..i] && before[i] == records[i];
    assert records[..|before|] == before;
  }

  lemma {:induction false} IdsOfWellFormed(records: seq<Entry>)
    requires WellFormed(records)
    ensures |Ids(records)| == |records|
    ensures forall i | 0 <= i < |records| :: Ids(records)[i] == records[i].id
  {
    if records != [] {
      IdsOfWellFormed(records[1..]);
    }
  }

  /** A list is as long as its set exactly when nothing repeats. */
  lemma {:induction false} SetSize(items: seq<string>)
    ensures |SetOf(items)| <= |items|
    ensures |SetOf(items)| == |items| <==> forall i, j | 0 <= i < j < |items| :: items[i] != items[j]
  {
    if items != [] {
      var n := |items| - 1;
      SetSize(items[..n]);
      assert items == items[..n] + [items[n]];
      assert SetOf(items) == SetOf(items[..n]) + {items[n]};
      if items[n] in items[..n] {
        assert SetOf(items) == SetOf(items[..n]);
      }
    }
  }

  lemma {:induction false} UnnamedKeeps(records: seq<Entry>, named: set<string>, i: nat, j: nat)
    requires WellFormed(records) && i < j < |records|
    requires records[i].id !in named && records[j].id !in named
    ensures |Unnamed(records, named)| > 1
  {
    if i == 0 {
      UnnamedHas(records[1..], named, j - 1);
    } else {
      UnnamedKeeps(records[1..], named, i - 1, j - 1);
    }
  }

  lemma {:induction false} UnnamedHas(records: seq<Entry>, named: set<string>, j: nat)
    requires WellFormed(records) && j < |records| && records[j].id !in named
    ensures Unnamed(records, named) != []
  {
    if j > 0 {
      UnnamedHas(records[1..], named, j - 1);
    }
  }

  lemma {:induction false} OnlyLastUnnamed(records: seq<Entry>, named: set<string>)
    requires WellFormed(records) && records != []
    requires forall i | 0 <= i < |records| - 1 :: records[i].id in named
    requires records[|records| - 1].id !in named
    ensures Unnamed(records, named) == [records[|records| - 1]]
  {
    if |records| > 1 {
      OnlyLastUnnamed(records[1..], named);
    } else {
      assert Unnamed(records[1..], named) == [];
    }
  }

  // ----- the linear history is forced -----

  /** Edges point backwards and at most one receipt is unnamed, so the slots of
      the later receipts are used up from the end: each must name its
      immediate predecessor. */
  lemma {:induction false} ForcedFrom(records: seq<Entry>, j: nat)
    requires WellFormed(records) && PriorOnly(records) && |Active(records)| <= 1 && Distinct(records)
    requires j < |records|
    ensures forall i | j <= i < |records| - 1 :: Follows(records, i)
    decreases |records| - j
  {
    var n := |records| - 1;
    if j < n {
      ForcedFrom(records, j + 1);
      var i := NamedBy(records, j);
      assert i > j + 1 ==> Follows(records, i - 1);
      assert records[j].id != records[i - 1].id || i == j + 1;
    }
  }

  ghost predicate Follows(records: seq<Entry>, i: nat)
    requires WellFormed(records) && i < |records| - 1
  {
    records[i].id != "" && records[i + 1].supersedes == records[i].id
  }

  /** Every receipt but the last is named by some later one. */
  lemma NamedBy(records: seq<Entry>, j: nat) returns (i: nat)
    requires WellFormed(records) && PriorOnly(records) && |Active(records)| <= 1 && Distinct(records)
    requires j < |records| - 1
    ensures j < i < |records| && records[i].supersedes == records[j].id != ""
  {
    var n := |records| - 1;
    var named := Superseded(records);
    LastUnnamed(records);
    if records[j].id !in named {
      UnnamedKeeps(records, named, j, n);
      assert false;
    }
    var namer :| namer in records && namer.Receipt? && namer.supersedes != "" && namer.supersedes == records[j].id;
    i :| 0 <= i < |records| && records[i] == namer;
    var t := PriorTarget(records, i);
    assert t == j;
  }

  lemma PriorTarget(records: seq<Entry>, i: nat) returns (t: nat)
    requires WellFormed(records) && PriorOnly(records)
    requires i < |records| && records[i].supersedes != ""
    ensures t < i && records[t].id == records[i].supersedes
  {
    assert EntryPriorOnly(records[i], Known(records[..i]));
    var target :| target in records[..i] && target.Receipt? && target.id == records[i].supersedes;
    t :| 0 <= t < i && records[t] == target;
  }

  lemma LastUnnamed(records: seq<Entry>)
    requires WellFormed(records) && PriorOnly(records) && records != [] && Distinct(records)
    ensures records[|records| - 1].id !in Superseded(records)
  {
    var n := |records| - 1;
    forall i | 0 <= i < |records| && records[i].supersedes != "" ensures records[i].supersedes != records[n].id {
      var t := PriorTarget(records, i);
    }
  }

  lemma LinearIsClean(records: seq<Entry>)
    requires Linear(records) && NamesUsable(records)
    ensures PriorOnly(records)
    ensures records != [] ==> Active(records) == [records[|records| - 1]]
  {
    forall i | 0 <= i < |records| ensures EntryPriorOnly(records[i], Known(records[..i])) {
      if i > 0 {
        var before := records[..i];
        assert before[i - 1] == records[i - 1] && before[i - 1] in before;
        assert records[i - 1].id in Known(before);
        assert records[i - 1].id != records[i].id;
      }
    }
    if records != [] {
      LastUnnamed(records);
      forall i | 0 <= i < |records| - 1 ensures records[i].id in Superseded(records) {
        assert records[i + 1] in records && records[i + 1].supersedes == records[i].id;
      }
      OnlyLastUnnamed(records, Superseded(records));
    }
  }

  lemma {:induction false} NoErrorsIsLocal(records: seq<Entry>)
    ensures ChainErrors(records) == [] <==>
            WellFormed(records) && Distinct(records) && PriorOnly(records) && |Active(records)| <= 1
  {
    NoPassErrors(records);
    if Malformed in records {
      var i :| 0 <= i < |records| && records[i] == Malformed;
      assert !WellFormed(records);
    } else {
      assert WellFormed(records);
      IdsOfWellFormed(records);
      SetSize(Ids(records));
      assert (forall i, j | 0 <= i < j < |records| :: Ids(records)[i] != Ids(records)[j]) <==> Distinct(records);
    }
  }

  lemma {:induction false} LocalForcesLinear(records: seq<Entry>)
    requires WellFormed(records) && Distinct(records) && PriorOnly(records) && |Active(records)| <= 1
    ensures Linear(records) && NamesUsable(records)
  {
    if records != [] {
      ForcedFrom(records, 0);
      assert records[0].supersedes == "" by {
        assert EntryPriorOnly(records[0], Known(records[..0]));
      }
      forall i | 0 < i < |records| ensures records[i].supersedes == records[i - 1].id {
        assert Follows(records, i - 1);
      }
      forall i | 0 <= i < |records| - 1 ensures records[i].id != "" {
        assert Follows(records, i);
      }
    }
  }

  lemma NothingActiveInNothing(records: seq<Entry>)
    ensures records == [] ==> Active(records) == []
  {
  }

  /** The one-pass audit reports nothing if and only if the history is linear
      and every receipt but the last has a usable name; the active set of a
      non-empty history is then exactly its last receipt. */
  lemma {:induction false} NoErrorsIffLinear(records: seq<Entry>)
    ensures ChainErrors(records) == [] <==> Linear(records) && NamesUsable(records)
    ensures ChainErrors(records) == [] && records != [] ==> Active(records) == [records[|records| - 1]]
  {
    hide ChainErrors, Active, PriorOnly;
    NoErrorsIsLocal(records);
    if ChainErrors(records) == [] {
      LocalForcesLinear(records);
    }
    if Linear(records) && NamesUsable(records) {
      LinearIsClean(records);
      NothingActiveInNothing(records);
    }
  }

  ghost predicate ExtendsCleanly(records: seq<Entry>, next: Entry)
    requires WellFormed(records) && records != []
  {
    && next.Receipt?
    && (forall i | 0 <= i < |records| :: records[i].id != next.id)
    && next.supersedes == records[|records| - 1].id != ""
  }

  /** A clean history grows by one receipt cleanly only at its end. */
  lemma {:induction false} CleanExtension(records: seq<Entry>, next: Entry)
    requires WellFormed(records) && records != [] && ChainErrors(records) == []
    ensures ChainErrors(records + [next]) == [] <==> ExtendsCleanly(records, next)
  {
    hide ChainErrors, Active;
    var longer := records + [next];
    NoErrorsIffLinear(records);
    assert Linear(records) && NamesUsable(records);
    NoErrorsIffLinear(longer);
    var n := |records|;
    assert forall i | 0 <= i < n :: longer[i] == records[i];
    assert longer[n] == next;
    if ExtendsCleanly(records, next) {
      assert WellFormed(longer);
      forall i, j | 0 <= i < j < |longer| ensures longer[i].id != longer[j].id {
        assert j < n ==> records[i].id != records[j].id;
      }
      forall i | 0 < i < |longer| ensures longer[i].supersedes == longer[i - 1].id {
        if i < n {
          assert records[i].supersedes == records[i - 1].id;
        }
      }
      forall i | 0 <= i < |longer| - 1 ensures longer[i].id != "" {
        assert i < n - 1 ==> records[i].id != "";
      }
    }
    if Linear(longer) && NamesUsable(longer) {
      assert longer[n].supersedes == longer[n - 1].id && longer[n - 1].id != "";
      assert forall i | 0 <= i < n :: longer[i].id != longer[n].id;
    }
  }

  /** Linearity alone is not enough: a receipt with an empty id cannot be
      superseded, because an empty reference counts as none. */
  lemma EmptyIdDefeatsTheAudit()
    ensures var records := [Receipt("", ""), Receipt("b", "")];
            Linear(records) && ChainErrors(records) != []
  {
    var records := [Receipt("", ""), Receipt("b", "")];
    NoErrorsIffLinear(records);
    assert records[0].id == "";
  }

  // ----- the pass itself -----

  lemma UnnamedStep(records: seq<Entry>, named: set<string>, i: nat)
    requires i < |records|
    ensures Unnamed(records[i..], named) ==
            (if records[i].Receipt? && records[i].id !in named then [records[i]] else []) +
            Unnamed(records[i + 1..], named)
  {
    assert records[i..][1..] == records[i + 1..];
  }

  method ActiveReceiptRecords(records: seq<Entry>) returns (active: seq<Entry>)
    ensures active == Active(records)
  {
    var named := Superseded(records);
    active := [];
    assert records[0..] == records;
    assert Unnamed(records[|records|..], named) == [];
    hide Superseded, Unnamed;
    for i := 0 to |records|
      invariant active + Unnamed(records[i..], named) == Active(records)
    {
      UnnamedStep(records, named, i);
      if records[i].Receipt? && records[i].id !in named {
        active := active + [records[i]];
      }
    }
  }

  method ReceiptChainErrors(records: seq<Entry>) returns (errors: seq<ChainError>)
    ensures errors == ChainErrors(records)
  {
    hide Active, PassErrors, Ids, SetOf;
    errors := [];
    if Malformed in records {
      errors := errors + [MalformedEntry];
    }
    var ids := Ids(records);
    if |ids| != |SetOf(ids)| {
      errors := errors + [DuplicateIds];
    }
    var found := PassOver(records);
    var active := ActiveReceiptRecords(records);
    errors := errors + found + if |active| > 1 then [ManyActive] else [];
  }

  lemma PassStep(records: seq<Entry>, i: nat)
    requires i < |records|
    ensures PassErrors(records[..i + 1]) ==
            PassErrors(records[..i]) + EntryErrors(records[i], Known(records[..i]))
    ensures Known(records[..i + 1]) ==
            Known(records[..i]) + if records[i].Receipt? then {records[i].id} else {}
  {
    var longer := records[..i + 1];
    assert longer[..i] == records[..i] && longer[i] == records[i];
    assert longer == records[..i] + [records[i]];
  }

  /** The loop that grows the set of known ids. */
  method PassOver(records: seq<Entry>) returns (errors: seq<ChainError>)
    ensures errors == PassErrors(records)
  {
    errors := [];
    var known: set<string> := {};
    assert Known(records[..0]) == {} && PassErrors(records[..0]) == [];
    hide Known, PassErrors;
    for i := 0 to |records|
      invariant known == Known(records[..i])
      invariant errors == PassErrors(records[..i])
    {
      PassStep(records, i);
      match records[i] {
        case Malformed =>
        case Receipt(receiptId, supersedes) =>
          if supersedes != "" {
            if supersedes !in known {
              errors := errors + [NotPrior(receiptId)];
            }
            if supersedes == receiptId {
              errors := errors + [SupersedesItself(receiptId)];
            }
          }
          known := known + {receiptId};
      }
    }
    assert records[..|records|] == records;
  }
}
