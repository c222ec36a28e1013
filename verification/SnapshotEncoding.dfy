/** The bytes that a snapshot digest hashes: a magic prefix, then every member
    in name order with a length in front of each variable part. */
module SnapshotEncoding {
  import opened FragmentSnapshots

  type Bytes = seq<byte>

  // ----- big-endian lengths -----

  function Pow256(width: nat): nat {
    if width == 0 then 1 else 256 * Pow256(width - 1)
  }

  function BigEndian(value: nat, width: nat): (r: Bytes)
    ensures |r| == width
  {
    if width == 0 then [] else BigEndian(value / 256, width - 1) + [value % 256]
  }

  function FromBigEndian(b: Bytes): nat {
    if b == [] then 0 else 256 * FromBigEndian(b[..|b| - 1]) + b[|b| - 1]
  }

  lemma {:induction false} BigEndianRoundTrip(value: nat, width: nat)
    requires value < Pow256(width)
    ensures FromBigEndian(BigEndian(value, width)) == value
  {
    if width > 0 {
      BigEndianRoundTrip(value / 256, width - 1);
      var b := BigEndian(value, width);
      assert b[..|b| - 1] == BigEndian(value / 256, width - 1);
    }
  }

  // ----- decimal rendering -----

  function Decimal(n: nat): (r: Bytes)
    ensures r != []
  {
    if n < 10 then [48 + n] else Decimal(n / 10) + [48 + n % 10]
  }

  function FromDecimal(b: Bytes): int {
    if b == [] then 0 else 10 * FromDecimal(b[..|b| - 1]) + (b[|b| - 1] as int - 48)
  }

  lemma {:induction false} DecimalRoundTrip(n: nat)
    ensures FromDecimal(Decimal(n)) == n
  {
    var b := Decimal(n);
    if n >= 10 {
      DecimalRoundTrip(n / 10);
      assert b[..|b| - 1] == Decimal(n / 10);
    } else {
      assert b[..|b| - 1] == [];
    }
  }

  function Pow10(k: nat): nat {
    if k == 0 then 1 else 10 * Pow10(k - 1)
  }

  lemma {:induction false} DecimalLength(n: nat, k: nat)
    requires 0 < k && n < Pow10(k)
    ensures |Decimal(n)| <= k
  {
    if n >= 10 {
      assert k > 1;
      DecimalLength(n / 10, k - 1);
    }
  }

  /** The largest identity value needs no more than 39 digits. */
  lemma IdentityDigits(n: nat)
    requires n <= MAX_IDENTITY_INTEGER
    ensures |Decimal(n)| <= 39
  {
    Pow10Of39();
    DecimalLength(n, 39);
  }

  lemma Pow10Of39()
    ensures Pow10(39) == 1_000_000_000_000_000_000_000_000_000_000_000_000_000
  {
    Pow10Add(13, 13);
    Pow10Add(26, 13);
    Pow10Of13();
  }

  lemma Pow10Of13()
    ensures Pow10(13) == 10_000_000_000_000
  {
    assert Pow10(4) == 10_000;
    Pow10Add(4, 4);
    Pow10Add(8, 4);
  }

  lemma {:induction false} Pow10Add(a: nat, b: nat)
    ensures Pow10(a + b) == Pow10(a) * Pow10(b)
  {
    if a > 0 {
      Pow10Add(a - 1, b);
    }
  }

  // ----- one member -----

  /** A variable part behind its length. */
  function Field(part: Bytes, width: nat): Bytes {
    BigEndian(|part|, width) + part
  }

  function EncodeEntry(e: Entry): Bytes
    requires ValidIdentity(e.identity)
  {
    Field(e.name, 4)
    + Field(Decimal(e.identity.fileType), 2)
    + Field(Decimal(e.identity.inode), 2)
    + Field(Decimal(e.identity.size), 2)
    + Field(Decimal(e.identity.mtime), 2)
  }

  function EncodeEntries(s: Snapshot): Bytes
    requires ValidShape(s)
  {
    if s == [] then [] else EncodeEntry(s[0]) + EncodeEntries(s[1..])
  }

  const MAGIC: Bytes := Ascii("aoi-coverage-fragment-snapshot-v1\0")

  /** The digest input of a directory, whatever order it was walked in. */
  function Encode(s: Snapshot): Bytes
    requires ValidShape(s)
  {
    SortKeepsShape(s);
    MAGIC + EncodeEntries(Sort(s))
  }

  lemma SortKeepsShape(s: Snapshot)
    ensures ValidShape(s) ==> ValidShape(Sort(s))
    ensures ValidNames(s) ==> ValidNames(Sort(s))
  {
    forall e | e in Sort(s) ensures e in s {
      SortMembers(s, e);
    }
  }

  // ----- the encoding is prefix-free -----

  lemma FieldPrefixFree(a: Bytes, b: Bytes, width: nat, x: Bytes, y: Bytes)
    requires |a| < Pow256(width) && |b| < Pow256(width)
    requires Field(a, width) + x == Field(b, width) + y
    ensures a == b && x == y
  {
    var whole := Field(a, width) + x;
    assert whole[..width] == BigEndian(|a|, width);
    assert whole[..width] == BigEndian(|b|, width) by {
      assert (Field(b, width) + y)[..width] == BigEndian(|b|, width);
    }
    BigEndianRoundTrip(|a|, width);
    BigEndianRoundTrip(|b|, width);
    var n := width + |a|;
    assert whole[width..n] == a && whole[n..] == x;
    assert whole[width..n] == b && whole[n..] == y by {
      assert (Field(b, width) + y)[width..n] == b && (Field(b, width) + y)[n..] == y;
    }
  }

  lemma DecimalFieldPrefixFree(m: nat, n: nat, x: Bytes, y: Bytes)
    requires m <= MAX_IDENTITY_INTEGER && n <= MAX_IDENTITY_INTEGER
    requires Field(Decimal(m), 2) + x == Field(Decimal(n), 2) + y
    ensures m == n && x == y
  {
    IdentityDigits(m);
    IdentityDigits(n);
    assert Pow256(2) == 65536;
    FieldPrefixFree(Decimal(m), Decimal(n), 2, x, y);
    DecimalRoundTrip(m);
    DecimalRoundTrip(n);
  }

  /** What follows the name of a member. */
  function Values(id: Identity, rest: Bytes): Bytes
    requires ValidIdentity(id)
  {
    Field(Decimal(id.fileType), 2)
    + (Field(Decimal(id.inode), 2) + (Field(Decimal(id.size), 2) + (Field(Decimal(id.mtime), 2) + rest)))
  }

  lemma EntrySplit(e: Entry, rest: Bytes)
    requires ValidIdentity(e.identity)
    ensures EncodeEntry(e) + rest == Field(e.name, 4) + Values(e.identity, rest)
  {
    hide Field, Decimal;
  }

  lemma EntryPrefixFree(a: Entry, b: Entry, x: Bytes, y: Bytes)
    requires ValidIdentity(a.identity) && ValidIdentity(b.identity) && ValidName(a.name) && ValidName(b.name)
    requires EncodeEntry(a) + x == EncodeEntry(b) + y
    ensures a == b && x == y
  {
    hide EncodeEntry, Field;
    EntrySplit(a, x);
    EntrySplit(b, y);
    assert Pow256(2) == 65536;
    FieldPrefixFree(a.name, b.name, 4, Values(a.identity, x), Values(b.identity, y));
    var i, j := a.identity, b.identity;
    DecimalFieldPrefixFree(i.fileType, j.fileType,
      Field(Decimal(i.inode), 2) + (Field(Decimal(i.size), 2) + (Field(Decimal(i.mtime), 2) + x)),
      Field(Decimal(j.inode), 2) + (Field(Decimal(j.size), 2) + (Field(Decimal(j.mtime), 2) + y)));
    DecimalFieldPrefixFree(i.inode, j.inode,
      Field(Decimal(i.size), 2) + (Field(Decimal(i.mtime), 2) + x),
      Field(Decimal(j.size), 2) + (Field(Decimal(j.mtime), 2) + y));
    DecimalFieldPrefixFree(i.size, j.size, Field(Decimal(i.mtime), 2) + x, Field(Decimal(j.mtime), 2) + y);
    DecimalFieldPrefixFree(i.mtime, j.mtime, x, y);
  }

  lemma EntryNonEmpty(e: Entry)
    requires ValidIdentity(e.identity)
    ensures EncodeEntry(e) != []
  {
    assert |EncodeEntry(e)| >= |Field(e.name, 4)| >= 4;
  }

  lemma {:induction false} EntriesInjective(a: Snapshot, b: Snapshot)
    requires ValidShape(a) && ValidShape(b) && ValidNames(a) && ValidNames(b)
    requires EncodeEntries(a) == EncodeEntries(b)
    ensures a == b
  {
    hide EncodeEntry;
    if a != [] {
      EntryNonEmpty(a[0]);
    }
    if b != [] {
      EntryNonEmpty(b[0]);
    }
    if a != [] && b != [] {
      EntryPrefixFree(a[0], b[0], EncodeEntries(a[1..]), EncodeEntries(b[1..]));
      EntriesInjective(a[1..], b[1..]);
      assert a == [a[0]] + a[1..] && b == [b[0]] + b[1..];
    }
  }

  /** Two valid walks give the same digest input if and only if they found the
      same mapping of names to identities. */
  lemma EncodingDecidesSnapshots(a: Snapshot, b: Snapshot)
    requires ValidShape(a) && ValidShape(b) && ValidNames(a) && ValidNames(b)
    requires DistinctNames(a) && DistinctNames(b)
    ensures Encode(a) == Encode(b) <==> SameMembers(a, b)
  {
    hide EncodeEntries, Sort;
    SortIsSorted(a);
    SortIsSorted(b);
    SortKeepsShape(a);
    SortKeepsShape(b);
    if Encode(a) == Encode(b) {
      assert Encode(a)[|MAGIC|..] == EncodeEntries(Sort(a));
      assert Encode(b)[|MAGIC|..] == EncodeEntries(Sort(b));
      EntriesInjective(Sort(a), Sort(b));
    }
    if SameMembers(a, b) {
      SortedIsUnique(Sort(a), Sort(b));
    }
  }

  // ----- the loops that build the material -----

  method ExtendWithValues(material: Bytes, id: Identity) returns (r: Bytes)
    requires ValidIdentity(id)
    ensures r == material + Values(id, [])
  {
    hide Field, Decimal;
    var values: seq<nat> := [id.fileType, id.inode, id.size, id.mtime];
    r := material;
    for i := 0 to 4
      invariant r == material + Fields(values[..i])
    {
      var encoded := Decimal(values[i]);
      assert values[..i + 1] == values[..i] + [values[i]];
      FieldsGrow(values[..i], values[i]);
      ghost var r0 := r;
      r := r + BigEndian(|encoded|, 2) + encoded;
      FieldShape(r0, encoded, 2);
    }
    assert values[..4] == values;
    FieldsAreValues(id);
  }

  lemma FieldShape(front: Bytes, part: Bytes, width: nat)
    ensures front + BigEndian(|part|, width) + part == front + Field(part, width)
  {
  }

  lemma NothingEncoded()
    ensures EncodeEntries([]) == []
  {
  }

  function Fields(values: seq<nat>): Bytes {
    if values == [] then [] else Field(Decimal(values[0]), 2) + Fields(values[1..])
  }

  lemma {:induction false} FieldsGrow(values: seq<nat>, next: nat)
    ensures Fields(values + [next]) == Fields(values) + Field(Decimal(next), 2)
  {
    hide Field, Decimal;
    if values != [] {
      FieldsGrow(values[1..], next);
      assert (values + [next])[1..] == values[1..] + [next];
    } else {
      assert (values + [next])[1..] == [];
    }
  }

  lemma FieldsAreValues(id: Identity)
    requires ValidIdentity(id)
    ensures Fields([id.fileType, id.inode, id.size, id.mtime]) == Values(id, [])
  {
    hide Field, Decimal;
    var v: seq<nat> := [id.fileType, id.inode, id.size, id.mtime];
    var w: seq<nat> := [id.size, id.mtime];
    assert v[1..][1..] == w;
    assert w[1..] == [id.mtime] && w[1..][1..] == [];
    assert Fields(w[1..]) == Field(Decimal(id.mtime), 2) + Fields([]);
    assert Fields(w) == Field(Decimal(id.size), 2) + Fields(w[1..]);
    assert Fields(v[1..]) == Field(Decimal(id.inode), 2) + Fields(w);
  }

  lemma {:induction false} EntriesGrow(s: Snapshot, e: Entry)
    requires ValidShape(s) && ValidIdentity(e.identity)
    ensures EncodeEntries(s + [e]) == EncodeEntries(s) + EncodeEntry(e)
  {
    hide EncodeEntry;
    if s != [] {
      EntriesGrow(s[1..], e);
      assert (s + [e])[1..] == s[1..] + [e];
    } else {
      assert (s + [e])[1..] == [];
    }
  }

  lemma MaterialStep(done: Snapshot, e: Entry)
    requires ValidShape(done) && ValidIdentity(e.identity)
    ensures MAGIC + EncodeEntries(done) + BigEndian(|e.name|, 4) + e.name + Values(e.identity, [])
            == MAGIC + EncodeEntries(done + [e])
  {
    hide Values, EncodeEntries, EncodeEntry, BigEndian;
    EntriesGrow(done, e);
    EntrySplit(e, []);
    assert EncodeEntry(e) + [] == EncodeEntry(e);
    Regroup(MAGIC, EncodeEntries(done), BigEndian(|e.name|, 4), e.name, Values(e.identity, []));
  }

  lemma Regroup(a: Bytes, b: Bytes, c: Bytes, d: Bytes, e: Bytes)
    ensures a + b + c + d + e == a + (b + ((c + d) + e))
  {
  }

  method SnapshotMaterial(s: Snapshot) returns (material: Bytes)
    requires ValidShape(s)
    ensures material == Encode(s)
  {
    hide EncodeEntry, Sort, Values, BigEndian, ValidIdentity, EncodeEntries;
    SortKeepsShape(s);
    var sorted := Sort(s);
    material := MAGIC;
    NothingEncoded();
    assert sorted[..0] == [] && material == MAGIC + [];
    for i := 0 to |sorted|
      invariant material == MAGIC + EncodeEntries(sorted[..i])
    {
      var e := sorted[i];
      assert sorted[..i + 1] == sorted[..i] + [e];
      MaterialStep(sorted[..i], e);
      material := material + BigEndian(|e.name|, 4) + e.name;
      material := ExtendWithValues(material, e.identity);
    }
    assert sorted[..|sorted|] == sorted;
  }
}
