/** Combining a sealed set of fragments and publishing the result beside them,
    in a directory that other processes may change before every step. */
module CombineFragments {
  import opened FragmentSnapshots
  import opened Wrappers
  import opened MeasuredPaths
  import Q = FragmentQuiescence

  const MAX_COMBINE_ATTEMPTS: nat := 3
  const MAX_MEASURED_FILES: nat := 4096

  /** Who made a directory entry; attempts are numbered from 0. */
  datatype Maker = Other | Ours(attempt: nat)

  datatype File = File(identity: Identity, maker: Maker)

  type Dir = map<Name, File>

  type Lines = map<string, set<int>>

  datatype Luck = Completes | MemberVanishes | CannotEnumerate

  /** What everything outside this process does at each tick. */
  datatype World = World(
    others: (nat, Dir) -> Dir,
    walk: nat -> Luck,
    seal: nat -> Q.Outcome<seq<string>>,
    source: string -> Option<(Category, string)>,
    data: (nat, Name) -> Option<Lines>,
    staged: nat -> Option<Identity>,
    linkError: nat -> bool,
    unlinkError: nat -> bool)

  /** Other processes never put one of our links back where they found none. */
  ghost predicate Cooperative(world: World) {
    forall t: nat, dir: Dir, k: nat | OwnAt(world.others(t, dir), k) :: OwnAt(dir, k)
  }

  /** Nobody else touches the directory. */
  ghost predicate Inert(world: World) {
    forall t: nat, dir: Dir :: world.others(t, dir) == dir
  }

  /** Nobody else touches the directory and no step of ours goes wrong. */
  ghost predicate Smooth(world: World) {
    && Inert(world)
    && forall t: nat :: world.walk(t).Completes? && !world.linkError(t) && !world.unlinkError(t)
  }

  /** The seal keeps its contract. */
  ghost predicate SealsHonestly(world: World) {
    forall t: nat | world.seal(t).Sealed? :: SealKept(world.seal(t))
  }

  predicate SealKept(seal: Q.Outcome<seq<string>>)
    requires seal.Sealed?
  {
    && Judge(seal.snapshot) == Clean && Sorted(seal.snapshot)
    && seal.order == Q.NamesOf(seal.snapshot)
    && Q.CoversExactly(seal.measured, seal.order)
  }

  /** The destination holds the link that this attempt made. */
  predicate OwnAt(dir: Dir, k: nat) {
    DESTINATION in dir && dir[DESTINATION].maker == Ours(k)
  }

  function Identities(dir: Dir): map<Name, Identity> {
    map name | name in dir :: dir[name].identity
  }

  // ----- sealed snapshots as maps -----

  function AsMap(s: Snapshot): map<Name, Identity> {
    if s == [] then map[] else AsMap(s[1..])[s[0].name := s[0].identity]
  }

  lemma {:induction false} AsMapKeys(s: Snapshot, name: Name)
    ensures name in AsMap(s) <==> name in Q.NamesOf(s)
  {
    if s != [] {
      AsMapKeys(s[1..], name);
      assert Q.NamesOf(s) == [s[0].name] + Q.NamesOf(s[1..]);
    }
  }

  lemma {:induction false} AsMapSize(s: Snapshot)
    requires Sorted(s)
    ensures |AsMap(s)| == |s|
  {
    if s != [] {
      AsMapSize(s[1..]);
      AsMapKeys(s[1..], s[0].name);
      if s[0].name in Q.NamesOf(s[1..]) {
        var i :| 0 <= i < |s[1..]| && Q.NamesOf(s[1..])[i] == s[0].name;
        assert Before(s[0].name, s[i + 1].name);
        BeforeIsStrict(s[0].name, s[i + 1].name);
      }
    }
  }

  lemma SealedNamesAreNotTheDestination(s: Snapshot)
    requires Judge(s) == Clean
    ensures DESTINATION !in AsMap(s)
  {
    hide Judge, Readable;
    AsMapKeys(s, DESTINATION);
    if DESTINATION in Q.NamesOf(s) {
      var i :| 0 <= i < |s| && Q.NamesOf(s)[i] == DESTINATION;
      DestinationIsUnreadable(s, i);
    }
  }

  lemma DestinationIsUnreadable(s: Snapshot, i: nat)
    requires i < |s| && s[i].name == DESTINATION
    ensures Judge(s) != Clean
  {
    VerdictMeaning(s);
    assert s[i] in s && !Readable(s[i]);
  }

  // ----- the union of measured lines -----

  predicate AllMapped(data: Lines, mapped: map<string, string>) {
    forall p | p in data :: p in mapped
  }

  /** `CoverageData.update` under a path map: set union file by file. */
  function Union(content: Lines, data: Lines, mapped: map<string, string>): Lines
    requires AllMapped(data, mapped)
  {
    map c | c in content.Keys + (set p | p in data :: mapped[p]) ::
      (if c in content then content[c] else {}) + (set p, l | p in data && mapped[p] == c && l in data[p] :: l)
  }

  predicate MapsTo(mapped: map<string, string>, p: string, c: string) {
    p in mapped && mapped[p] == c
  }

  /** A canonical file appears if and only if some measured path maps to it. */
  ghost predicate FilesAre(content: Lines, taken: seq<Lines>, mapped: map<string, string>)
  {
    forall c :: c in content <==> exists i, p | 0 <= i < |taken| && p in taken[i] :: MapsTo(mapped, p, c)
  }

  /** Its lines are the lines of all fragments and paths that map to it. */
  ghost predicate LinesAre(content: Lines, taken: seq<Lines>, mapped: map<string, string>)
  {
    forall c, l | c in content ::
      l in content[c] <==> exists i, p | 0 <= i < |taken| && p in taken[i] :: MapsTo(mapped, p, c) && l in taken[i][p]
  }

  lemma UnionKeepsFiles(content: Lines, taken: seq<Lines>, data: Lines, mapped: map<string, string>)
    requires AllMapped(data, mapped) && FilesAre(content, taken, mapped)
    ensures FilesAre(Union(content, data, mapped), taken + [data], mapped)
  {
    var more, merged := taken + [data], Union(content, data, mapped);
    forall c ensures c in merged <==> exists i, p | 0 <= i < |more| && p in more[i] :: MapsTo(mapped, p, c) {
      if c in merged {
        if c in content {
          var i, p :| 0 <= i < |taken| && p in taken[i] && MapsTo(mapped, p, c);
          assert p in more[i];
        } else {
          var p :| p in data && MapsTo(mapped, p, c);
          assert p in more[|taken|];
        }
      }
      if i, p :| 0 <= i < |more| && p in more[i] && MapsTo(mapped, p, c) {
        if i < |taken| {
          assert p in taken[i];
        } else {
          assert p in data;
        }
      }
    }
  }

  lemma UnionKeepsLines(content: Lines, taken: seq<Lines>, data: Lines, mapped: map<string, string>)
    requires AllMapped(data, mapped) && FilesAre(content, taken, mapped) && LinesAre(content, taken, mapped)
    ensures LinesAre(Union(content, data, mapped), taken + [data], mapped)
  {
    var more, merged := taken + [data], Union(content, data, mapped);
    forall c, l | c in merged
      ensures l in merged[c] <==> exists i, p | 0 <= i < |more| && p in more[i] :: MapsTo(mapped, p, c) && l in more[i][p]
    {
      if l in merged[c] {
        if c in content && l in content[c] {
          var i, p :| 0 <= i < |taken| && p in taken[i] && MapsTo(mapped, p, c) && l in taken[i][p];
          assert p in more[i];
        } else {
          var p :| p in data && MapsTo(mapped, p, c) && l in data[p];
          assert p in more[|taken|];
        }
      }
      if i, p :| 0 <= i < |more| && p in more[i] && MapsTo(mapped, p, c) && l in more[i][p] {
        if i < |taken| {
          assert p in taken[i];
        } else {
          assert p in data;
        }
      }
    }
  }

  // ----- results -----

  datatype Failure =
    | SealRefused | TooManyPaths | UntrustedPath | RootsMissing | CannotWalk
    | DestinationPresent | UnreadableInCombine | InvalidOutput
    | LinkFailed | RecheckBroken | DestinationReplaced | RollbackFailed
    | ChangedEveryTime

  datatype Check = Matches | Differs | Unwalkable

  datatype Progress<+T> = Done(value: T) | Changed | Failed(error: Failure)

  datatype Verified = Verified(mapped: map<string, string>, snapshot: Snapshot)

  datatype Combined = Combined(memberCount: nat, totalBytes: nat, content: Lines, snapshot: Snapshot, staged: Identity)

  /** What the directory holds when a combination has been published. */
  predicate PublishedExactly(dir: Dir, c: Combined) {
    && DESTINATION !in AsMap(c.snapshot)
    && Identities(dir) == AsMap(c.snapshot)[DESTINATION := c.staged]
  }

  /** All measured paths, fragment by fragment. */
  function AllPaths(order: seq<Name>, measured: map<Name, seq<string>>): seq<string>
    requires forall f | f in order :: f in measured
  {
    if order == [] then [] else measured[order[0]] + AllPaths(order[1..], measured)
  }

  predicate Trusted(world: World, paths: seq<string>) {
    forall p | p in paths :: world.source(p).Some?
  }

  /** The paths are exactly the keys, and each is mapped as its source says. */
  predicate MapsAll(world: World, mapped: map<string, string>, paths: seq<string>) {
    && (forall p | p in paths :: p in mapped)
    && forall p | p in mapped :: p in paths && world.source(p).Some? && world.source(p).value.1 == mapped[p]
  }

  predicate CategoriesOf(world: World, categories: set<Category>, paths: seq<string>) {
    && (forall p | p in paths && world.source(p).Some? :: world.source(p).value.0 in categories)
    && forall c | c in categories :: exists p | p in paths :: world.source(p).Some? && world.source(p).value.0 == c
  }

  // ----- what was seen, and when -----

  /** The directory shows this member with this identity. */
  predicate Shows(dir: Dir, e: Entry) {
    e.name in dir && dir[e.name].identity == e.identity
  }

  /** At tick t the fragment held this data, all of it under verified paths, and
      the looks before and after that read saw the sealed identity. */
  predicate TakenAt(world: World, sights: seq<Dir>, t: nat, data: Lines, e: Entry, mapped: map<string, string>) {
    && AllMapped(data, mapped)
    && world.data(t, e.name) == Some(data)
    && t + 1 < |sights| && Shows(sights[t], e) && Shows(sights[t + 1], e)
  }

  /** Every sealed fragment was taken at its own tick, one after the other. */
  ghost predicate TakenInTurn(world: World, sights: seq<Dir>, after: nat, ats: seq<nat>, taken: seq<Lines>, s: Snapshot,
                              mapped: map<string, string>) {
    && |ats| == |taken| <= |s|
    && (forall i | 0 <= i < |ats| :: after < ats[i] && TakenAt(world, sights, ats[i], taken[i], s[i], mapped))
    && forall i, j | 0 <= i < j < |ats| :: ats[i] < ats[j]
  }

  lemma TakenStays(world: World, sights: seq<Dir>, more: seq<Dir>, after: nat, ats: seq<nat>, taken: seq<Lines>, s: Snapshot,
                   mapped: map<string, string>)
    requires sights <= more && TakenInTurn(world, sights, after, ats, taken, s, mapped)
    ensures TakenInTurn(world, more, after, ats, taken, s, mapped)
  {
    forall i | 0 <= i < |ats| ensures TakenAt(world, more, ats[i], taken[i], s[i], mapped) {
      assert TakenAt(world, sights, ats[i], taken[i], s[i], mapped);
      assert more[ats[i]] == sights[ats[i]] && more[ats[i] + 1] == sights[ats[i] + 1];
    }
  }

  lemma TakenNext(world: World, sights: seq<Dir>, after: nat, ats: seq<nat>, taken: seq<Lines>, s: Snapshot,
                  mapped: map<string, string>, at: nat, data: Lines)
    requires TakenInTurn(world, sights, after, ats, taken, s, mapped) && |ats| < |s|
    requires after < at && TakenAt(world, sights, at, data, s[|ats|], mapped)
    requires forall i | 0 <= i < |ats| :: ats[i] < at
    ensures TakenInTurn(world, sights, after, ats + [at], taken + [data], s, mapped)
  {
    hide TakenAt;
  }

  // ----- when a combination succeeds -----

  function PathSet(paths: seq<string>): set<string> {
    set p | p in paths
  }

  /** Nothing interferes, every fragment can be read and holds no more than what
      was measured, and the output is a regular file with something in it. */
  ghost predicate Obliging(world: World) {
    && Smooth(world) && SealsHonestly(world)
    && (forall t: nat :: world.staged(t).Some? && world.staged(t).value.fileType == S_IFREG && world.staged(t).value.size != 0)
    && forall t: nat, u: nat, f | world.seal(u).Sealed? && f in world.seal(u).order ::
         world.data(t, f).Some? && forall p | p in world.data(t, f).value :: p in AllPaths(world.seal(u).order, world.seal(u).measured)
  }

  /** The seal is of this directory, which leaves room for the output; every
      measured path is trusted, there are not too many, and all three kinds occur. */
  ghost predicate Combinable(world: World, dir: Dir, seal: Q.Outcome<seq<string>>)
    requires seal.Sealed? ==> SealKept(seal)
  {
    && seal.Sealed?
    && AsMap(seal.snapshot) == Identities(dir) && |dir| < MAX_FRAGMENT_FILES
    && var paths := AllPaths(seal.order, seal.measured);
    && Trusted(world, paths) && |PathSet(paths)| <= MAX_MEASURED_FILES
    && CategoriesOf(world, {Canonical, Checkout, SystemSite}, paths)
  }

  lemma CategoriesUnique(world: World, a: set<Category>, b: set<Category>, paths: seq<string>)
    requires Trusted(world, paths) && CategoriesOf(world, a, paths) && CategoriesOf(world, b, paths)
    ensures a == b
  {
  }

  lemma {:induction false} AsMapEntry(s: Snapshot, e: Entry)
    requires Sorted(s) && e in s
    ensures e.name in AsMap(s) && AsMap(s)[e.name] == e.identity
  {
    if e != s[0] {
      assert s == [s[0]] + s[1..];
      AsMapEntry(s[1..], e);
      var i :| 0 <= i < |s| && s[i] == e;
      assert Before(s[0].name, s[i].name);
      BeforeIsStrict(s[0].name, s[i].name);
    }
  }

  lemma SealedAreShown(s: Snapshot, dir: Dir)
    requires Sorted(s) && AsMap(s) == Identities(dir)
    ensures forall e | e in s :: Shows(dir, e)
  {
    hide AsMap;
    forall e | e in s ensures Shows(dir, e) {
      AsMapEntry(s, e);
      assert e.name in Identities(dir);
    }
  }

  /** What a walk at this tick makes of the directory. */
  function Look(world: World, dir: Dir, t: nat, expected: map<Name, Identity>): Check {
    if |dir| > MAX_FRAGMENT_FILES then Unwalkable
    else
      match world.walk(t)
      case CannotEnumerate => Unwalkable
      case MemberVanishes => Differs
      case Completes => if Identities(dir) == expected then Matches else Differs
  }

  /** When nobody else touches the directory, a link attempted at this tick is made
      and stays: it can be made, and then the directory cannot be walked, or it is
      not found as expected and the link cannot be taken back. */
  predicate LinkStays(world: World, dir: Dir, identities: map<Name, Identity>, staged: Identity, t: nat) {
    && !world.linkError(t) && DESTINATION !in dir
    && if |dir| >= MAX_FRAGMENT_FILES || world.walk(t + 1).CannotEnumerate? then true
       else
         && (world.walk(t + 1).MemberVanishes? || Identities(dir)[DESTINATION := staged] != identities[DESTINATION := staged])
         && world.unlinkError(t + 2)
  }

  /** The same for a publication that starts from a directory which is as sealed:
      it comes to the link, the link is made, and then there is one member too many,
      or the walk fails for good, or it misses a member and the link cannot be
      taken back. */
  predicate LinkIsLeft(world: World, dir: Dir, s: Snapshot, t: nat) {
    && ReachesLink(world, dir, s, t) && !world.linkError(t + 3)
    && (|| |dir| == MAX_FRAGMENT_FILES
        || world.walk(t + 4).CannotEnumerate?
        || (world.walk(t + 4).MemberVanishes? && world.unlinkError(t + 5)))
  }

  /** Both looks before the link see the sealed set, and the output between them is
      good. */
  predicate ReachesLink(world: World, dir: Dir, s: Snapshot, t: nat) {
    && Look(world, dir, t + 1, AsMap(s)).Matches?
    && world.staged(t + 1).Some? && world.staged(t + 1).value.fileType == S_IFREG && world.staged(t + 1).value.size != 0
    && Look(world, dir, t + 2, AsMap(s)).Matches?
  }

  lemma LinkStaysByLook(world: World, dir: Dir, identities: map<Name, Identity>, file: File, t: nat)
    ensures var linked := dir[DESTINATION := file];
      var expected := identities[DESTINATION := file.identity];
      && (LinkStays(world, dir, identities, file.identity, t) <==>
            && !world.linkError(t) && DESTINATION !in dir
            && match Look(world, linked, t + 1, expected)
               case Matches => false
               case Unwalkable => true
               case Differs => world.unlinkError(t + 2))
      && (DESTINATION !in dir ==> linked - {DESTINATION} == dir)
      && (Smooth(world) && DESTINATION !in dir && Identities(dir) == identities && |dir| <= MAX_FRAGMENT_FILES ==>
            Look(world, linked, t + 1, expected) == if |dir| < MAX_FRAGMENT_FILES then Matches else Unwalkable)
  {
    hide Identities;
    if DESTINATION !in dir {
      LinkedSize(dir, DESTINATION, file);
      LinkedIdentities(dir, DESTINATION, file);
    }
  }

  lemma LinkStaysBesideTheSealed(world: World, dir: Dir, s: Snapshot, staged: Identity, t: nat)
    requires Identities(dir) == AsMap(s) && DESTINATION !in AsMap(s) && |dir| <= MAX_FRAGMENT_FILES
    ensures LinkStays(world, dir, AsMap(s), staged, t) <==>
      && !world.linkError(t)
      && (|| |dir| == MAX_FRAGMENT_FILES
          || world.walk(t + 1).CannotEnumerate?
          || (world.walk(t + 1).MemberVanishes? && world.unlinkError(t + 2)))
  {
    hide AsMap, Identities;
    InIdentities(dir, DESTINATION);
  }

  class Combiner {
    const world: World
    var dir: Dir
    var tick: nat
    /** The directory as each tick found it. */
    ghost var sights: seq<Dir>
    /** Every file this run has unlinked, with the identity it was meant to have. */
    ghost var removed: seq<(File, Identity)>

    constructor (world: World, dir: Dir)
      ensures this.world == world && this.dir == dir && removed == [] && Logged()
    {
      this.world, this.dir, tick, sights, removed := world, dir, 0, [dir], [];
    }

    ghost predicate Logged()
      reads `tick, `sights
    {
      |sights| == tick + 1
    }

    /** Only files bearing the identity of the run's own output are unlinked. */
    ghost predicate RemovedOwn()
      reads `removed
    {
      forall i | 0 <= i < |removed| :: removed[i].0.identity == removed[i].1
    }

    method OthersAct()
      requires Cooperative(world) && Logged()
      modifies `dir, `tick, `sights
      ensures dir == world.others(old(tick), old(dir)) && tick == old(tick) + 1
      ensures Logged() && sights == old(sights) + [dir]
      ensures forall k: nat | OwnAt(dir, k) :: OwnAt(old(dir), k)
      ensures Inert(world) ==> dir == old(dir)
    {
      dir := world.others(tick, dir);
      tick, sights := tick + 1, sights + [dir];
    }

    /** `_assert_fragment_snapshot`. */
    method AssertSnapshot(expected: map<Name, Identity>) returns (check: Check)
      requires Cooperative(world) && Logged()
      modifies `dir, `tick, `sights
      ensures Logged() && sights == old(sights) + [dir] && tick == old(tick) + 1
      ensures check == Look(world, dir, tick, expected)
      ensures check.Matches? ==> Identities(dir) == expected && |dir| <= MAX_FRAGMENT_FILES
      ensures Smooth(world) && |dir| <= MAX_FRAGMENT_FILES && Identities(dir) != expected ==> check.Differs?
      ensures |dir| > MAX_FRAGMENT_FILES ==> check.Unwalkable?
      ensures Smooth(world) && |dir| <= MAX_FRAGMENT_FILES && Identities(dir) == expected ==> check.Matches?
      ensures forall k: nat | OwnAt(dir, k) :: OwnAt(old(dir), k)
      ensures Inert(world) ==> dir == old(dir)
    {
      OthersAct();
      if |dir| > MAX_FRAGMENT_FILES {
        return Unwalkable;
      }
      match world.walk(tick)
      case CannotEnumerate => return Unwalkable;
      case MemberVanishes => return Differs;
      case Completes => return if Identities(dir) == expected then Matches else Differs;
    }

    /** Looks at one entry; None when it has vanished. */
    method IdentityOf(name: Name) returns (id: Option<Identity>)
      requires Cooperative(world) && Logged()
      modifies `dir, `tick, `sights
      ensures Logged() && sights == old(sights) + [dir] && tick == old(tick) + 1
      ensures id == if name in dir then Some(dir[name].identity) else None
      ensures forall k: nat | OwnAt(dir, k) :: OwnAt(old(dir), k)
      ensures Inert(world) ==> dir == old(dir)
    {
      OthersAct();
      id := if name in dir then Some(dir[name].identity) else None;
    }

    // ----- publication -----

    /** Links the staged output, looks again, and takes the link back when the
        directory is not exactly the sealed set and the output. */
    method Publish(k: nat, identities: map<Name, Identity>, staged: Identity) returns (r: Progress<()>)
      requires Cooperative(world) && Logged() && DESTINATION !in identities
      requires !OwnAt(dir, k) && RemovedOwn()
      modifies `dir, `tick, `sights, `removed
      ensures RemovedOwn() && Logged() && old(sights) <= sights
      ensures r.Done? ==> Identities(dir) == identities[DESTINATION := staged] && |identities| < MAX_FRAGMENT_FILES
      ensures r.Changed? ==> !OwnAt(dir, k)
      ensures r.Failed? && OwnAt(dir, k) ==> r.error in {RecheckBroken, DestinationReplaced, RollbackFailed}
      ensures r.Failed? && Inert(world) ==> (OwnAt(dir, k) <==> r.error in {RecheckBroken, RollbackFailed})
      ensures Inert(world) ==> (r.Failed? && OwnAt(dir, k) <==> LinkStays(world, old(dir), identities, staged, old(tick) + 1))
      ensures Inert(world) && r.Changed? ==> dir == old(dir)
      ensures r.Failed? ==> r.error in {LinkFailed, RecheckBroken, DestinationReplaced, RollbackFailed} && removed == old(removed)
      ensures forall j: nat | j != k && OwnAt(dir, j) :: OwnAt(old(dir), j)
      ensures Smooth(world) && Identities(old(dir)) == identities && |identities| <= MAX_FRAGMENT_FILES ==>
                r == (if |identities| < MAX_FRAGMENT_FILES then Done(()) else Failed(RecheckBroken)) && OwnAt(dir, k)
    {
      hide RemovedOwn, Identities, Look, LinkStays;
      OthersAct();
      LinkStaysByLook(world, dir, identities, File(staged, Ours(k)), tick);
      InIdentities(dir, DESTINATION);
      IdentitiesSize(dir);
      if world.linkError(tick) {
        return Failed(LinkFailed);
      }
      if DESTINATION in dir {
        return Changed;
      }
      dir := dir[DESTINATION := File(staged, Ours(k))];
      r := Recheck(k, identities[DESTINATION := staged], staged);
      IdentitiesSize(dir);
    }

    /** The look after the link, which is taken back unless it is all there is. */
    method Recheck(k: nat, expected: map<Name, Identity>, staged: Identity) returns (r: Progress<()>)
      requires Cooperative(world) && Logged() && RemovedOwn()
      requires DESTINATION in dir && dir[DESTINATION] == File(staged, Ours(k))
      modifies `dir, `tick, `sights, `removed
      ensures RemovedOwn() && Logged() && old(sights) <= sights
      ensures r.Done? ==> Identities(dir) == expected && |dir| <= MAX_FRAGMENT_FILES
      ensures r.Changed? ==> !OwnAt(dir, k)
      ensures r.Failed? ==> r.error in {RecheckBroken, DestinationReplaced, RollbackFailed} && removed == old(removed)
      ensures forall j: nat | OwnAt(dir, j) :: OwnAt(old(dir), j)
      ensures Inert(world) ==>
        match Look(world, old(dir), old(tick) + 1, expected)
        case Matches => r == Done(()) && dir == old(dir)
        case Unwalkable => r == Failed(RecheckBroken) && dir == old(dir)
        case Differs =>
          if world.unlinkError(old(tick) + 2) then r == Failed(RollbackFailed) && dir == old(dir)
          else r == Changed && dir == old(dir) - {DESTINATION}
    {
      hide RemovedOwn, Identities, Look;
      var check := AssertSnapshot(expected);
      if check.Matches? {
        return Done(());
      }
      if check.Unwalkable? {
        return Failed(RecheckBroken);
      }
      r := Retract(k, staged);
    }

    /** Takes this attempt's link back, if it is still what stands there. */
    method Retract(k: nat, staged: Identity) returns (r: Progress<()>)
      requires Cooperative(world) && Logged() && RemovedOwn()
      modifies `dir, `tick, `sights, `removed
      ensures RemovedOwn() && Logged() && old(sights) <= sights && !r.Done?
      ensures r.Changed? ==> DESTINATION !in dir
      ensures r.Failed? ==> r.error in {DestinationReplaced, RollbackFailed} && removed == old(removed)
      ensures forall j: nat | OwnAt(dir, j) :: OwnAt(old(dir), j)
      ensures Inert(world) && DESTINATION in old(dir) && old(dir)[DESTINATION].identity == staged ==>
        if world.unlinkError(old(tick) + 1) then r == Failed(RollbackFailed) && dir == old(dir)
        else r == Changed && dir == old(dir) - {DESTINATION}
    {
      var found := IdentityOf(DESTINATION);
      if found.None? {
        return Changed;
      }
      if found.value != staged {
        return Failed(DestinationReplaced);
      }
      if world.unlinkError(tick) {
        return Failed(RollbackFailed);
      }
      removed := removed + [(dir[DESTINATION], staged)];
      dir := dir - {DESTINATION};
      return Changed;
    }

    // ----- verification of the measured paths -----

    /** Verifies every measured path of the sealed set once. */
    method VerifyPaths(order: seq<Name>, measured: map<Name, seq<string>>)
      returns (r: Progress<map<string, string>>, categories: set<Category>)
      requires forall f | f in order :: f in measured
      ensures r.Done? ==>
        && MapsAll(world, r.value, AllPaths(order, measured)) && |r.value| <= MAX_MEASURED_FILES
        && CategoriesOf(world, categories, AllPaths(order, measured))
      ensures r.Failed? ==>
        || !Trusted(world, AllPaths(order, measured))
        || exists many: set<string> :: |many| > MAX_MEASURED_FILES && forall p | p in many :: p in AllPaths(order, measured)
      ensures !r.Changed? && (r.Failed? ==> r.error in {TooManyPaths, UntrustedPath})
      ensures r.Done? <==>
        Trusted(world, AllPaths(order, measured)) && |PathSet(AllPaths(order, measured))| <= MAX_MEASURED_FILES
    {
      hide MapsAll, CategoriesOf;
      var seen: set<string>, mapped: map<string, string> := {}, map[];
      categories := {};
      ghost var all, done: seq<string> := AllPaths(order, measured), [];
      assert order[0..] == order;
      NoPaths(world);
      for i := 0 to |order|
        invariant MapsAll(world, mapped, done) && |mapped| <= MAX_MEASURED_FILES
        invariant CategoriesOf(world, categories, done)
        invariant seen == mapped.Keys && forall p | p in seen :: p in all
        invariant all == done + AllPaths(order[i..], measured)
      {
        var paths := measured[order[i]];
        assert order[i..][1..] == order[i + 1..];
        FragmentDone(done, paths, AllPaths(order[i + 1..], measured));
        var next: Progress<map<string, string>>;
        next, seen, categories := VerifyOneFragment(paths, mapped, categories, done);
        if next.Failed? {
          assert seen <= PathSet(all);
          SubsetSize(seen, PathSet(all));
          return next, categories;
        }
        mapped := next.value;
        done := done + paths;
      }
      assert order[|order|..] == [] && done + [] == done;
      MappedPaths(world, mapped, all);
      return Done(mapped), categories;
    }

    /** The inner loop: one fragment's paths, those already seen skipped. */
    method VerifyOneFragment(paths: seq<string>, verified: map<string, string>, found: set<Category>, ghost before: seq<string>)
      returns (r: Progress<map<string, string>>, seen: set<string>, categories: set<Category>)
      requires MapsAll(world, verified, before) && CategoriesOf(world, found, before)
      requires |verified| <= MAX_MEASURED_FILES
      ensures !r.Changed?
      ensures r.Done? ==>
        && seen == r.value.Keys && |seen| <= MAX_MEASURED_FILES
        && MapsAll(world, r.value, before + paths) && CategoriesOf(world, categories, before + paths)
      ensures forall p | p in seen :: p in verified || p in paths
      ensures r.Failed? ==>
        || (r.error == UntrustedPath && exists p | p in paths :: world.source(p).None?)
        || (r.error == TooManyPaths && |seen| > MAX_MEASURED_FILES)
    {
      hide MapsAll, CategoriesOf;
      var mapped := verified;
      seen, categories := verified.Keys, found;
      assert before + paths[..0] == before;
      for j := 0 to |paths|
        invariant MapsAll(world, mapped, before + paths[..j]) && |mapped| <= MAX_MEASURED_FILES
        invariant CategoriesOf(world, categories, before + paths[..j])
        invariant seen == mapped.Keys && forall p | p in seen :: p in verified || p in paths
      {
        var p := paths[j];
        assert p in paths;
        Extended(before, paths, j);
        if p in seen {
          SeenAgain(world, mapped, categories, before + paths[..j], p);
          continue;
        }
        seen := seen + {p};
        if |seen| > MAX_MEASURED_FILES {
          return Failed(TooManyPaths), seen, categories;
        }
        var source := world.source(p);
        if source.None? {
          return Failed(UntrustedPath), seen, categories;
        }
        SeenFirst(world, mapped, categories, before + paths[..j], p);
        categories := categories + {source.value.0};
        mapped := mapped[p := source.value.1];
      }
      assert paths[..|paths|] == paths;
      return Done(mapped), seen, categories;
    }

    /** Seals, verifies what was measured, and looks again. The seal is taken
        after this call began and before it ends. */
    method VerifyFragments() returns (r: Progress<Verified>, ghost sealedAt: nat)
      requires Cooperative(world) && SealsHonestly(world) && Logged()
      modifies `dir, `tick, `sights
      ensures Logged() && old(sights) <= sights
      ensures forall k: nat | OwnAt(dir, k) :: OwnAt(old(dir), k)
      ensures Inert(world) ==> dir == old(dir)
      ensures sealedAt == old(tick) + 1
      ensures r.Failed? ==> r.error in {SealRefused, TooManyPaths, UntrustedPath, RootsMissing, CannotWalk}
      ensures r.Done? ==>
        && sealedAt < tick && world.seal(sealedAt).Sealed? && SealedAt(sealedAt, r.value)
        && Judge(r.value.snapshot) == Clean && Sorted(r.value.snapshot)
        && Identities(dir) == AsMap(r.value.snapshot)
        && r.value.snapshot == world.seal(sealedAt).snapshot
      ensures Smooth(world) && |old(dir)| < MAX_FRAGMENT_FILES ==>
        (r.Done? <==> Combinable(world, old(dir), world.seal(sealedAt)))
    {
      hide Judge, Sorted, AsMap, Identities, MapsAll, CategoriesOf, Trusted, PathSet;
      OthersAct();
      sealedAt := tick;
      var seal := world.seal(tick);
      if !seal.Sealed? {
        return Failed(SealRefused), sealedAt;
      }
      assert SealKept(seal);
      var paths, categories := VerifyPaths(seal.order, seal.measured);
      if paths.Failed? {
        return Failed(paths.error), sealedAt;
      }
      var check := AssertSnapshot(AsMap(seal.snapshot));
      if check.Differs? {
        return Changed, sealedAt;
      }
      if check.Unwalkable? {
        return Failed(CannotWalk), sealedAt;
      }
      ghost var all := AllPaths(seal.order, seal.measured);
      if CategoriesOf(world, {Canonical, Checkout, SystemSite}, all) {
        CategoriesUnique(world, categories, {Canonical, Checkout, SystemSite}, all);
      }
      if categories != {Canonical, Checkout, SystemSite} {
        return Failed(RootsMissing), sealedAt;
      }
      r := Done(Verified(paths.value, seal.snapshot));
      assert SealedAt(sealedAt, r.value);
    }

    /** The verified map is the map of one seal's measured paths, with sources
        of all three kinds among them. */
    ghost predicate SealedAt(t: nat, v: Verified)
      requires world.seal(t).Sealed?
    {
      && SealKept(world.seal(t))
      && v.snapshot == world.seal(t).snapshot
      && var paths := AllPaths(world.seal(t).order, world.seal(t).measured);
      && MapsAll(world, v.mapped, paths) && |v.mapped| <= MAX_MEASURED_FILES
      && CategoriesOf(world, {Canonical, Checkout, SystemSite}, paths)
    }

    // ----- the union fold -----

    /** Reads every sealed fragment again, each between two looks that still see
        its sealed identity, and merges its lines. */
    method MergeFragments(s: Snapshot, mapped: map<string, string>)
      returns (r: Progress<Lines>, ghost taken: seq<Lines>, ghost ats: seq<nat>)
      requires Cooperative(world) && Logged()
      modifies `dir, `tick, `sights
      ensures Logged() && old(sights) <= sights
      ensures forall k: nat | OwnAt(dir, k) :: OwnAt(old(dir), k)
      ensures Inert(world) ==> dir == old(dir)
      ensures r.Done? ==>
        && |taken| == |s| && FilesAre(r.value, taken, mapped) && LinesAre(r.value, taken, mapped)
        && TakenInTurn(world, sights, old(tick), ats, taken, s, mapped)
      ensures r.Failed? ==> r.error in {CannotWalk, UnreadableInCombine}
      ensures Inert(world) && (forall e | e in s :: Shows(old(dir), e)) && AlwaysReadable(s, mapped) ==> r.Done?
    {
      hide FilesAre, LinesAre, TakenInTurn, Union;
      var content: Lines := map[];
      taken, ats := [], [];
      NothingTaken(world, sights, tick, s, mapped);
      for i := 0 to |s|
        invariant Logged() && old(sights) <= sights
        invariant forall k: nat | OwnAt(dir, k) :: OwnAt(old(dir), k)
        invariant Inert(world) ==> dir == old(dir)
        invariant |taken| == |ats| == i && FilesAre(content, taken, mapped) && LinesAre(content, taken, mapped)
        invariant TakenInTurn(world, sights, old(tick), ats, taken, s, mapped)
        invariant forall j | 0 <= j < i :: ats[j] < tick
      {
        ghost var was := sights;
        assert s[i] in s;
        var found := IdentityOf(s[i].name);
        if found != Some(s[i].identity) {
          return Changed, taken, ats;
        }
        ghost var at := tick;
        var data := world.data(tick, s[i].name);
        if data.None? || !AllMapped(data.value, mapped) {
          var again := IdentityOf(s[i].name);
          if again != Some(s[i].identity) {
            return Changed, taken, ats;
          }
          var check := AssertSnapshot(AsMap(s));
          return (match check case Differs => Changed case Unwalkable => Failed(CannotWalk)
                  case Matches => Failed(UnreadableInCombine)), taken, ats;
        }
        UnionKeepsFiles(content, taken, data.value, mapped);
        UnionKeepsLines(content, taken, data.value, mapped);
        content := Union(content, data.value, mapped);
        var after := IdentityOf(s[i].name);
        if after != Some(s[i].identity) {
          return Changed, taken, ats;
        }
        TakenStays(world, was, sights, old(tick), ats, taken, s, mapped);
        TakenNext(world, sights, old(tick), ats, taken, s, mapped, at, data.value);
        taken, ats := taken + [data.value], ats + [at];
      }
      return Done(content), taken, ats;
    }

    /** Every fragment can be read at any time and holds only verified paths. */
    ghost predicate AlwaysReadable(s: Snapshot, mapped: map<string, string>) {
      forall t: nat, e | e in s :: world.data(t, e.name).Some? && AllMapped(world.data(t, e.name).value, mapped)
    }

    // ----- one attempt, and the attempts -----

    /** One attempt: everything it publishes was sealed and read after it began.
        `published` is the tick at which it turned to the publication, if it did. */
    method CombineAttempt(k: nat)
      returns (r: Progress<Combined>, ghost mapped: map<string, string>, ghost taken: seq<Lines>, ghost sealedAt: nat, ghost ats: seq<nat>,
               ghost published: Option<nat>)
      requires Cooperative(world) && SealsHonestly(world) && Logged()
      requires !OwnAt(dir, k) && RemovedOwn()
      modifies `dir, `tick, `sights, `removed
      ensures RemovedOwn() && Logged() && old(sights) <= sights
      ensures forall j: nat | j != k && OwnAt(dir, j) :: OwnAt(old(dir), j)
      ensures r.Done? ==>
        && PublishedExactly(dir, r.value)
        && |r.value.snapshot| < MAX_FRAGMENT_FILES
        && r.value.memberCount == |r.value.snapshot| && r.value.totalBytes == TotalBytes(r.value.snapshot)
        && old(tick) < sealedAt && MergedFrom(r.value, mapped, taken, sealedAt, ats)
      ensures r.Changed? ==> !OwnAt(dir, k)
      ensures r.Failed? && OwnAt(dir, k) ==> r.error in {RecheckBroken, DestinationReplaced, RollbackFailed}
      ensures r.Failed? && Inert(world) ==> (OwnAt(dir, k) <==> r.error in {RecheckBroken, RollbackFailed})
      ensures published.Some? ==> old(tick) < sealedAt < published.value && world.seal(sealedAt).Sealed?
      ensures Inert(world) ==>
        (r.Failed? && OwnAt(dir, k) <==> published.Some? && LinkIsLeft(world, old(dir), world.seal(sealedAt).snapshot, published.value))
      ensures Inert(world) ==> !r.Changed? || dir == old(dir)
      ensures Smooth(world) && r.Failed? && OwnAt(dir, k) ==> |old(dir)| == MAX_FRAGMENT_FILES
      ensures Smooth(world) && |old(dir)| == MAX_FRAGMENT_FILES ==> !r.Done?
      ensures Obliging(world) && |old(dir)| <= MAX_FRAGMENT_FILES ==>
        (r.Done? <==> Combinable(world, old(dir), world.seal(old(tick) + 1)))
    {
      hide FilesAre, LinesAre, TakenInTurn, SealedAt, Judge, Sorted, TotalBytes, AsMap, Identities, RemovedOwn, AlwaysReadable;
      hide Combinable, LinkIsLeft, Look;
      mapped, taken, ats, published := map[], [], [], None;
      var verified;
      verified, sealedAt := VerifyFragments();
      FullIsNotCombinable(world, old(dir), world.seal(sealedAt));
      if verified.Failed? {
        return Failed(verified.error), mapped, taken, sealedAt, ats, published;
      }
      if verified.Changed? {
        return Changed, mapped, taken, sealedAt, ats, published;
      }
      var s := verified.value.snapshot;
      mapped := verified.value.mapped;
      SealedNamesAreNotTheDestination(s);
      SealedAreShown(s, dir);
      var present := IdentityOf(DESTINATION);
      if present.Some? {
        InIdentities(dir, DESTINATION);
        return Failed(DestinationPresent), mapped, taken, sealedAt, ats, published;
      }
      if Obliging(world) {
        ObligingIsReadable(sealedAt, verified.value);
      }
      ghost var verifiedAt := tick;
      var merged;
      merged, taken, ats := MergeFragments(s, verified.value.mapped);
      if merged.Failed? {
        return Failed(merged.error), mapped, taken, sealedAt, ats, published;
      }
      if merged.Changed? {
        return Changed, mapped, taken, sealedAt, ats, published;
      }
      ghost var read := sights;
      published := Some(tick);
      var outcome := StageAndPublish(k, s);
      match outcome
      case Changed => return Changed, mapped, taken, sealedAt, ats, published;
      case Failed(error) => return Failed(error), mapped, taken, sealedAt, ats, published;
      case Done(staged) =>
        r := Done(Combined(|s|, TotalBytes(s), merged.value, s, staged));
        TakenLater(world, read, sights, verifiedAt, sealedAt, ats, taken, s, mapped);
        return r, mapped, taken, sealedAt, ats, published;
    }

    /** What follows the merge: a look, the staged output, another look, and the
        publication. */
    method StageAndPublish(k: nat, s: Snapshot) returns (r: Progress<Identity>)
      requires Cooperative(world) && Logged() && RemovedOwn() && !OwnAt(dir, k)
      requires Judge(s) == Clean && Sorted(s)
      modifies `dir, `tick, `sights, `removed
      ensures RemovedOwn() && Logged() && old(sights) <= sights
      ensures forall j: nat | j != k && OwnAt(dir, j) :: OwnAt(old(dir), j)
      ensures r.Done? ==>
        && DESTINATION !in AsMap(s) && Identities(dir) == AsMap(s)[DESTINATION := r.value]
        && |s| < MAX_FRAGMENT_FILES
      ensures r.Changed? ==> !OwnAt(dir, k)
      ensures r.Failed? && OwnAt(dir, k) ==> r.error in {RecheckBroken, DestinationReplaced, RollbackFailed}
      ensures r.Failed? && Inert(world) ==> (OwnAt(dir, k) <==> r.error in {RecheckBroken, RollbackFailed})
      ensures Inert(world) ==> (r.Failed? && OwnAt(dir, k) <==> LinkIsLeft(world, old(dir), s, old(tick)))
      ensures Inert(world) ==> !r.Changed? || dir == old(dir)
      ensures Smooth(world) && (r.Done? || OwnAt(dir, k)) ==> Identities(old(dir)) == AsMap(s)
      ensures Smooth(world) && Identities(old(dir)) == AsMap(s) ==>
        |old(dir)| == |s| <= MAX_FRAGMENT_FILES && (r.Failed? && OwnAt(dir, k) ==> |s| == MAX_FRAGMENT_FILES)
      ensures Obliging(world) && Identities(old(dir)) == AsMap(s) ==> (r.Done? <==> |s| < MAX_FRAGMENT_FILES)
    {
      hide Judge, Sorted, AsMap, Identities, RemovedOwn, LinkStays, ReachesLink;
      SealedNamesAreNotTheDestination(s);
      AsMapSize(s);
      IdentitiesSize(dir);
      CleanIsBounded(s);
      var staged := Stage(s);
      if !staged.Done? {
        return staged;
      }
      if Inert(world) {
        LinkStaysBesideTheSealed(world, dir, s, staged.value, tick + 1);
      }
      var published := Publish(k, AsMap(s), staged.value);
      match published
      case Changed => return Changed;
      case Failed(error) => return Failed(error);
      case Done(_) => return staged;
    }

    /** The output, made between two looks. */
    method Stage(s: Snapshot) returns (r: Progress<Identity>)
      requires Cooperative(world) && Logged()
      modifies `dir, `tick, `sights
      ensures Logged() && old(sights) <= sights
      ensures forall j: nat | OwnAt(dir, j) :: OwnAt(old(dir), j)
      ensures r.Done? ==> tick == old(tick) + 2 && Identities(dir) == AsMap(s) && |dir| <= MAX_FRAGMENT_FILES
      ensures r.Failed? ==> r.error in {CannotWalk, InvalidOutput}
      ensures Inert(world) ==> dir == old(dir) && (r.Done? <==> ReachesLink(world, dir, s, old(tick)))
      ensures Obliging(world) && Identities(old(dir)) == AsMap(s) && |old(dir)| <= MAX_FRAGMENT_FILES ==> r.Done?
    {
      hide AsMap, Identities;
      var check := AssertSnapshot(AsMap(s));
      if !check.Matches? {
        return if check.Differs? then Changed else Failed(CannotWalk);
      }
      var staged := world.staged(tick);
      if staged.None? {
        return Changed;
      }
      if staged.value.fileType != S_IFREG || staged.value.size == 0 {
        return Failed(InvalidOutput);
      }
      check := AssertSnapshot(AsMap(s));
      if !check.Matches? {
        return if check.Differs? then Changed else Failed(CannotWalk);
      }
      return Done(staged.value);
    }

    /** The published lines are the union over every sealed fragment and every
        measured path mapped to each canonical file. The paths are those of the
        seal taken at `sealedAt`; what was merged for each fragment is what it
        held later, between two looks that saw its sealed identity. */
    ghost predicate MergedFrom(c: Combined, mapped: map<string, string>, taken: seq<Lines>, sealedAt: nat, ats: seq<nat>)
      reads `sights
    {
      && |taken| == |c.snapshot|
      && FilesAre(c.content, taken, mapped) && LinesAre(c.content, taken, mapped)
      && TakenInTurn(world, sights, sealedAt, ats, taken, c.snapshot, mapped)
      && world.seal(sealedAt).Sealed? && SealedAt(sealedAt, Verified(mapped, c.snapshot))
    }

    lemma ObligingIsReadable(t: nat, v: Verified)
      requires Obliging(world) && world.seal(t).Sealed? && SealedAt(t, v)
      ensures AlwaysReadable(v.snapshot, v.mapped)
    {
      var order := world.seal(t).order;
      forall u: nat, e | e in v.snapshot
        ensures world.data(u, e.name).Some? && AllMapped(world.data(u, e.name).value, v.mapped)
      {
        var i :| 0 <= i < |v.snapshot| && v.snapshot[i] == e;
        assert order[i] == e.name && e.name in order;
      }
    }

    /** Up to three attempts. Success leaves exactly the sealed fragments and
        the destination; giving up after changes leaves no link of ours. What is
        published was sealed and read after the last attempt began, and it turned
        to the publication at `published`. */
    method CombineFragments()
      returns (r: Progress<Combined>, ghost mapped: map<string, string>, ghost taken: seq<Lines>,
               ghost began: nat, ghost sealedAt: nat, ghost ats: seq<nat>, ghost published: Option<nat>)
      requires Cooperative(world) && SealsHonestly(world) && Logged()
      requires removed == [] && forall k: nat :: !OwnAt(dir, k)
      modifies `dir, `tick, `sights, `removed
      ensures RemovedOwn() && !r.Changed? && Logged() && old(sights) <= sights
      ensures r.Done? ==>
        PublishedExactly(dir, r.value) && old(tick) <= began < sealedAt && MergedFrom(r.value, mapped, taken, sealedAt, ats)
      ensures r == Failed(ChangedEveryTime) ==> forall k: nat :: !OwnAt(dir, k)
      ensures r.Failed? && (exists k: nat :: OwnAt(dir, k)) ==> r.error in {RecheckBroken, DestinationReplaced, RollbackFailed}
      ensures r.Failed? && Inert(world) ==> ((exists k: nat :: OwnAt(dir, k)) <==> r.error in {RecheckBroken, RollbackFailed})
      ensures published.Some? ==> began < sealedAt < published.value && world.seal(sealedAt).Sealed?
      ensures Inert(world) ==>
        (r.Failed? && (exists k: nat :: OwnAt(dir, k)) <==>
          published.Some? && LinkIsLeft(world, old(dir), world.seal(sealedAt).snapshot, published.value))
      ensures Smooth(world) && r.Failed? && (exists k: nat :: OwnAt(dir, k)) ==> |old(dir)| == MAX_FRAGMENT_FILES
      ensures Smooth(world) && |old(dir)| == MAX_FRAGMENT_FILES ==> !r.Done?
      ensures Obliging(world) && |old(dir)| <= MAX_FRAGMENT_FILES && (forall t: nat :: world.seal(t) == world.seal(0)) ==>
        (r.Done? <==> Combinable(world, old(dir), world.seal(0)))
    {
      hide MergedFrom, Combinable, LinkIsLeft;
      mapped, taken, began, sealedAt, ats, published := map[], [], tick, tick, [], None;
      for k := 0 to MAX_COMBINE_ATTEMPTS
        invariant RemovedOwn() && forall j: nat :: !OwnAt(dir, j)
        invariant Logged() && old(sights) <= sights
        invariant Inert(world) ==> dir == old(dir)
        invariant Obliging(world) && |old(dir)| <= MAX_FRAGMENT_FILES && (forall t: nat :: world.seal(t) == world.seal(0)) ==>
          k == 0 || !Combinable(world, old(dir), world.seal(0))
      {
        began := tick;
        r, mapped, taken, sealedAt, ats, published := CombineAttempt(k);
        if !r.Changed? {
          return;
        }
      }
      r, published := Failed(ChangedEveryTime), None;
    }
  }

  lemma NothingTaken(world: World, sights: seq<Dir>, after: nat, s: Snapshot, mapped: map<string, string>)
    ensures FilesAre(map[], [], mapped) && LinesAre(map[], [], mapped)
    ensures TakenInTurn(world, sights, after, [], [], s, mapped)
  {
  }

  /** What was read in a merge was read after the seal that preceded it. */
  lemma TakenLater(world: World, sights: seq<Dir>, more: seq<Dir>, after: nat, sealedAt: nat, ats: seq<nat>, taken: seq<Lines>,
                   s: Snapshot, mapped: map<string, string>)
    requires sights <= more && sealedAt <= after && TakenInTurn(world, sights, after, ats, taken, s, mapped)
    ensures TakenInTurn(world, more, sealedAt, ats, taken, s, mapped)
  {
    TakenStays(world, sights, more, after, ats, taken, s, mapped);
  }

  lemma MappedPaths(world: World, mapped: map<string, string>, paths: seq<string>)
    requires MapsAll(world, mapped, paths)
    ensures Trusted(world, paths) && PathSet(paths) == mapped.Keys
  {
  }

  lemma CleanIsBounded(s: Snapshot)
    requires Judge(s) == Clean
    ensures |s| <= MAX_FRAGMENT_FILES
  {
    VerdictMeaning(s);
  }

  lemma InIdentities(dir: Dir, name: Name)
    ensures name in dir <==> name in Identities(dir)
  {
  }

  lemma FullIsNotCombinable(world: World, dir: Dir, seal: Q.Outcome<seq<string>>)
    requires seal.Sealed? ==> SealKept(seal)
    ensures |dir| >= MAX_FRAGMENT_FILES ==> !Combinable(world, dir, seal)
  {
  }

  lemma Extended(base: seq<string>, paths: seq<string>, j: nat)
    requires j < |paths|
    ensures base + paths[..j] + [paths[j]] == base + paths[..j + 1]
  {
  }

  lemma FragmentDone(done: seq<string>, paths: seq<string>, rest: seq<string>)
    ensures done + (paths + rest) == done + paths + rest
    ensures forall p | p in paths :: p in done + (paths + rest)
  {
    forall i | 0 <= i < |paths| ensures (done + (paths + rest))[|done| + i] == paths[i] {
    }
  }

  lemma NoPaths(world: World)
    ensures MapsAll(world, map[], []) && CategoriesOf(world, {}, [])
  {
  }

  lemma SeenAgain(world: World, mapped: map<string, string>, categories: set<Category>, done: seq<string>, p: string)
    requires MapsAll(world, mapped, done) && CategoriesOf(world, categories, done) && p in mapped
    ensures MapsAll(world, mapped, done + [p]) && CategoriesOf(world, categories, done + [p])
  {
    assert p in done;
    assert forall q :: q in done + [p] <==> q in done;
  }

  lemma SeenFirst(world: World, mapped: map<string, string>, categories: set<Category>, done: seq<string>, p: string)
    requires MapsAll(world, mapped, done) && CategoriesOf(world, categories, done) && world.source(p).Some?
    ensures MapsAll(world, mapped[p := world.source(p).value.1], done + [p])
    ensures CategoriesOf(world, categories + {world.source(p).value.0}, done + [p])
  {
    assert forall q :: q in done + [p] <==> q in done || q == p;
  }

  lemma LinkedSize(dir: Dir, name: Name, file: File)
    requires name !in dir
    ensures |dir[name := file]| == |dir| + 1
  {
    assert dir[name := file].Keys == dir.Keys + {name};
  }

  lemma LinkedIdentities(dir: Dir, name: Name, file: File)
    ensures Identities(dir[name := file]) == Identities(dir)[name := file.identity]
  {
    var linked := dir[name := file];
    forall n ensures n in Identities(linked) <==> n in Identities(dir)[name := file.identity] {
    }
  }

  lemma IdentitiesSize(dir: Dir)
    ensures |Identities(dir)| == |dir|
  {
    assert Identities(dir).Keys == dir.Keys;
  }

  // ----- a full set -----

  function ManyName(i: nat): Name
    requires i < 0x10000
  {
    PREFIX + [i / 256, i % 256]
  }

  /** The first n of many one-byte fragments. */
  function Many(n: nat): Snapshot
    requires n <= 0x10000
  {
    seq(n, i requires 0 <= i < n => Entry(ManyName(i), Identity(S_IFREG, i, 1, 0)))
  }

  lemma {:induction false} BeforeBehind(front: Name, a: Name, b: Name)
    requires Before(a, b)
    ensures Before(front + a, front + b)
  {
    if front == [] {
      assert front + a == a && front + b == b;
    } else {
      BeforeBehind(front[1..], a, b);
      assert (front + a)[1..] == front[1..] + a && (front + b)[1..] == front[1..] + b;
    }
  }

  lemma NumberedBefore(i: nat, j: nat)
    requires i < j < 0x10000
    ensures Before([i / 256, i % 256], [j / 256, j % 256])
  {
    var a: Name, b: Name := [i / 256, i % 256], [j / 256, j % 256];
    if a[0] == b[0] {
      var c: Name, d: Name := [a[1]], [b[1]];
      assert a[1..] == c && b[1..] == d && c[0] < d[0];
    }
  }

  lemma {:induction false} OneByteEach(s: Snapshot)
    requires forall e | e in s :: e.identity.size == 1
    ensures TotalBytes(s) == |s|
  {
    if s != [] {
      assert s[0] in s;
      OneByteEach(s[1..]);
    }
  }

  lemma NumberedIsReadable(e: Entry, number: Name)
    requires |number| == 2 && e.name == PREFIX + number
    requires e.identity.fileType == S_IFREG && e.identity.size == 1
    ensures Readable(e)
  {
    assert |PREFIX| == 10 && |DESTINATION| == 9;
    assert e.name[4] == 'e' as int && e.name[8] == 'e' as int;
    forall k | 0 <= k < |SIDECARS| ensures !EndsWith(e.name, SIDECARS[k]) {
      assert SIDECARS[k][0] == '-' as int && |SIDECARS[k]| in {4, 8};
      assert e.name[|e.name| - |SIDECARS[k]|..][0] == 'e' as int;
    }
  }

  lemma ManyAreClean(n: nat)
    requires 0 < n <= MAX_FRAGMENT_FILES
    ensures Judge(Many(n)) == Clean && Sorted(Many(n))
  {
    hide Judge, Readable, PREFIX, DESTINATION;
    var s := Many(n);
    forall e | e in s ensures Readable(e) && e.identity.size == 1 {
      var i :| 0 <= i < n && s[i] == e;
      NumberedIsReadable(e, [i / 256, i % 256]);
    }
    OneByteEach(s);
    VerdictMeaning(s);
    forall i, j | 0 <= i < j < n ensures Before(s[i].name, s[j].name) {
      NumberedBefore(i, j);
      BeforeBehind(PREFIX, [i / 256, i % 256], [j / 256, j % 256]);
    }
  }

  /** With 8192 clean fragments, nobody interfering and no step going wrong, the
      publication fails and its link stays. */
  method FullSetLeavesItsLink() returns (s: Snapshot, c: Combiner, r: Progress<()>)
    ensures |s| == MAX_FRAGMENT_FILES && Judge(s) == Clean && Sorted(s)
    ensures Smooth(c.world) && r == Failed(RecheckBroken) && OwnAt(c.dir, 0)
  {
    hide Judge, AsMap, Sorted, DESTINATION, Many;
    ManyAreClean(MAX_FRAGMENT_FILES);
    s := Many(MAX_FRAGMENT_FILES);
    ManyCount(MAX_FRAGMENT_FILES);
    var identities := AsMap(s);
    SealedNamesAreNotTheDestination(s);
    AsMapSize(s);
    var dir: Dir := map name | name in identities :: File(identities[name], Other);
    assert Identities(dir) == identities;
    var world := World(
      (t, d) => d, t => Completes, t => Q.Refused(Q.BadAttempts), p => None,
      (t, name) => None, t => None, t => false, t => false);
    c := new Combiner(world, dir);
    r := c.Publish(0, identities, Identity(S_IFREG, 0, 1, 0));
    assert !OwnAt(dir, 0);
  }

  lemma ManyCount(n: nat)
    requires n <= 0x10000
    ensures |Many(n)| == n
  {
  }
}
