/** Installing the coverage bootstrap: two exclusive creates that are rolled back
    when anything fails, and an honest report of whatever could not be. Every
    system call may fault; nobody else touches the files meanwhile. */
module BootstrapInstall {
  import opened Wrappers

  type byte = x: int | 0 <= x < 256

  type Bytes = seq<byte>

  type Path = string

  const MAX_RECEIPT_BYTES: nat := 32768

  /** What lstat tells about a regular file. */
  datatype Identity = Identity(inode: nat, size: nat, stamp: nat)

  datatype File = File(identity: Identity, content: Bytes)

  type Files = map<Path, File>

  /** A call works, or fails before it has any effect, or takes effect and then
      fails (an interrupt that arrives on the way back). */
  datatype Fault = Fine | Fails | FailsLate

  /** What befalls each call; and how many bytes a write call takes. */
  datatype Schedule = Schedule(fault: nat -> Fault, taken: nat -> nat)

  /** The fields that stay the same while a created file is written. */
  predicate SameCreated(a: Identity, b: Identity) {
    a.inode == b.inode
  }

  datatype Record = Record(target: Path, identity: Identity, content: Bytes)

  /** What is to be installed: the two paths, the bootstrap's bytes, and the
      canonical receipt of a record, which can be read back. */
  datatype Job = Job(target: Path, receipt: Path, content: Bytes, encode: Record -> Bytes, decode: Bytes -> Option<Record>)

  ghost predicate ReceiptsReadBack(job: Job) {
    forall r: Record :: job.decode(job.encode(r)) == Some(r)
  }

  datatype Created = Created(done: bool, registered: bool, identity: Option<Identity>)

  datatype Installation = Installed(record: Record) | NotInstalled(named: seq<Path>)

  /** All that was there is still there, unchanged. */
  predicate Untouched(before: Files, after: Files) {
    forall p | p in before :: p in after && after[p] == before[p]
  }

  /** What a run left behind. */
  function Residue(before: Files, after: Files): set<Path> {
    after.Keys - before.Keys
  }

  /** The receipt is there and describes the target as it is. */
  predicate Described(files: Files, job: Job) {
    && job.receipt in files && job.target in files && files[job.target].content == job.content
    && |files[job.receipt].content| <= MAX_RECEIPT_BYTES
    && job.decode(files[job.receipt].content) == Some(Record(job.target, files[job.target].identity, job.content))
  }

  // ----- what a schedule lets happen -----

  /** The tick at which the bytes that remain are written; None when a write fails
      or takes nothing. */
  function AfterWrites(s: Schedule, tick: nat, remaining: nat): Option<nat>
    decreases remaining
  {
    if remaining == 0 then Some(tick)
    else if !s.fault(tick).Fine? || s.taken(tick) == 0 then None
    else AfterWrites(s, tick + 1, if s.taken(tick) > remaining then 0 else remaining - s.taken(tick))
  }

  /** The tick at which a file just created has been filled and looked at: two
      calls before the writes and four after them. */
  function AfterFill(s: Schedule, tick: nat, size: nat): Option<nat> {
    if !s.fault(tick).Fine? || !s.fault(tick + 1).Fine? then None
    else
      match AfterWrites(s, tick + 2, size)
      case None => None
      case Some(t) =>
        if s.fault(t).Fine? && s.fault(t + 1).Fine? && s.fault(t + 2).Fine? && s.fault(t + 3).Fine? then Some(t + 4) else None
  }

  /** No faults, and every write takes something. */
  ghost predicate Quiet(s: Schedule) {
    forall t: nat :: s.fault(t).Fine? && s.taken(t) > 0
  }

  lemma {:induction false} QuietWrites(s: Schedule, tick: nat, remaining: nat)
    requires Quiet(s)
    ensures AfterWrites(s, tick, remaining).Some?
    decreases remaining
  {
    if remaining > 0 {
      QuietWrites(s, tick + 1, if s.taken(tick) > remaining then 0 else remaining - s.taken(tick));
    }
  }

  lemma QuietFills(s: Schedule, tick: nat, size: nat)
    requires Quiet(s)
    ensures AfterFill(s, tick, size).Some?
  {
    QuietWrites(s, tick + 2, size);
  }

  /** The identity that a file created at this tick has when it is filled: its last
      change is the last write, or the mode when there is nothing to write. */
  function FilledIdentity(s: Schedule, inode: nat, tick: nat, size: nat): Identity {
    match AfterWrites(s, tick + 3, size)
    case None => Identity(inode, 0, 0)
    case Some(t) => Identity(inode, size, t)
  }

  /** That of the target of an installation that begins at this tick. */
  function TargetIdentity(s: Schedule, job: Job, tick: nat, inode: nat): Identity {
    FilledIdentity(s, inode, tick + 1, |job.content|)
  }

  /** The receipt's bytes for a target of this identity. */
  function ReceiptOf(job: Job, made: Identity): Bytes {
    job.encode(Record(job.target, made, job.content))
  }

  /** The tick of the receipt's create: reached when neither path was taken, the
      target was created and filled, and the receipt is within its bound. */
  function ReceiptCreate(s: Schedule, files: Files, job: Job, tick: nat, inode: nat): Option<nat> {
    if job.target in files || job.receipt in files || !s.fault(tick).Fine? || !s.fault(tick + 1).Fine? then None
    else if |ReceiptOf(job, TargetIdentity(s, job, tick, inode))| > MAX_RECEIPT_BYTES then None
    else AfterFill(s, tick + 2, |job.content|)
  }

  /** From there the receipt is created and filled too. */
  predicate FillsReceipt(s: Schedule, job: Job, at: nat, made: Identity) {
    job.target != job.receipt && s.fault(at).Fine? && AfterFill(s, at + 1, |ReceiptOf(job, made)|).Some?
  }

  /** What a schedule makes of an installation whose target gets this inode. */
  predicate Succeeds(s: Schedule, files: Files, job: Job, tick: nat, inode: nat) {
    var at := ReceiptCreate(s, files, job, tick, inode);
    at.Some? && FillsReceipt(s, job, at.value, TargetIdentity(s, job, tick, inode))
  }

  /** The target's create takes effect and fails before its path is registered. */
  predicate LateTarget(s: Schedule, files: Files, job: Job, tick: nat) {
    && s.fault(tick).Fine? && s.fault(tick + 1).FailsLate?
    && job.target !in files && job.receipt !in files
  }

  /** The receipt's create does. */
  predicate LateReceipt(s: Schedule, files: Files, job: Job, tick: nat, inode: nat) {
    var at := ReceiptCreate(s, files, job, tick, inode);
    at.Some? && job.target != job.receipt && s.fault(at.value).FailsLate?
  }

  lemma QuietSucceeds(s: Schedule, files: Files, job: Job, tick: nat, inode: nat)
    requires Quiet(s) && |ReceiptOf(job, TargetIdentity(s, job, tick, inode))| <= MAX_RECEIPT_BYTES
    ensures Succeeds(s, files, job, tick, inode) <==> job.target !in files && job.receipt !in files && job.target != job.receipt
  {
    hide AfterFill, TargetIdentity;
    QuietFills(s, tick + 2, |job.content|);
    var at := AfterFill(s, tick + 2, |job.content|).value;
    QuietFills(s, at + 1, |ReceiptOf(job, TargetIdentity(s, job, tick, inode))|);
  }

  lemma TargetsDiffer(s: Schedule, files: Files, job: Job, tick: nat, inode: nat)
    ensures Succeeds(s, files, job, tick, inode) ==> job.target != job.receipt
  {
  }

  class Machine {
    const schedule: Schedule
    var files: Files
    var nextInode: nat
    var tick: nat

    constructor (schedule: Schedule, files: Files, nextInode: nat)
      requires forall p | p in files :: files[p].identity.inode < nextInode
      ensures this.schedule == schedule && this.files == files && tick == 0 && Valid()
    {
      this.schedule, this.files, this.nextInode, tick := schedule, files, nextInode, 0;
    }

    ghost predicate Valid()
      reads this
    {
      forall p | p in files :: files[p].identity.inode < nextInode
    }

    /** One system call without effect on the files. */
    method Call() returns (ok: bool)
      modifies `tick
      ensures ok == schedule.fault(old(tick)).Fine? && tick == old(tick) + 1
    {
      ok := schedule.fault(tick).Fine?;
      tick := tick + 1;
    }

    // ----- an exclusive create with its writes -----

    /** `_create_write`. The callback registers the path right after the create
        and its identity right after the first fstat; `late` is the gap between
        the create and the callback. */
    method CreateWrite(path: Path, payload: Bytes) returns (c: Created, ghost late: bool)
      requires Valid()
      modifies this
      ensures Valid() && Untouched(old(files), files) && files.Keys <= old(files).Keys + {path}
      ensures late <==> path !in old(files) && schedule.fault(old(tick)).FailsLate?
      ensures path in files && path !in old(files) <==> c.registered || late
      ensures c.registered ==> path in files && path !in old(files) && !late
      ensures c.registered && c.identity.Some? ==> SameCreated(c.identity.value, files[path].identity)
      ensures c.done ==> c.registered && files[path].content == payload && c.identity == Some(files[path].identity)
      ensures c.done <==>
        path !in old(files) && schedule.fault(old(tick)).Fine? && AfterFill(schedule, old(tick) + 1, |payload|).Some?
      ensures c.done ==> Some(tick) == AfterFill(schedule, old(tick) + 1, |payload|)
      ensures c.done ==> c.identity == Some(FilledIdentity(schedule, old(nextInode), old(tick), |payload|))
    {
      c := Created(false, false, None);
      late := path !in files && schedule.fault(tick).FailsLate?;
      var fault := schedule.fault(tick);
      tick := tick + 1;
      if fault.Fails? || path in files {
        return;
      }
      files := files[path := File(Identity(nextInode, 0, tick), [])];
      nextInode := nextInode + 1;
      if fault.FailsLate? {
        return;
      }
      c := Fill(path, payload);
    }

    /** What follows the registration: identity, mode, content, sync, close, and
        a last look at what is there. */
    method Fill(path: Path, payload: Bytes) returns (c: Created)
      requires Valid() && path in files && files[path].content == [] && files[path].identity.size == 0 && tick > 0
      modifies this
      ensures Valid() && files.Keys == old(files).Keys
      ensures forall p | p in old(files) && p != path :: files[p] == old(files)[p]
      ensures c.registered && files[path].identity.inode == old(files)[path].identity.inode
      ensures c.identity.Some? ==> SameCreated(c.identity.value, files[path].identity)
      ensures c.done ==> files[path].content == payload && c.identity == Some(files[path].identity)
      ensures c.done <==> AfterFill(schedule, old(tick), |payload|).Some?
      ensures c.done ==> Some(tick) == AfterFill(schedule, old(tick), |payload|)
      ensures c.done ==>
        c.identity == Some(FilledIdentity(schedule, old(files)[path].identity.inode, old(tick) - 1, |payload|))
    {
      c := Created(false, true, None);
      var ok := Call();
      if !ok {
        return;
      }
      c := c.(identity := Some(files[path].identity));
      ok := Chmod(path);
      if !ok {
        return;
      }
      ok := WriteAll(path, payload);
      if !ok {
        return;
      }
      var settled;
      settled, ok := Settle(path, payload);
      if settled.Some? {
        c := c.(identity := settled);
      }
      c := c.(done := ok);
    }

    /** Sync, identity, close, and a last look at what is there. */
    method Settle(path: Path, payload: Bytes) returns (identity: Option<Identity>, ok: bool)
      requires Valid() && path in files && files[path].content == payload
      modifies `tick
      ensures Valid()
      ensures identity.Some? ==> identity.value == files[path].identity
      ensures ok <==>
        && schedule.fault(old(tick)).Fine? && schedule.fault(old(tick) + 1).Fine?
        && schedule.fault(old(tick) + 2).Fine? && schedule.fault(old(tick) + 3).Fine?
      ensures ok ==> identity.Some? && tick == old(tick) + 4
    {
      identity := None;
      ok := Call();
      if !ok {
        return;
      }
      ok := Call();
      if !ok {
        return;
      }
      identity := Some(files[path].identity);
      ok := Call();
      if !ok {
        return;
      }
      ok := Call();
      ok := ok && files[path].identity == identity.value && files[path].content == payload;
    }

    /** The loop of partial writes. */
    method WriteAll(path: Path, payload: Bytes) returns (ok: bool)
      requires Valid() && path in files && files[path].content == []
      requires files[path].identity.size == 0 && files[path].identity.stamp == tick
      modifies this
      ensures Valid() && files.Keys == old(files).Keys
      ensures forall p | p in old(files) && p != path :: files[p] == old(files)[p]
      ensures files[path].identity.inode == old(files)[path].identity.inode
      ensures ok <==> AfterWrites(schedule, old(tick), |payload|).Some?
      ensures ok ==> files[path].content == payload && Some(tick) == AfterWrites(schedule, old(tick), |payload|)
      ensures ok ==> files[path].identity == Identity(old(files)[path].identity.inode, |payload|, tick)
    {
      var offset := 0;
      while offset < |payload|
        invariant 0 <= offset <= |payload|
        invariant Valid() && files.Keys == old(files).Keys
        invariant forall p | p in old(files) && p != path :: files[p] == old(files)[p]
        invariant files[path].identity == Identity(old(files)[path].identity.inode, offset, tick)
        invariant files[path].content == payload[..offset]
        invariant AfterWrites(schedule, old(tick), |payload|) == AfterWrites(schedule, tick, |payload| - offset)
      {
        var fault, taken := schedule.fault(tick), schedule.taken(tick);
        tick := tick + 1;
        if !fault.Fine? || taken == 0 {
          return false;
        }
        var next := if offset + taken > |payload| then |payload| else offset + taken;
        var written := files[path].content + payload[offset..next];
        assert written == payload[..next];
        files := files[path := File(files[path].identity.(size := |written|, stamp := tick), written)];
        offset := next;
      }
      assert payload[..offset] == payload;
      return true;
    }

    method Chmod(path: Path) returns (ok: bool)
      requires Valid() && path in files
      modifies this
      ensures Valid() && path in files && files == old(files)[path := File(files[path].identity, old(files)[path].content)]
      ensures files[path].identity.inode == old(files)[path].identity.inode
      ensures ok == schedule.fault(old(tick)).Fine? && tick == old(tick) + 1
      ensures files[path].identity.size == old(files)[path].identity.size && (ok ==> files[path].identity.stamp == tick)
    {
      ok := schedule.fault(tick).Fine?;
      tick := tick + 1;
      if ok {
        files := files[path := files[path].(identity := files[path].identity.(stamp := tick))];
      } else {
        assert files[path := files[path]] == files;
      }
    }

    // ----- rollback -----

    /** `_rollback`: takes back a path this run created, or names it. */
    method Rollback(path: Path, registered: bool, identity: Option<Identity>) returns (named: seq<Path>)
      requires Valid()
      modifies this
      ensures Valid()
      ensures files == old(files) || (path in old(files) && files == old(files) - {path})
      ensures files != old(files) ==> registered && identity.Some? && SameCreated(old(files)[path].identity, identity.value)
      ensures registered && path in files ==> path in named
      ensures named == [] || named == [path]
      ensures !registered ==> named == []
    {
      if !registered {
        return [];
      }
      if identity.None? {
        return [path];
      }
      var ok := Call();
      if !ok || path !in files || !SameCreated(files[path].identity, identity.value) {
        return [path];
      }
      var fault := schedule.fault(tick);
      tick := tick + 1;
      if fault.Fails? {
        return [path];
      }
      files := files - {path};
      return if fault.FailsLate? then [path] else [];
    }

    // ----- the installation -----

    /** `install`. It ends with both files exact, or with neither of them, or it
        names all that it left - unless a create took effect and failed before
        its path was registered, and then exactly that path goes unnamed. */
    method Install(job: Job) returns (o: Installation)
      requires Valid()
      modifies this
      ensures Valid() && Untouched(old(files), files)
      ensures Residue(old(files), files) <= {job.target, job.receipt}
      ensures o.Installed? <==> Succeeds(schedule, old(files), job, old(tick), old(nextInode))
      ensures o.Installed? ==>
        && job.target in Residue(old(files), files) && job.receipt in Residue(old(files), files)
        && o.record == Record(job.target, TargetIdentity(schedule, job, old(tick), old(nextInode)), job.content)
        && files[job.target] == File(o.record.identity, job.content)
        && files[job.receipt].content == job.encode(o.record)
      ensures o.NotInstalled? ==>
        forall p :: p in Residue(old(files), files) && p !in o.named <==>
          || (p == job.target && LateTarget(schedule, old(files), job, old(tick)))
          || (p == job.receipt && LateReceipt(schedule, old(files), job, old(tick), old(nextInode)))
      ensures o.NotInstalled? ==> forall p | p in o.named :: p == job.target || p == job.receipt
      ensures LateTarget(schedule, old(files), job, old(tick)) ==> o == NotInstalled([])
    {
      hide AfterFill, SameCreated, FilledIdentity;
      var ok := Call();
      if !ok {
        return NotInstalled([]);
      }
      if job.target in files || job.receipt in files {
        return NotInstalled([]);
      }
      ghost var late;
      var target;
      target, late := CreateWrite(job.target, job.content);
      if !target.done {
        var named := Rollback(job.target, target.registered, target.identity);
        return NotInstalled(named);
      }
      var record := Record(job.target, target.identity.value, job.content);
      var bytes := job.encode(record);
      if |bytes| > MAX_RECEIPT_BYTES {
        var named := Rollback(job.target, true, target.identity);
        return NotInstalled(named);
      }
      var receipt;
      receipt, late := CreateWrite(job.receipt, bytes);
      if !receipt.done {
        var named := RollbackBoth(job, receipt, target.identity);
        return NotInstalled(named);
      }
      return Installed(record);
    }

    /** The receipt is taken back before the target. */
    method RollbackBoth(job: Job, receipt: Created, target: Option<Identity>) returns (named: seq<Path>)
      requires Valid()
      modifies this
      ensures Valid()
      ensures forall p | p in files :: p in old(files) && files[p] == old(files)[p]
      ensures forall p | p in old(files) && p !in files ::
        || (p == job.receipt && receipt.registered && receipt.identity.Some? && SameCreated(old(files)[p].identity, receipt.identity.value))
        || (p == job.target && target.Some? && SameCreated(old(files)[p].identity, target.value))
      ensures receipt.registered && job.receipt in files ==> job.receipt in named
      ensures job.target in files ==> job.target in named
      ensures forall p | p in named :: p == job.target || (p == job.receipt && receipt.registered)
    {
      var first := Rollback(job.receipt, receipt.registered, receipt.identity);
      var second := Rollback(job.target, true, target);
      named := first + second;
    }

    /** The command line. When the record cannot be printed it takes the target
        back, and names the target if it cannot; the receipt stays, unnamed. So
        a failing command names all it left if and only if the schedule lets
        neither the installation succeed nor a create be interrupted on the way
        back. */
    method MainInstall(job: Job, printed: bool) returns (code: nat, o: Installation, named: seq<Path>)
      requires Valid()
      modifies this
      ensures Valid() && Untouched(old(files), files)
      ensures code == if Succeeds(schedule, old(files), job, old(tick), old(nextInode)) && printed then 0 else 2
      ensures code == 0 ==>
        && o.Installed? && o.record.identity == TargetIdentity(schedule, job, old(tick), old(nextInode))
        && job.target in files && files[job.target] == File(o.record.identity, job.content)
        && job.receipt in files && files[job.receipt].content == ReceiptOf(job, o.record.identity)
      ensures code == 2 ==>
        ((forall p :: p in Residue(old(files), files) ==> p in named) <==>
         && !Succeeds(schedule, old(files), job, old(tick), old(nextInode))
         && !LateTarget(schedule, old(files), job, old(tick))
         && !LateReceipt(schedule, old(files), job, old(tick), old(nextInode)))
      ensures Succeeds(schedule, old(files), job, old(tick), old(nextInode)) && !printed ==>
        job.receipt in Residue(old(files), files) && job.receipt !in named
    {
      hide TargetIdentity, Succeeds, LateTarget, LateReceipt;
      o := Install(job);
      if o.NotInstalled? {
        assert LateTarget(schedule, old(files), job, old(tick)) ==> job.target in Residue(old(files), files) && job.target !in o.named;
        assert LateReceipt(schedule, old(files), job, old(tick), old(nextInode)) ==>
          job.receipt in Residue(old(files), files) && job.receipt !in o.named;
        code, named := 2, o.named;
        return;
      }
      if !printed {
        TargetsDiffer(schedule, old(files), job, old(tick), old(nextInode));
        named := Rollback(job.target, true, Some(o.record.identity));
        assert job.receipt in Residue(old(files), files) && job.receipt !in named;
        code := 2;
        return;
      }
      code, named := 0, [];
    }

    // ----- removal -----

    /** `_delete_if_exact`: looks twice, and once more, before it unlinks. */
    method DeleteIfExact(path: Path, identity: Identity, content: Bytes) returns (done: bool)
      requires Valid()
      modifies this
      ensures Valid()
      ensures files == old(files) || files == old(files) - {path}
      ensures files != old(files) ==>
        path in old(files) && old(files)[path].identity == identity && old(files)[path].content == content
      ensures done ==> path in old(files) && files == old(files) - {path}
      ensures (forall t :: schedule.fault(t).Fine?) && path in old(files) && old(files)[path] == File(identity, content) ==> done
    {
      var ok;
      for i := 0 to 2
        invariant files == old(files) && Valid()
        invariant i > 0 ==> path in files && files[path] == File(identity, content)
      {
        ok := Call();
        if !ok || path !in files || files[path].identity != identity {
          return false;
        }
        ok := Call();
        if !ok || files[path].content != content {
          return false;
        }
      }
      ok := Call();
      if !ok || path !in files || files[path].identity != identity {
        return false;
      }
      var fault := schedule.fault(tick);
      tick := tick + 1;
      if fault.Fails? {
        return false;
      }
      files := files - {path};
      return fault.Fine?;
    }

    /** `remove`: reads the receipt and deletes the target it describes. */
    method Remove(job: Job) returns (done: bool)
      requires Valid()
      modifies this
      ensures Valid()
      ensures files == old(files) || files == old(files) - {job.target}
      ensures files != old(files) ==>
        && job.receipt in old(files) && job.decode(old(files)[job.receipt].content).Some?
        && var r := job.decode(old(files)[job.receipt].content).value;
        && r.target == job.target
        && old(files)[job.target] == File(r.identity, job.content)
      ensures done ==> job.target in old(files) && files == old(files) - {job.target}
      ensures (forall t :: schedule.fault(t).Fine?) && Described(old(files), job) ==> done
    {
      var ok := Call();
      if !ok || job.receipt !in files || |files[job.receipt].content| > MAX_RECEIPT_BYTES {
        return false;
      }
      var record := job.decode(files[job.receipt].content);
      if record.None? || record.value.target != job.target || record.value.content != job.content {
        return false;
      }
      done := DeleteIfExact(job.target, record.value.identity, job.content);
    }
  }

  /** Installing and removing without faults: when neither path was taken, what
      is left is exactly what was there and the receipt; otherwise nothing
      changes. */
  method InstallThenRemove(m: Machine, job: Job) returns (installed: bool, removed: bool)
    requires m.Valid() && ReceiptsReadBack(job)
    requires Quiet(m.schedule) && forall r :: |job.encode(r)| <= MAX_RECEIPT_BYTES
    modifies m
    ensures installed == removed
    ensures installed <==> job.target !in old(m.files) && job.receipt !in old(m.files) && job.target != job.receipt
    ensures Untouched(old(m.files), m.files)
    ensures installed ==> Residue(old(m.files), m.files) == {job.receipt}
  {
    var o := m.Install(job);
    QuietSucceeds(m.schedule, old(m.files), job, old(m.tick), old(m.nextInode));
    if o.NotInstalled? {
      return false, false;
    }
    installed := true;
    assert job.decode(job.encode(o.record)) == Some(o.record);
    ghost var before := m.files;
    assert job.target in before && job.receipt in before && job.target !in old(m.files) && job.receipt !in old(m.files);
    removed := m.Remove(job);
    assert job.receipt in Residue(old(m.files), m.files);
    forall p | p in Residue(old(m.files), m.files) ensures p == job.receipt {
      assert p in Residue(old(m.files), before);
    }
  }

  /** A create that takes effect and then fails: the file stays, and the failure
      names nothing. */
  method LateCreateGoesUnnamed() returns (files: Files, o: Installation)
    ensures o == NotInstalled([]) && files.Keys == {"site/aoi_coverage_bootstrap.pth"}
  {
    var job := Job("site/aoi_coverage_bootstrap.pth", "receipt.json", [1], r => [], b => None);
    var m := new Machine(Schedule(t => if t == 1 then FailsLate else Fine, t => 1), map[], 0);
    o := m.Install(job);
    files := m.files;
    assert job.target in Residue(map[], files);
    forall p | p in files.Keys ensures p == job.target {
      assert p in Residue(map[], files);
    }
  }
}
