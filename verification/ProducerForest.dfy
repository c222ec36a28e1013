/** Coverage producers: processes that start afresh or by fork, each taking an
    identity of its own in one write-once directory before it may measure. Their
    system calls interleave in any order. */
module ProducerForest {
  import opened Wrappers

  type Id = string

  type Pid = nat

  type Temp = string

  type byte = x: int | 0 <= x < 256

  type Bytes = seq<byte>

  // ----- what is shared, and what each process has -----

  /** A process receipt. */
  datatype Record = Record(id: Id, parent: Option<Id>, fork: bool, family: Option<string>)

  /** The canonical bytes of a receipt, and how they are read back. */
  datatype Codec = Codec(encode: Record -> Bytes, decode: Bytes -> Option<Record>)

  ghost predicate ReadsBack(codec: Codec) {
    forall r: Record :: codec.decode(codec.encode(r)) == Some(r)
  }

  /** A coverage data file: the shared base, one producer's own, or another. */
  datatype DataFile = Base | Own(id: Id) | Elsewhere

  /** The selectors of one process's environment. */
  datatype Env = Env(
    config: bool, metadata: bool, vendor: bool,
    producer: Option<Id>, file: Option<DataFile>, family: Option<string>)

  const NO_SELECTORS: Env := Env(false, false, false, None, None, None)

  datatype Collector = Off | Running(file: DataFile)

  datatype Phase =
    | Begun(fork: bool)
    | Checked(fork: bool)
    | Writing(record: Record, temp: Temp, written: nat)
    | Linked(id: Id, temp: Temp)
    | Bound(id: Id)
    | Measuring(id: Id)
    | Exited(code: nat)

  datatype Process = Process(env: Env, collector: Collector, phase: Phase)

  /** `order` lists the published receipts as they appeared, `owner` says which
      process published each, `savers` which processes wrote to its data file. */
  datatype World = World(
    receipts: map<Id, Bytes>, temps: map<Temp, Bytes>, processes: map<Pid, Process>,
    order: seq<Id>, owner: map<Id, Pid>, savers: map<Id, set<Pid>>)

  const EMPTY: World := World(map[], map[], map[], [], map[], map[])

  // ----- the steps of one process -----

  /** One system call, or one piece of code that no other process can split. The
      flag says whether the call works. */
  datatype Event =
    | Spawn(pid: Pid, env: Env)
    | Fork(parent: Pid, pid: Pid, env: Env)
    | Check(pid: Pid, ok: bool)
    | Draw(pid: Pid, id: Id, temp: Temp, ok: bool)
    | Write(pid: Pid, count: nat)
    | Link(pid: Pid, ok: bool)
    | Bind(pid: Pid, ok: bool)
    | Start(pid: Pid, ok: bool)
    | Exit(pid: Pid, code: nat, flush: bool)
    | Kill(pid: Pid)

  function Put(w: World, pid: Pid, p: Process): World {
    w.(processes := w.processes[pid := p])
  }

  /** A failing start: the selectors are cleared and the process exits with 97,
      without saving anything. A temporary it was writing is removed; one whose
      removal is what failed stays. */
  function Fail(w: World, pid: Pid): World
    requires pid in w.processes
  {
    var p := w.processes[pid];
    var w1 := Put(w, pid, Process(NO_SELECTORS, p.collector, Exited(97)));
    match p.phase
    case Writing(_, temp, _) => w1.(temps := w.temps - {temp})
    case _ => w1
  }

  /** The receipt of a parent, read and checked. */
  predicate ValidParent(codec: Codec, w: World, parent: Id) {
    && parent in w.receipts
    && codec.decode(w.receipts[parent]).Some?
    && var r := codec.decode(w.receipts[parent]).value;
    r.id == parent && r.parent != Some(parent) && (r.fork ==> r.parent.Some?)
  }

  /** The checks before an identity is drawn; a fork child stops the collector
      it inherited first, a fresh process must find none. */
  predicate MayDraw(codec: Codec, w: World, p: Process, fork: bool) {
    && p.env.config && p.env.metadata && !p.env.vendor
    && (if fork then p.collector.Running? && p.env.producer.Some? else p.collector.Off?)
    && (p.env.producer.Some? ==> ValidParent(codec, w, p.env.producer.value))
    && (p.env.file.Some? ==> p.env.file.value == if p.env.producer.Some? then Own(p.env.producer.value) else Base)
  }

  /** The temporary a process has in hand. */
  function Holds(p: Process): Option<Temp> {
    match p.phase
    case Writing(_, temp, _) => Some(temp)
    case Linked(_, temp) => Some(temp)
    case _ => None
  }

  /** One event. A temporary name that is taken makes its second user fail, and
      removes the file of the first, whose descriptor still works. A name that is
      held although its file is gone is not drawn again. */
  function Step(codec: Codec, w: World, e: Event): World {
    match e
    case Spawn(pid, env) =>
      if pid in w.processes then w else Put(w, pid, Process(env, Off, Begun(false)))
    case Fork(parent, pid, env) =>
      if pid in w.processes || parent !in w.processes || !w.processes[parent].phase.Measuring? then w
      else Put(w, pid, Process(env, w.processes[parent].collector, Begun(true)))
    case Check(pid, ok) =>
      if pid !in w.processes || !w.processes[pid].phase.Begun? then w
      else
        var p := w.processes[pid];
        if !ok || !MayDraw(codec, w, p, p.phase.fork) then Fail(w, pid)
        else Put(w, pid, Process(p.env, Off, Checked(p.phase.fork)))
    case Draw(pid, id, temp, ok) =>
      if pid !in w.processes || !w.processes[pid].phase.Checked? then w
      else
        var p := w.processes[pid];
        if !ok then Fail(w, pid)
        else if temp in w.temps then Fail(w, pid).(temps := w.temps - {temp})
        else if exists q | q in w.processes :: Holds(w.processes[q]) == Some(temp) then w
        else Put(w, pid, p.(phase := Writing(Record(id, p.env.producer, p.phase.fork, p.env.family), temp, 0)))
             .(temps := w.temps[temp := []])
    case Write(pid, count) =>
      if pid !in w.processes || !w.processes[pid].phase.Writing? then w
      else
        var p := w.processes[pid];
        var payload := codec.encode(p.phase.record);
        if count == 0 || p.phase.written > |payload| then Fail(w, pid)
        else
          var next := if p.phase.written + count > |payload| then |payload| else p.phase.written + count;
          Put(w, pid, p.(phase := Writing(p.phase.record, p.phase.temp, next))).(
                 temps := if p.phase.temp in w.temps then w.temps[p.phase.temp := payload[..next]] else w.temps)
    case Link(pid, ok) =>
      if pid !in w.processes || !w.processes[pid].phase.Writing? then w
      else
        var p := w.processes[pid];
        var id := p.phase.record.id;
        if p.phase.written < |codec.encode(p.phase.record)| then w
        else if !ok || id in w.receipts || p.phase.temp !in w.temps then Fail(w, pid)
        else Put(w, pid, p.(phase := Linked(id, p.phase.temp))).(
               receipts := w.receipts[id := w.temps[p.phase.temp]],
               order := w.order + [id], owner := w.owner[id := pid])
    case Bind(pid, ok) =>
      if pid !in w.processes || !w.processes[pid].phase.Linked? then w
      else
        var p := w.processes[pid];
        if !ok then Fail(w, pid)
        else Put(w, pid, p.(phase := Bound(p.phase.id), env := p.env.(file := Some(Own(p.phase.id)), producer := Some(p.phase.id))))
          .(temps := w.temps - {p.phase.temp})
    case Start(pid, ok) =>
      if pid !in w.processes || !w.processes[pid].phase.Bound? then w
      else
        var p := w.processes[pid];
        if !ok || !p.env.config || p.env.vendor || p.env.file.None? then Fail(w, pid)
        else Put(w, pid, p.(phase := Measuring(p.phase.id), collector := Running(p.env.file.value)))
    case Exit(pid, code, flush) =>
      if pid !in w.processes || !w.processes[pid].phase.Measuring? then w
      else Saved(w, pid, if flush then code else 97, flush)
    case Kill(pid) =>
      if pid !in w.processes || w.processes[pid].phase.Exited? then w else Put(w, pid, w.processes[pid].(phase := Exited(137)))
  }

  /** The end of a measuring process: its collector saves to the file it runs on,
      unless that is what fails; the selectors are cleared either way. */
  function Saved(w: World, pid: Pid, code: nat, flush: bool): World
    requires pid in w.processes
  {
    var p := w.processes[pid];
    var w1 := Put(w, pid, Process(NO_SELECTORS, Off, Exited(code)));
    if flush && p.collector.Running? && p.collector.file.Own? then
      var id := p.collector.file.id;
      w1.(savers := w.savers[id := (if id in w.savers then w.savers[id] else {}) + {pid}])
    else w1
  }

  function Run(codec: Codec, w: World, events: seq<Event>): World
    decreases |events|
  {
    if events == [] then w else Run(codec, Step(codec, w, events[0]), events[1..])
  }

  // ----- the invariant -----

  /** Where a receipt stands in the order of publication. */
  predicate Precedes(order: seq<Id>, a: Id, b: Id) {
    exists i, j | 0 <= i < j < |order| :: order[i] == a && order[j] == b
  }

  predicate Distinct(order: seq<Id>) {
    forall i, j | 0 <= i < j < |order| :: order[i] != order[j]
  }

  /** A published receipt is complete, names itself, and its parent, if it has
      one, was published before it. */
  predicate ReceiptOk(codec: Codec, w: World, id: Id)
    requires id in w.receipts
  {
    && id in w.order && id in w.owner
    && codec.decode(w.receipts[id]).Some?
    && var r := codec.decode(w.receipts[id]).value;
    && r.id == id && w.receipts[id] == codec.encode(r)
    && (r.parent.Some? ==> Precedes(w.order, r.parent.value, id))
  }

  predicate Owns(w: World, pid: Pid, id: Id) {
    id in w.receipts && id in w.owner && w.owner[id] == pid
  }

  predicate ProcessOk(codec: Codec, w: World, pid: Pid)
    requires pid in w.processes
  {
    var p := w.processes[pid];
    match p.phase
    case Begun(fork) => !fork ==> p.collector.Off?
    case Checked(fork) =>
      && p.collector.Off? && p.env.config && !p.env.vendor
      && (fork ==> p.env.producer.Some?)
      && (p.env.producer.Some? ==> p.env.producer.value in w.receipts)
    case Writing(record, temp, written) =>
      && p.collector.Off?
      && written <= |codec.encode(record)|
      && (temp in w.temps ==> w.temps[temp] == codec.encode(record)[..written])
      && (record.parent.Some? ==> record.parent.value in w.receipts)
      && p.env.config && !p.env.vendor
    case Linked(id, temp) => p.collector.Off? && Owns(w, pid, id)
    case Bound(id) => p.collector.Off? && Owns(w, pid, id) && p.env.file == Some(Own(id)) && p.env.producer == Some(id)
    case Measuring(id) => p.collector == Running(Own(id)) && Owns(w, pid, id)
    case Exited(code) => code == 97 ==> p.env == NO_SELECTORS
  }

  /** Two processes never have the same temporary in hand. */
  predicate TempsApart(w: World) {
    forall a, b | a in w.processes && b in w.processes && Holds(w.processes[a]).Some? && Holds(w.processes[a]) == Holds(w.processes[b]) ::
      a == b
  }

  /** Every data file is written by nobody but the process that owns its name. */
  predicate SaversOwn(w: World) {
    forall id, pid | id in w.savers && pid in w.savers[id] :: Owns(w, pid, id)
  }

  predicate Valid(codec: Codec, w: World) {
    && Distinct(w.order) && (forall id | id in w.order :: id in w.receipts)
    && w.owner.Keys == w.receipts.Keys
    && (forall id | id in w.receipts :: ReceiptOk(codec, w, id))
    && (forall pid | pid in w.processes :: ProcessOk(codec, w, pid))
    && TempsApart(w) && SaversOwn(w)
  }

  // ----- one step keeps it -----

  /** Receipts and owners only grow. */
  predicate Grows(w: World, v: World) {
    && (forall id | id in w.receipts :: id in v.receipts && v.receipts[id] == w.receipts[id])
    && (forall id | id in w.owner :: id in v.owner && v.owner[id] == w.owner[id])
  }

  /** Only one process changes, and no other one's temporary does, unless it is
      removed. */
  predicate Frame(w: World, v: World, pid: Pid) {
    && Grows(w, v)
    && (forall q | q in v.processes && q != pid :: q in w.processes && v.processes[q] == w.processes[q])
    && forall q | q in w.processes && q != pid && Holds(w.processes[q]).Some? ::
         var t := Holds(w.processes[q]).value; t in v.temps ==> t in w.temps && v.temps[t] == w.temps[t]
  }

  lemma OthersStay(codec: Codec, w: World, v: World, pid: Pid, q: Pid)
    requires Frame(w, v, pid) && q != pid && q in w.processes && q in v.processes && ProcessOk(codec, w, q)
    ensures ProcessOk(codec, v, q)
  {
  }

  /** A step that changes one process, publishes nothing and saves nothing. */
  lemma LocalStepKeeps(codec: Codec, w: World, v: World, pid: Pid)
    requires Valid(codec, w) && Frame(w, v, pid)
    requires v.receipts == w.receipts && v.order == w.order && v.owner == w.owner && v.savers == w.savers
    requires pid in v.processes && ProcessOk(codec, v, pid)
    requires Holds(v.processes[pid]).Some? ==>
      forall q | q in w.processes && q != pid :: Holds(w.processes[q]) != Holds(v.processes[pid])
    ensures Valid(codec, v)
  {
    hide ProcessOk;
    forall q | q in v.processes ensures ProcessOk(codec, v, q) {
      if q != pid {
        OthersStay(codec, w, v, pid, q);
      }
    }
    forall id | id in v.receipts ensures ReceiptOk(codec, v, id) {
      assert ReceiptOk(codec, w, id);
    }
  }

  /** A process changes and nothing else does; it has no temporary in hand that
      it had not before. */
  lemma PutKeeps(codec: Codec, w: World, pid: Pid, p: Process)
    requires Valid(codec, w) && ProcessOk(codec, Put(w, pid, p), pid)
    requires Holds(p).None? || (pid in w.processes && Holds(p) == Holds(w.processes[pid]))
    ensures Valid(codec, Put(w, pid, p)) && Grows(w, Put(w, pid, p))
  {
    hide ReceiptOk, SaversOwn, ProcessOk;
    LocalStepKeeps(codec, w, Put(w, pid, p), pid);
  }

  lemma FailKeeps(codec: Codec, w: World, pid: Pid)
    requires Valid(codec, w) && pid in w.processes
    ensures Valid(codec, Fail(w, pid)) && Grows(w, Fail(w, pid))
  {
    hide ReceiptOk, SaversOwn;
    var v := Fail(w, pid);
    forall q | q in w.processes && q != pid && Holds(w.processes[q]).Some?
      ensures Holds(w.processes[q]) != Holds(w.processes[pid])
    {
    }
    LocalStepKeeps(codec, w, v, pid);
  }

  lemma StartStepsKeep(codec: Codec, w: World, e: Event)
    requires Valid(codec, w) && (e.Spawn? || e.Fork? || e.Check? || e.Kill?)
    ensures Valid(codec, Step(codec, w, e)) && Grows(w, Step(codec, w, e))
  {
    hide Valid, ReceiptOk, Fail, Grows, Put;
    GrowsNot(w);
    var v := Step(codec, w, e);
    if v != w {
      if e.Check? && (!e.ok || !MayDraw(codec, w, w.processes[e.pid], w.processes[e.pid].phase.fork)) {
        FailKeeps(codec, w, e.pid);
      } else {
        StartedOk(codec, w, e);
      }
    }
  }

  lemma StartedOk(codec: Codec, w: World, e: Event)
    requires Valid(codec, w) && (e.Spawn? || e.Fork? || e.Check? || e.Kill?) && Step(codec, w, e) != w
    requires e.Check? ==> e.ok && MayDraw(codec, w, w.processes[e.pid], w.processes[e.pid].phase.fork)
    ensures Valid(codec, Step(codec, w, e)) && Grows(w, Step(codec, w, e))
  {
    hide Valid, ReceiptOk, Fail, Grows;
    var pid := e.pid;
    match e
    case Spawn(_, env) => PutKeeps(codec, w, pid, Process(env, Off, Begun(false)));
    case Fork(parent, _, env) => PutKeeps(codec, w, pid, Process(env, w.processes[parent].collector, Begun(true)));
    case Check(_, _) =>
      PutKeeps(codec, w, pid, Process(w.processes[pid].env, Off, Checked(w.processes[pid].phase.fork)));
    case Kill(_) => PutKeeps(codec, w, pid, w.processes[pid].(phase := Exited(137)));
  }

  lemma DrawKeeps(codec: Codec, w: World, e: Event)
    requires Valid(codec, w) && e.Draw?
    ensures Valid(codec, Step(codec, w, e)) && Grows(w, Step(codec, w, e))
  {
    hide ReceiptOk, SaversOwn, Fail;
    var v, pid := Step(codec, w, e), e.pid;
    if pid in w.processes && w.processes[pid].phase.Checked? {
      if !e.ok {
        FailKeeps(codec, w, pid);
      } else if e.temp in w.temps {
        StolenNameKeeps(codec, w, pid, e.temp);
      } else if v == w {
        GrowsNot(w);
      } else {
        forall q | q in w.processes && q != pid && Holds(w.processes[q]).Some? ensures Holds(w.processes[q]).value != e.temp {
          assert Holds(w.processes[q]) != Some(e.temp);
        }
        assert ProcessOk(codec, w, pid);
        LocalStepKeeps(codec, w, v, pid);
      }
    }
  }

  lemma StolenNameKeeps(codec: Codec, w: World, pid: Pid, temp: Temp)
    requires Valid(codec, w) && pid in w.processes && w.processes[pid].phase.Checked?
    ensures var v := Fail(w, pid).(temps := w.temps - {temp}); Valid(codec, v) && Grows(w, v)
  {
    hide ReceiptOk, SaversOwn;
    LocalStepKeeps(codec, w, Fail(w, pid).(temps := w.temps - {temp}), pid);
  }

  lemma WriteKeeps(codec: Codec, w: World, e: Event)
    requires Valid(codec, w) && e.Write?
    ensures Valid(codec, Step(codec, w, e)) && Grows(w, Step(codec, w, e))
  {
    hide ReceiptOk, SaversOwn, Fail;
    var v, pid := Step(codec, w, e), e.pid;
    if pid in w.processes && w.processes[pid].phase.Writing? {
      var p := w.processes[pid];
      if e.count == 0 || p.phase.written > |codec.encode(p.phase.record)| {
        FailKeeps(codec, w, pid);
      } else {
        assert ProcessOk(codec, w, pid);
        LocalStepKeeps(codec, w, v, pid);
      }
    }
  }

  lemma BindStartKeeps(codec: Codec, w: World, e: Event)
    requires Valid(codec, w) && (e.Bind? || e.Start?)
    ensures Valid(codec, Step(codec, w, e)) && Grows(w, Step(codec, w, e))
  {
    hide ReceiptOk, SaversOwn, Fail;
    var v, pid := Step(codec, w, e), e.pid;
    if v != w {
      var p := w.processes[pid];
      assert ProcessOk(codec, w, pid);
      if (e.Bind? && !e.ok) || (e.Start? && (!e.ok || !p.env.config || p.env.vendor || p.env.file.None?)) {
        FailKeeps(codec, w, pid);
      } else {
        LocalStepKeeps(codec, w, v, pid);
      }
    }
  }

  lemma ExitKeeps(codec: Codec, w: World, e: Event)
    requires Valid(codec, w) && e.Exit?
    ensures Valid(codec, Step(codec, w, e)) && Grows(w, Step(codec, w, e))
  {
    hide ReceiptOk, SaversOwn, TempsApart;
    var v, pid := Step(codec, w, e), e.pid;
    if pid in w.processes && w.processes[pid].phase.Measuring? {
      assert ProcessOk(codec, w, pid);
      var quiet := v.(savers := w.savers);
      PutKeeps(codec, w, pid, Process(NO_SELECTORS, Off, Exited(if e.flush then e.code else 97)));
      SaversMayGrow(codec, quiet, v, pid, w.processes[pid].phase.id);
    }
  }

  lemma SaversMayGrow(codec: Codec, w: World, v: World, pid: Pid, id: Id)
    requires Valid(codec, w) && Owns(w, pid, id)
    requires v == w || v == w.(savers := w.savers[id := (if id in w.savers then w.savers[id] else {}) + {pid}])
    ensures Valid(codec, v)
  {
    forall x | x in v.receipts ensures ReceiptOk(codec, v, x) {
      assert ReceiptOk(codec, w, x);
    }
    forall q | q in v.processes ensures ProcessOk(codec, v, q) {
      assert ProcessOk(codec, w, q);
    }
  }

  lemma LinkKeeps(codec: Codec, w: World, e: Event)
    requires ReadsBack(codec) && Valid(codec, w) && e.Link?
    ensures Valid(codec, Step(codec, w, e)) && Grows(w, Step(codec, w, e))
  {
    hide ReceiptOk, Fail, Valid, Grows;
    GrowsNot(w);
    var v, pid := Step(codec, w, e), e.pid;
    if v != w {
      var p := w.processes[pid];
      if !e.ok || p.phase.record.id in w.receipts || p.phase.temp !in w.temps {
        FailKeeps(codec, w, pid);
      } else {
        PublishKeeps(codec, w, v, pid);
      }
    }
  }

  lemma PublishKeeps(codec: Codec, w: World, v: World, pid: Pid)
    requires ReadsBack(codec) && Valid(codec, w)
    requires v == Step(codec, w, Link(pid, true)) && v != w
    requires w.processes[pid].phase.record.id !in w.receipts && w.processes[pid].phase.temp in w.temps
    ensures Valid(codec, v) && Grows(w, v)
  {
    hide ReceiptOk, Fail, SaversOwn, Owns, Distinct;
    var record := w.processes[pid].phase.record;
    assert ProcessOk(codec, w, pid);
    assert w.temps[w.processes[pid].phase.temp] == codec.encode(record);
    NewReceiptOk(codec, w, v, record);
    forall q | q in v.processes ensures ProcessOk(codec, v, q) {
      if q != pid {
        OthersStay(codec, w, v, pid, q);
      } else {
        NowOwned(v, pid, record.id);
      }
    }
    SaversUnpublished(codec, w, v, record.id);
  }

  lemma NowOwned(w: World, pid: Pid, id: Id)
    requires id in w.receipts && id in w.owner && w.owner[id] == pid
    ensures Owns(w, pid, id)
  {
  }

  lemma SaversUnpublished(codec: Codec, w: World, v: World, id: Id)
    requires Valid(codec, w) && id !in w.receipts && v.savers == w.savers
    requires forall x | x in w.receipts :: x in v.receipts && x in v.owner && (x in w.owner ==> v.owner[x] == w.owner[x])
    ensures SaversOwn(v)
  {
  }

  lemma NewReceiptOk(codec: Codec, w: World, v: World, record: Record)
    requires ReadsBack(codec) && Valid(codec, w) && record.id !in w.receipts
    requires record.parent.Some? ==> record.parent.value in w.receipts
    requires v.receipts == w.receipts[record.id := codec.encode(record)]
    requires v.order == w.order + [record.id] && v.owner.Keys == w.owner.Keys + {record.id}
    ensures forall id | id in v.receipts :: ReceiptOk(codec, v, id)
    ensures Distinct(v.order) && forall id | id in v.order :: id in v.receipts
  {
    var n := |w.order|;
    assert v.order[n] == record.id;
    forall id | id in v.receipts ensures ReceiptOk(codec, v, id) {
      if id != record.id {
        assert ReceiptOk(codec, w, id);
        OrderGrows(w.order, record.id, codec.decode(w.receipts[id]).value.parent, id);
      } else {
        assert codec.decode(codec.encode(record)) == Some(record);
        if record.parent.Some? {
          assert ReceiptOk(codec, w, record.parent.value);
          var i :| 0 <= i < n && w.order[i] == record.parent.value;
          assert v.order[i] == record.parent.value;
        }
      }
    }
  }

  lemma OrderGrows(order: seq<Id>, next: Id, parent: Option<Id>, id: Id)
    requires parent.Some? ==> Precedes(order, parent.value, id)
    ensures parent.Some? ==> Precedes(order + [next], parent.value, id)
    ensures id in order ==> id in order + [next]
  {
    if parent.Some? {
      var i, j :| 0 <= i < j < |order| && order[i] == parent.value && order[j] == id;
      assert (order + [next])[i] == parent.value && (order + [next])[j] == id;
    }
  }

  lemma StepKeeps(codec: Codec, w: World, e: Event)
    requires ReadsBack(codec) && Valid(codec, w)
    ensures Valid(codec, Step(codec, w, e)) && Grows(w, Step(codec, w, e))
  {
    hide Valid, Step, Grows;
    match e
    case Draw(_, _, _, _) => DrawKeeps(codec, w, e);
    case Write(_, _) => WriteKeeps(codec, w, e);
    case Link(_, _) => LinkKeeps(codec, w, e);
    case Bind(_, _) => BindStartKeeps(codec, w, e);
    case Start(_, _) => BindStartKeeps(codec, w, e);
    case Exit(_, _, _) => ExitKeeps(codec, w, e);
    case _ => StartStepsKeep(codec, w, e);
  }

  // ----- every interleaving -----

  /** Over every interleaving: receipts are write-once and never partial, each
      identity has one owner, and nothing else of the invariant is lost. */
  lemma {:induction false} RunKeeps(codec: Codec, w: World, events: seq<Event>)
    requires ReadsBack(codec) && Valid(codec, w)
    ensures Valid(codec, Run(codec, w, events)) && Grows(w, Run(codec, w, events))
    decreases |events|
  {
    hide Valid, Step, Grows;
    if events != [] {
      StepKeeps(codec, w, events[0]);
      RunKeeps(codec, Step(codec, w, events[0]), events[1..]);
      GrowsTogether(w, Step(codec, w, events[0]), Run(codec, w, events));
    } else {
      GrowsNot(w);
    }
  }

  lemma GrowsNot(w: World)
    ensures Grows(w, w)
  {
  }

  lemma GrowsTogether(u: World, v: World, w: World)
    requires Grows(u, v) && Grows(v, w)
    ensures Grows(u, w)
  {
  }

  lemma EmptyIsValid(codec: Codec)
    ensures Valid(codec, EMPTY)
  {
  }

  /** Every published receipt is the complete encoding of one record. */
  lemma ReceiptsAreComplete(codec: Codec, events: seq<Event>, id: Id) returns (r: Record)
    requires ReadsBack(codec) && id in Run(codec, EMPTY, events).receipts
    ensures Run(codec, EMPTY, events).receipts[id] == codec.encode(r) && r.id == id
  {
    EmptyIsValid(codec);
    RunKeeps(codec, EMPTY, events);
    assert ReceiptOk(codec, Run(codec, EMPTY, events), id);
    r := codec.decode(Run(codec, EMPTY, events).receipts[id]).value;
  }

  /** No two measuring processes share a data file. */
  lemma MeasuringProcessesApart(codec: Codec, events: seq<Event>, a: Pid, b: Pid)
    requires ReadsBack(codec)
    requires var w := Run(codec, EMPTY, events);
      a in w.processes && b in w.processes && w.processes[a].phase.Measuring? && w.processes[b].phase.Measuring?
    ensures var w := Run(codec, EMPTY, events);
      && w.processes[a].collector == Running(Own(w.processes[a].phase.id))
      && (w.processes[a].collector == w.processes[b].collector ==> a == b)
  {
    EmptyIsValid(codec);
    RunKeeps(codec, EMPTY, events);
    var w := Run(codec, EMPTY, events);
    assert ProcessOk(codec, w, a) && ProcessOk(codec, w, b);
  }

  /** No data file is ever written by two processes, and none by a process other
      than the one that published its identity: a child never writes its
      parent's file. */
  lemma OneWriterPerFile(codec: Codec, events: seq<Event>, id: Id, a: Pid, b: Pid)
    requires ReadsBack(codec)
    requires var w := Run(codec, EMPTY, events); id in w.savers && a in w.savers[id] && b in w.savers[id]
    ensures a == b && id in Run(codec, EMPTY, events).owner && Run(codec, EMPTY, events).owner[id] == a
  {
    EmptyIsValid(codec);
    RunKeeps(codec, EMPTY, events);
    var w := Run(codec, EMPTY, events);
    assert Owns(w, a, id) && Owns(w, b, id);
  }

  /** From every published receipt the parents lead to a root, each published
      before the other: the parent relation is a forest. */
  lemma {:induction false} ParentsLeadToARoot(codec: Codec, w: World, id: Id) returns (chain: seq<Id>)
    requires Valid(codec, w) && id in w.receipts
    ensures chain != [] && chain[0] == id && forall k | 0 <= k < |chain| :: chain[k] in w.receipts
    ensures forall k | 0 <= k < |chain| :: ReceiptOk(codec, w, chain[k])
    ensures forall k | 0 <= k < |chain| - 1 :: ParentOf(codec, w, chain[k]) == Some(chain[k + 1])
    ensures ParentOf(codec, w, chain[|chain| - 1]).None?
    decreases Place(w.order, id)
  {
    hide Valid, Place, Precedes;
    ReceiptIsOk(codec, w, id);
    chain := [id];
    if ParentOf(codec, w, id).Some? {
      var parent := ParentOf(codec, w, id).value;
      EarlierPlace(codec, w, parent, id);
      var rest := ParentsLeadToARoot(codec, w, parent);
      chain := [id] + rest;
    }
  }

  function ParentOf(codec: Codec, w: World, id: Id): Option<Id> {
    if id in w.receipts && codec.decode(w.receipts[id]).Some? then codec.decode(w.receipts[id]).value.parent else None
  }

  /** The place of a receipt in the order of publication. */
  function Place(order: seq<Id>, id: Id): (n: nat)
    ensures n < |order| ==> order[n] == id
    ensures forall i | 0 <= i < n && i < |order| :: order[i] != id
  {
    if order == [] || order[0] == id then 0 else 1 + Place(order[1..], id)
  }

  lemma ReceiptIsOk(codec: Codec, w: World, id: Id)
    requires Valid(codec, w) && id in w.receipts
    ensures ReceiptOk(codec, w, id)
  {
  }

  lemma EarlierPlace(codec: Codec, w: World, a: Id, b: Id)
    requires Valid(codec, w) && Precedes(w.order, a, b)
    ensures Place(w.order, a) < Place(w.order, b) && a in w.receipts
  {
    var order := w.order;
    var i, j :| 0 <= i < j < |order| && order[i] == a && order[j] == b;
    var pa, pb := Place(order, a), Place(order, b);
    assert pa <= i && pb <= j;
    assert order[i] in order;
  }

  // ----- a start that fails -----

  predicate Starting(phase: Phase) {
    !phase.Measuring? && !phase.Exited?
  }

  /** The process was starting, and this event ends it with 97. */
  predicate StartFails(codec: Codec, w: World, e: Event, pid: Pid) {
    && pid in w.processes && Starting(w.processes[pid].phase)
    && pid in Step(codec, w, e).processes && Step(codec, w, e).processes[pid].phase == Exited(97)
  }

  /** Whoever has saved has exited. */
  predicate SaversExited(w: World) {
    forall id, pid | id in w.savers && pid in w.savers[id] :: pid in w.processes && w.processes[pid].phase.Exited?
  }

  /** Nothing was saved by the process, and it has published nothing but these. */
  predicate Silent(w: World, pid: Pid, published: set<Id>) {
    && (forall id | id in w.savers :: pid !in w.savers[id])
    && forall id | id in w.owner && w.owner[id] == pid :: id in published
  }

  lemma FailEffect(w: World, pid: Pid)
    ensures pid in w.processes ==>
      var v := Fail(w, pid);
      && v.processes == w.processes[pid := Process(NO_SELECTORS, w.processes[pid].collector, Exited(97))]
      && v.savers == w.savers && v.owner == w.owner && v.receipts == w.receipts
  {
  }

  /** Who is changed by an event: the process that makes it, unless that has
      exited. */
  lemma OthersUnchanged(codec: Codec, w: World, e: Event, q: Pid)
    requires q in w.processes && (q != e.pid || w.processes[q].phase.Exited?)
    ensures q in Step(codec, w, e).processes && Step(codec, w, e).processes[q] == w.processes[q]
  {
    hide MayDraw, Fail, Holds, NO_SELECTORS;
    FailEffect(w, e.pid);
    match e
    case Spawn(_, _) =>
    case Fork(_, _, _) =>
    case Check(_, _) =>
    case Draw(_, _, _, _) =>
    case Write(_, _) =>
    case Link(_, _) =>
    case Bind(_, _) =>
    case Start(_, _) =>
    case Exit(_, _, _) =>
    case Kill(_) =>
  }

  lemma OnlyExitsSave(codec: Codec, w: World, e: Event)
    ensures var v := Step(codec, w, e);
      v.savers == w.savers ||
      (&& e.Exit? && e.pid in w.processes && w.processes[e.pid].phase.Measuring?
       && e.pid in v.processes && v.processes[e.pid].phase.Exited?
       && forall id, q | id in v.savers && q in v.savers[id] :: q == e.pid || (id in w.savers && q in w.savers[id]))
  {
    hide MayDraw, Fail, Holds, NO_SELECTORS;
    FailEffect(w, e.pid);
    match e
    case Spawn(_, _) =>
    case Fork(_, _, _) =>
    case Check(_, _) =>
    case Draw(_, _, _, _) =>
    case Write(_, _) =>
    case Link(_, _) =>
    case Bind(_, _) =>
    case Start(_, _) =>
    case Exit(_, _, _) =>
    case Kill(_) =>
  }

  lemma OnlyLinksPublish(codec: Codec, w: World, e: Event)
    ensures var v := Step(codec, w, e);
      (v.owner == w.owner && v.receipts == w.receipts) ||
      (&& e.Link? && e.pid in w.processes && w.processes[e.pid].phase.Writing?
       && v.owner == w.owner[w.processes[e.pid].phase.record.id := e.pid]
       && e.pid in v.processes && v.processes[e.pid].phase.Linked?)
  {
    hide MayDraw, Fail, Holds, NO_SELECTORS;
    FailEffect(w, e.pid);
    match e
    case Spawn(_, _) =>
    case Fork(_, _, _) =>
    case Check(_, _) =>
    case Draw(_, _, _, _) =>
    case Write(_, _) =>
    case Link(_, _) =>
    case Bind(_, _) =>
    case Start(_, _) =>
    case Exit(_, _, _) =>
    case Kill(_) =>
  }

  /** A process that has exited takes no further step. */
  lemma {:induction false} ExitedStaysOverRuns(codec: Codec, w: World, events: seq<Event>, pid: Pid, published: set<Id>)
    requires pid in w.processes && w.processes[pid].phase.Exited? && Silent(w, pid, published)
    ensures var v := Run(codec, w, events);
      pid in v.processes && v.processes[pid] == w.processes[pid] && Silent(v, pid, published)
    decreases |events|
  {
    hide Step;
    if events != [] {
      OthersUnchanged(codec, w, events[0], pid);
      OnlyExitsSave(codec, w, events[0]);
      OnlyLinksPublish(codec, w, events[0]);
      ExitedStaysOverRuns(codec, Step(codec, w, events[0]), events[1..], pid, published);
    }
  }

  lemma {:induction false} SaversExitedRun(codec: Codec, w: World, events: seq<Event>)
    requires SaversExited(w)
    ensures SaversExited(Run(codec, w, events))
    decreases |events|
  {
    hide Step;
    if events != [] {
      OnlyExitsSave(codec, w, events[0]);
      forall id, q | id in w.savers && q in w.savers[id]
        ensures q in Step(codec, w, events[0]).processes && Step(codec, w, events[0]).processes[q].phase.Exited?
      {
        OthersUnchanged(codec, w, events[0], q);
      }
      SaversExitedRun(codec, Step(codec, w, events[0]), events[1..]);
    }
  }

  /** Whoever exits with 97 exits without selectors. */
  lemma EndsWithoutSelectors(codec: Codec, w: World, e: Event)
    requires e.pid in w.processes && e.pid in Step(codec, w, e).processes
    requires Step(codec, w, e).processes[e.pid].phase == Exited(97) != w.processes[e.pid].phase
    ensures Step(codec, w, e).processes[e.pid].env == NO_SELECTORS
  {
    hide MayDraw, Fail, Holds, NO_SELECTORS;
    FailEffect(w, e.pid);
    match e
    case Spawn(_, _) =>
    case Fork(_, _, _) =>
    case Check(_, _) =>
    case Draw(_, _, _, _) =>
    case Write(_, _) =>
    case Link(_, _) =>
    case Bind(_, _) =>
    case Start(_, _) =>
    case Exit(_, _, _) =>
    case Kill(_) =>
  }

  /** In every run: a process whose start fails, in whichever step, keeps exit code
      97 and cleared selectors for ever after, never writes a data file - its
      parent's least of all - and publishes nothing any more. */
  lemma FailedStartMeasuresNothing(codec: Codec, before: seq<Event>, e: Event, later: seq<Event>, pid: Pid)
    requires StartFails(codec, Run(codec, EMPTY, before), e, pid)
    ensures var w := Run(codec, EMPTY, before);
      var v := Run(codec, Step(codec, w, e), later);
      && pid in v.processes && v.processes[pid].phase == Exited(97) && v.processes[pid].env == NO_SELECTORS
      && (forall id | id in v.savers :: pid !in v.savers[id])
      && forall id | id in v.owner && v.owner[id] == pid :: id in w.owner && w.owner[id] == pid
  {
    hide Step;
    var w := Run(codec, EMPTY, before);
    SaversExitedRun(codec, EMPTY, before);
    if e.pid != pid {
      OthersUnchanged(codec, w, e, pid);
      assert false;
    }
    OnlyExitsSave(codec, w, e);
    OnlyLinksPublish(codec, w, e);
    EndsWithoutSelectors(codec, w, e);
    var published := set id | id in w.owner && w.owner[id] == pid;
    assert Silent(Step(codec, w, e), pid, published);
    ExitedStaysOverRuns(codec, Step(codec, w, e), later, pid, published);
  }
}
