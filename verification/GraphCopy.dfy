/** Detaching a checkpoint state: a recursive copy of an object graph that
    accepts only plain JSON values. Objects may be shared; the set of objects on
    the active path is what stops a cycle. */
module GraphCopy {

  /** Values that are not containers, by exact type. `Foreign` stands for every
      other type, subclasses of the builtins included. */
  datatype Leaf = Text(text: string) | Number(n: int) | Flag(b: bool) | Null | Finite(x: real) | NonFinite | Foreign

  /** A dictionary key; anything but an exact string is `OtherKey`. */
  datatype Key = Name(name: string) | OtherKey

  datatype Item = Ref(id: nat) | Atom(leaf: Leaf)

  datatype Node = Dict(entries: seq<(Key, Item)>) | List(items: seq<Item>)

  type Heap = map<nat, Node>

  datatype Json = JObject(members: seq<(string, Json)>) | JArray(elements: seq<Json>) | JLeaf(leaf: Leaf)

  datatype CopyError = Cycle | BadKey | BadLeaf | TooDeep | NotAnObject

  datatype Copied<+T> = Ok(value: T) | Err(error: CopyError)

  predicate Allowed(leaf: Leaf) {
    !leaf.NonFinite? && !leaf.Foreign?
  }

  // ----- the graph -----

  /** What a container holds, in order; a list has no keys to check. */
  function Slots(node: Node): seq<(Key, Item)> {
    match node
    case Dict(entries) => entries
    case List(items) => seq(|items|, i requires 0 <= i < |items| => (Name(""), items[i]))
  }

  predicate InHeap(heap: Heap, item: Item) {
    item.Ref? ==> item.id in heap
  }

  /** Every reference of the finite heap leads to an object of the heap. */
  predicate Closed(heap: Heap) {
    forall id | id in heap :: forall i | 0 <= i < |Slots(heap[id])| :: InHeap(heap, Slots(heap[id])[i].1)
  }

  predicate IsChild(heap: Heap, parent: Item, child: Item) {
    parent.Ref? && parent.id in heap && exists i | 0 <= i < |Slots(heap[parent.id])| :: Slots(heap[parent.id])[i].1 == child
  }

  /** A walk along references. */
  predicate Walk(heap: Heap, walk: seq<Item>) {
    walk != [] && forall i | 0 <= i < |walk| - 1 :: IsChild(heap, walk[i], walk[i + 1])
  }

  predicate WalkFrom(heap: Heap, root: Item, walk: seq<Item>) {
    Walk(heap, walk) && walk[0] == root
  }

  predicate PlainItem(heap: Heap, item: Item) {
    match item
    case Atom(leaf) => Allowed(leaf)
    case Ref(id) => id in heap && forall i | 0 <= i < |Slots(heap[id])| :: Slots(heap[id])[i].0.Name?
  }

  function Last(walk: seq<Item>): Item
    requires walk != []
  {
    walk[|walk| - 1]
  }

  /** No walk from the root comes to an object for the second time. */
  ghost predicate Acyclic(heap: Heap, root: Item) {
    forall walk: seq<Item> | WalkFrom(heap, root, walk) ::
      forall i, j | 0 <= i < j < |walk| && walk[i].Ref? :: walk[i] != walk[j]
  }

  /** Every reachable leaf and key is an allowed builtin. */
  ghost predicate Plain(heap: Heap, root: Item) {
    forall walk: seq<Item> | WalkFrom(heap, root, walk) :: PlainItem(heap, Last(walk))
  }

  /** Nothing is nested deeper than the interpreter's recursion allows. */
  ghost predicate Shallow(heap: Heap, root: Item, limit: nat) {
    forall walk: seq<Item> | WalkFrom(heap, root, walk) :: |walk| <= limit
  }

  /** The tree that unfolds from an item; shared objects appear once per use. */
  predicate Unfolds(heap: Heap, item: Item, json: Json)
    decreases json
  {
    match item
    case Atom(leaf) => json == JLeaf(leaf)
    case Ref(id) =>
      id in heap &&
      match heap[id] {
        case Dict(entries) =>
          json.JObject? && |json.members| == |entries| &&
          forall i | 0 <= i < |entries| ::
            entries[i].0 == Name(json.members[i].0) && Unfolds(heap, entries[i].1, json.members[i].1)
        case List(items) =>
          json.JArray? && |json.elements| == |items| &&
          forall i | 0 <= i < |items| :: Unfolds(heap, items[i], json.elements[i])
      }
  }

  // ----- the copy -----

  /** How many objects are not on the active path. */
  function Remaining(heap: Heap, active: set<nat>): nat {
    |heap.Keys - active|
  }

  lemma EnteringShrinks(heap: Heap, active: set<nat>, id: nat)
    requires id in heap && id !in active
    ensures Remaining(heap, active + {id}) < Remaining(heap, active)
  {
    assert heap.Keys - active == (heap.Keys - (active + {id})) + {id};
  }

  function Assemble(node: Node, values: seq<Json>): Json
    requires |values| == |Slots(node)|
    requires forall i | 0 <= i < |Slots(node)| :: Slots(node)[i].0.Name?
  {
    match node
    case Dict(entries) =>
      JObject(seq(|entries|, i requires 0 <= i < |entries| => (entries[i].0.name, values[i])))
    case List(items) => JArray(values)
  }

  function Clone(heap: Heap, item: Item, active: set<nat>, room: nat): Copied<Json>
    requires Closed(heap) && InHeap(heap, item)
    decreases Remaining(heap, active), 1, 0
  {
    if room == 0 then Err(TooDeep)
    else match item
      case Atom(leaf) => if Allowed(leaf) then Ok(JLeaf(leaf)) else Err(BadLeaf)
      case Ref(id) =>
        if id in active then Err(Cycle)
        else
          EnteringShrinks(heap, active, id);
          match CloneSlots(heap, Slots(heap[id]), active + {id}, room - 1)
          case Err(error) => Err(error)
          case Ok(values) => Ok(Assemble(heap[id], values))
  }

  function CloneSlots(heap: Heap, slots: seq<(Key, Item)>, active: set<nat>, room: nat): (r: Copied<seq<Json>>)
    requires Closed(heap) && forall i | 0 <= i < |slots| :: InHeap(heap, slots[i].1)
    ensures r.Ok? ==> |r.value| == |slots|
    ensures r.Ok? ==> forall i | 0 <= i < |slots| :: slots[i].0.Name?
    decreases Remaining(heap, active), 2, |slots|
  {
    if slots == [] then Ok([])
    else if slots[0].0.OtherKey? then Err(BadKey)
    else
      match Clone(heap, slots[0].1, active, room)
      case Err(error) => Err(error)
      case Ok(first) =>
        match CloneSlots(heap, slots[1..], active, room)
        case Err(error) => Err(error)
        case Ok(others) => Ok([first] + others)
  }

  /** The exact copy of a state: it must also be an object. */
  function Snapshot(heap: Heap, value: Item, limit: nat): Copied<Json>
    requires Closed(heap) && InHeap(heap, value)
  {
    match Clone(heap, value, {}, limit)
    case Err(error) => Err(error)
    case Ok(json) => if json.JObject? then Ok(json) else Err(NotAnObject)
  }

  // ----- what a successful copy is -----

  lemma {:induction false} SlotsCloned(heap: Heap, slots: seq<(Key, Item)>, active: set<nat>, room: nat, i: nat)
    requires Closed(heap) && forall k | 0 <= k < |slots| :: InHeap(heap, slots[k].1)
    requires CloneSlots(heap, slots, active, room).Ok? && i < |slots|
    ensures Clone(heap, slots[i].1, active, room) == Ok(CloneSlots(heap, slots, active, room).value[i])
  {
    if i > 0 {
      SlotsCloned(heap, slots[1..], active, room, i - 1);
    }
  }

  lemma {:induction false} CopyUnfolds(heap: Heap, item: Item, active: set<nat>, room: nat)
    requires Closed(heap) && InHeap(heap, item)
    requires Clone(heap, item, active, room).Ok?
    ensures Unfolds(heap, item, Clone(heap, item, active, room).value)
    decreases room
  {
    if item.Ref? {
      var slots, inside := Slots(heap[item.id]), active + {item.id};
      forall i | 0 <= i < |slots|
        ensures Clone(heap, slots[i].1, inside, room - 1).Ok?
        ensures Unfolds(heap, slots[i].1, CloneSlots(heap, slots, inside, room - 1).value[i])
      {
        SlotsCloned(heap, slots, inside, room - 1, i);
        CopyUnfolds(heap, slots[i].1, inside, room - 1);
      }
      UnfoldsByParts(heap, item.id, CloneSlots(heap, slots, inside, room - 1).value);
    }
  }

  lemma UnfoldsByParts(heap: Heap, id: nat, values: seq<Json>)
    requires id in heap && |values| == |Slots(heap[id])|
    requires forall i | 0 <= i < |values| :: Slots(heap[id])[i].0.Name? && Unfolds(heap, Slots(heap[id])[i].1, values[i])
    ensures Unfolds(heap, Ref(id), Assemble(heap[id], values))
  {
    match heap[id]
    case Dict(entries) =>
    case List(items) =>
      forall i | 0 <= i < |items| ensures Unfolds(heap, items[i], values[i]) {
        assert Slots(heap[id])[i].1 == items[i];
      }
  }

  /** There is at most one unfolding, so the copy is determined by the graph. */
  lemma {:induction false} UnfoldingIsUnique(heap: Heap, item: Item, a: Json, b: Json)
    requires Unfolds(heap, item, a) && Unfolds(heap, item, b)
    ensures a == b
    decreases a
  {
    if item.Ref? {
      match heap[item.id]
      case Dict(entries) =>
        forall i | 0 <= i < |entries| ensures a.members[i] == b.members[i] {
          UnfoldingIsUnique(heap, entries[i].1, a.members[i].1, b.members[i].1);
        }
        assert a.members == b.members;
      case List(items) =>
        forall i | 0 <= i < |items| ensures a.elements[i] == b.elements[i] {
          UnfoldingIsUnique(heap, items[i], a.elements[i], b.elements[i]);
        }
        assert a.elements == b.elements;
    }
  }

  // ----- exactly when the copy succeeds -----

  /** A walk the copy could not survive from here: it ends in something that is
      not plain, or goes too deep, or returns to the active path or to itself. */
  predicate Fatal(heap: Heap, active: set<nat>, room: nat, walk: seq<Item>)
    requires walk != []
  {
    || !PlainItem(heap, Last(walk))
    || |walk| > room
    || (Last(walk).Ref? && (Last(walk).id in active || Last(walk) in walk[..|walk| - 1]))
  }

  /** Behind every failure there is a fatal walk. */
  lemma {:induction false} FailureHasWalk(heap: Heap, item: Item, active: set<nat>, room: nat) returns (walk: seq<Item>)
    requires Closed(heap) && InHeap(heap, item)
    requires Clone(heap, item, active, room).Err?
    ensures WalkFrom(heap, item, walk) && Fatal(heap, active, room, walk)
    decreases room
  {
    walk := [item];
    if room > 0 && item.Ref? && item.id !in active && PlainItem(heap, item) {
      var slots, inside := Slots(heap[item.id]), active + {item.id};
      var i := FailingSlot(heap, slots, inside, room - 1);
      var deeper := FailureHasWalk(heap, slots[i].1, inside, room - 1);
      walk := [item] + deeper;
      assert IsChild(heap, item, slots[i].1);
      assert Last(walk) == Last(deeper);
      assert walk[..|walk| - 1] == [item] + deeper[..|deeper| - 1];
    }
  }

  lemma {:induction false} FailingSlot(heap: Heap, slots: seq<(Key, Item)>, active: set<nat>, room: nat) returns (i: nat)
    requires Closed(heap) && forall k | 0 <= k < |slots| :: InHeap(heap, slots[k].1)
    requires forall k | 0 <= k < |slots| :: slots[k].0.Name?
    requires CloneSlots(heap, slots, active, room).Err?
    ensures i < |slots| && Clone(heap, slots[i].1, active, room).Err?
  {
    i := 0;
    if Clone(heap, slots[0].1, active, room).Ok? {
      var later := FailingSlot(heap, slots[1..], active, room);
      i := later + 1;
    }
  }

  /** A successful copy has survived every walk. */
  lemma {:induction false} SuccessSurvives(heap: Heap, item: Item, active: set<nat>, room: nat, walk: seq<Item>)
    requires Closed(heap) && InHeap(heap, item)
    requires Clone(heap, item, active, room).Ok?
    requires WalkFrom(heap, item, walk)
    ensures !Fatal(heap, active, room, walk)
    decreases |walk|
  {
    if |walk| > 1 {
      assert IsChild(heap, item, walk[1]);
      var slots, inside := Slots(heap[item.id]), active + {item.id};
      var i :| 0 <= i < |slots| && slots[i].1 == walk[1];
      SlotsCloned(heap, slots, inside, room - 1, i);
      assert InHeap(heap, slots[i].1);
      var deeper := walk[1..];
      forall k | 0 <= k < |deeper| - 1 ensures IsChild(heap, deeper[k], deeper[k + 1]) {
        assert IsChild(heap, walk[k + 1], walk[(k + 1) + 1]);
      }
      SuccessSurvives(heap, walk[1], inside, room - 1, deeper);
      assert Last(walk) == Last(deeper);
      assert walk[..|walk| - 1] == [item] + deeper[..|deeper| - 1];
    } else {
      assert walk == [item] && walk[..0] == [];
    }
  }

  /** The copy of any finite graph succeeds if and only if no cycle is
      reachable, every reachable key and leaf is allowed and the nesting stays
      within the recursion limit; it then is the graph's one unfolding. */
  lemma CopySucceedsIff(heap: Heap, root: Item, limit: nat)
    requires Closed(heap) && InHeap(heap, root)
    ensures Clone(heap, root, {}, limit).Ok? <==>
            Acyclic(heap, root) && Plain(heap, root) && Shallow(heap, root, limit)
    ensures Clone(heap, root, {}, limit).Ok? ==>
            forall json :: Unfolds(heap, root, json) <==> json == Clone(heap, root, {}, limit).value
  {
    if Clone(heap, root, {}, limit).Ok? {
      forall walk: seq<Item> | WalkFrom(heap, root, walk)
        ensures PlainItem(heap, Last(walk)) && |walk| <= limit
        ensures forall i, j | 0 <= i < j < |walk| && walk[i].Ref? :: walk[i] != walk[j]
      {
        SuccessSurvives(heap, root, {}, limit, walk);
        forall i, j | 0 <= i < j < |walk| && walk[i].Ref? ensures walk[i] != walk[j] {
          var part := walk[..j + 1];
          SuccessSurvives(heap, root, {}, limit, part);
          assert part[..|part| - 1][i] == walk[i];
        }
      }
      CopyUnfolds(heap, root, {}, limit);
      forall json | Unfolds(heap, root, json) ensures json == Clone(heap, root, {}, limit).value {
        UnfoldingIsUnique(heap, root, json, Clone(heap, root, {}, limit).value);
      }
    } else {
      var walk := FailureHasWalk(heap, root, {}, limit);
      if Last(walk).Ref? && Last(walk) in walk[..|walk| - 1] {
        var i :| 0 <= i < |walk| - 1 && walk[i] == Last(walk);
        assert !Acyclic(heap, root);
      }
    }
  }

  /** A state is accepted exactly when it is such a graph and an object. */
  lemma SnapshotSucceedsIff(heap: Heap, value: Item, limit: nat)
    requires Closed(heap) && InHeap(heap, value)
    ensures Snapshot(heap, value, limit).Ok? <==>
            && Acyclic(heap, value) && Plain(heap, value) && Shallow(heap, value, limit)
            && value.Ref? && heap[value.id].Dict?
    ensures Snapshot(heap, value, limit).Ok? ==> Unfolds(heap, value, Snapshot(heap, value, limit).value)
  {
    CopySucceedsIff(heap, value, limit);
  }

  // ----- the recursion with its shared set of active objects -----

  class Copier {
    const heap: Heap
    var active: set<nat>

    constructor (heap: Heap)
      ensures this.heap == heap && active == {}
    {
      this.heap := heap;
      active := {};
    }

    /** Copies one item. The active set is restored on success; after a failure
        the whole copy is abandoned. */
    method CloneItem(item: Item, room: nat) returns (r: Copied<Json>)
      requires Closed(heap) && InHeap(heap, item)
      modifies this`active
      ensures r == Clone(heap, item, old(active), room)
      ensures r.Ok? ==> active == old(active)
      decreases Remaining(heap, active), 1
    {
      if room == 0 {
        return Err(TooDeep);
      }
      match item {
        case Atom(leaf) =>
          return if Allowed(leaf) then Ok(JLeaf(leaf)) else Err(BadLeaf);
        case Ref(id) =>
          if id in active {
            return Err(Cycle);
          }
          EnteringShrinks(heap, active, id);
          active := active + {id};
          var slots := Slots(heap[id]);
          var values := CloneChildren(slots, room - 1);
          if values.Err? {
            return Err(values.error);
          }
          active := active - {id};
          return Ok(Assemble(heap[id], values.value));
      }
    }

    /** The loop over a container's children. */
    method CloneChildren(slots: seq<(Key, Item)>, room: nat) returns (r: Copied<seq<Json>>)
      requires Closed(heap) && forall i | 0 <= i < |slots| :: InHeap(heap, slots[i].1)
      modifies this`active
      ensures r == CloneSlots(heap, slots, old(active), room)
      ensures r.Ok? ==> active == old(active)
      decreases Remaining(heap, active), 2
    {
      var values: seq<Json> := [];
      assert slots[0..] == slots;
      PrefixedNone(CloneSlots(heap, slots, active, room));
      for i := 0 to |slots|
        invariant active == old(active)
        invariant CloneSlots(heap, slots, active, room) == Prefixed(values, CloneSlots(heap, slots[i..], active, room))
      {
        ghost var ahead := slots[i..];
        assert ahead[1..] == slots[i + 1..];
        if slots[i].0.OtherKey? {
          return Err(BadKey);
        }
        var copy := CloneItem(slots[i].1, room);
        if copy.Err? {
          return Err(copy.error);
        }
        PrefixedStep(values, copy.value, CloneSlots(heap, slots[i + 1..], active, room));
        values := values + [copy.value];
      }
      assert slots[|slots|..] == [] && values + [] == values;
      return Ok(values);
    }

    /** Detaches a whole state. */
    method SnapshotExactJsonObject(value: Item, limit: nat) returns (r: Copied<Json>)
      requires Closed(heap) && InHeap(heap, value) && active == {}
      modifies this`active
      ensures r == Snapshot(heap, value, limit)
      ensures r.Ok? ==> active == {}
    {
      r := CloneItem(value, limit);
      if r.Ok? && !r.value.JObject? {
        r := Err(NotAnObject);
      }
    }
  }

  lemma PrefixedNone(later: Copied<seq<Json>>)
    ensures Prefixed([], later) == later
  {
    assert later.Ok? ==> [] + later.value == later.value;
  }

  lemma PrefixedStep(done: seq<Json>, next: Json, later: Copied<seq<Json>>)
    ensures later.Ok? ==> Prefixed(done, Ok([next] + later.value)) == Prefixed(done + [next], later)
  {
    if later.Ok? {
      assert done + ([next] + later.value) == (done + [next]) + later.value;
    }
  }

  function Prefixed(done: seq<Json>, later: Copied<seq<Json>>): Copied<seq<Json>> {
    match later
    case Err(error) => Err(error)
    case Ok(others) => Ok(done + others)
  }
}
