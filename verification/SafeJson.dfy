/**
 The bounded printer for untrusted values: it walks a heap that may share objects or be cyclic, with one node counter,
 one truncation flag and one set of visited objects for the whole walk.
 */
module SafeJson {
  import opened Options
  import opened Keyed
  import opened FiniteSets

  datatype Primitive = Null | Undefined | Boolean(b: bool) | Number(n: real) | NaN
                     | BigInt(text: string) | Opaque(text: string)   // a symbol or a function, as String prints it

  datatype Value = Str(s: string) | Prim(p: Primitive) | Ref(id: nat)

  /** A plain array or record; the labels of an array are not used. */
  datatype Object = Object(isArray: bool, slots: seq<(string, Value)>)

  type Heap = map<nat, Object>

  datatype Mark = NodeLimit | DepthLimit | Circular

  /** A result: text, a primitive that is kept, a placeholder, or a rebuilt container; array items have no label. */
  datatype Out = Text(s: string) | Kept(p: Primitive) | Marked(m: Mark)
               | Node(isArray: bool, fields: seq<(string, Out)>)

  datatype Limits = Limits(maxDepth: int, maxNodes: int, maxStringLength: nat, maxCharacters: nat)

  datatype State = State(nodes: nat, truncated: bool, seen: set<nat>)

  predicate Dangerous(key: string) {
    key == "__proto__" || key == "prototype" || key == "constructor"
  }

  function DisplayKey(key: string): string {
    if Dangerous(key) then "[blocked:" + key + "]" else key
  }

  predicate InHeap(h: Heap, v: Value) {
    v.Ref? ==> v.id in h
  }

  /** References lead to objects, and a record has one field per key. */
  ghost predicate Plain(h: Heap) {
    forall id :: id in h ==>
      && (forall i :: 0 <= i < |h[id].slots| ==> InHeap(h, h[id].slots[i].1))
      && (!h[id].isArray ==> DistinctKeys(FieldKey<Value>, h[id].slots))
  }

  function Leaf(limits: Limits, v: Value): (Out, bool)
    requires !v.Ref?
  {
    match v
    case Str(s) =>
      if |s| <= limits.maxStringLength then (Text(s), false)
      else (Text(s[..limits.maxStringLength] + "\U{2026}"), true)
    case Prim(BigInt(text)) => (Text(text), false)
    case Prim(Opaque(text)) => (Text(text), false)
    case Prim(p) => (Kept(p), false)
  }

  function Unlabelled(fields: seq<(string, Out)>): seq<(string, Out)> {
    if fields == [] then [] else [("", fields[0].1)] + Unlabelled(fields[1..])
  }

  function Container(isArray: bool, fields: seq<(string, Out)>): Out {
    Node(isArray, if isArray then Unlabelled(fields) else Collect(FieldKey<Out>, fields))
  }

  /** One call of visit: what it returns and what it leaves in the shared variables. */
  function Visit(h: Heap, limits: Limits, v: Value, depth: nat, st: State): (r: (Out, State))
    requires Plain(h) && InHeap(h, v)
    ensures st.seen <= r.1.seen
    decreases h.Keys - st.seen, 0
  {
    var nodes := st.nodes + 1;
    if nodes > limits.maxNodes then (Marked(NodeLimit), State(nodes, true, st.seen))
    else if depth > limits.maxDepth then (Marked(DepthLimit), State(nodes, true, st.seen))
    else if !v.Ref? then
      var (out, cut) := Leaf(limits, v);
      (out, State(nodes, st.truncated || cut, st.seen))
    else if v.id in st.seen then (Marked(Circular), State(nodes, true, st.seen))
    else
      var (fields, after) := VisitSlots(h, limits, h[v.id].isArray, h[v.id].slots, depth + 1,
                                        State(nodes, st.truncated, st.seen + {v.id}));
      (Container(h[v.id].isArray, fields), after)
  }

  /** The children of one object, from left to right. */
  function VisitSlots(h: Heap, limits: Limits, isArray: bool, slots: seq<(string, Value)>, depth: nat, st: State)
    : (r: (seq<(string, Out)>, State))
    requires Plain(h) && forall i :: 0 <= i < |slots| ==> InHeap(h, slots[i].1)
    ensures st.seen <= r.1.seen && |r.0| == |slots|
    decreases h.Keys - st.seen, 1 + |slots|
  {
    if slots == [] then ([], st)
    else
      var blocked := !isArray && Dangerous(slots[0].0);
      var (out, middle) := Visit(h, limits, slots[0].1, depth, st.(truncated := st.truncated || blocked));
      assert h.Keys - middle.seen <= h.Keys - st.seen;
      var (rest, after) := VisitSlots(h, limits, isArray, slots[1..], depth, middle);
      ([(DisplayKey(slots[0].0), out)] + rest, after)
  }

  /** What the loop over the children still makes of the fields it has collected, from position i on. */
  function FromSlot(h: Heap, limits: Limits, isArray: bool, slots: seq<(string, Value)>, depth: nat, i: nat,
                    fields: seq<(string, Out)>, st: State): (seq<(string, Out)>, State)
    requires Plain(h) && i <= |slots| && forall j :: 0 <= j < |slots| ==> InHeap(h, slots[j].1)
  {
    var (rest, after) := VisitSlots(h, limits, isArray, slots[i..], depth, st);
    (fields + rest, after)
  }

  lemma FromFirstSlot(h: Heap, limits: Limits, isArray: bool, slots: seq<(string, Value)>, depth: nat, st: State)
    requires Plain(h) && forall j :: 0 <= j < |slots| ==> InHeap(h, slots[j].1)
    ensures FromSlot(h, limits, isArray, slots, depth, 0, [], st) == VisitSlots(h, limits, isArray, slots, depth, st)
  {
    var all := VisitSlots(h, limits, isArray, slots, depth, st);
    assert slots[0..] == slots && [] + all.0 == all.0;
  }

  lemma FromNextSlot(h: Heap, limits: Limits, isArray: bool, slots: seq<(string, Value)>, depth: nat, i: nat,
                     fields: seq<(string, Out)>, st: State)
    requires Plain(h) && i < |slots| && forall j :: 0 <= j < |slots| ==> InHeap(h, slots[j].1)
    ensures var flagged := st.(truncated := st.truncated || (!isArray && Dangerous(slots[i].0)));
            var (out, middle) := Visit(h, limits, slots[i].1, depth, flagged);
            FromSlot(h, limits, isArray, slots, depth, i, fields, st) ==
            FromSlot(h, limits, isArray, slots, depth, i + 1, fields + [(DisplayKey(slots[i].0), out)], middle)
  {
    var tail := slots[i..];
    assert tail[0] == slots[i] && tail[1..] == slots[i + 1..];
    var flagged := st.(truncated := st.truncated || (!isArray && Dangerous(slots[i].0)));
    var (out, middle) := Visit(h, limits, slots[i].1, depth, flagged);
    var rest := VisitSlots(h, limits, isArray, slots[i + 1..], depth, middle).0;
    assert fields + ([(DisplayKey(slots[i].0), out)] + rest) == fields + [(DisplayKey(slots[i].0), out)] + rest;
  }

  /** The closure over the shared variables. */
  class Sanitizer {
    const heap: Heap
    const limits: Limits
    var nodes: nat
    var truncated: bool
    var seen: set<nat>

    constructor (heap: Heap, limits: Limits)
      ensures this.heap == heap && this.limits == limits && Shared() == State(0, false, {})
    {
      this.heap, this.limits := heap, limits;
      nodes, truncated, seen := 0, false, {};
    }

    function Shared(): State
      reads this
    {
      State(nodes, truncated, seen)
    }

    method VisitValue(v: Value, depth: nat) returns (out: Out)
      requires Plain(heap) && InHeap(heap, v)
      modifies this
      ensures (out, Shared()) == Visit(heap, limits, v, depth, old(Shared()))
      decreases heap.Keys - seen, 0
    {
      nodes := nodes + 1;
      if nodes > limits.maxNodes {
        truncated := true;
        return Marked(NodeLimit);
      }
      if depth > limits.maxDepth {
        truncated := true;
        return Marked(DepthLimit);
      }
      if !v.Ref? {
        var leaf := Leaf(limits, v);
        if leaf.1 {
          truncated := true;
        }
        return leaf.0;
      }
      if v.id in seen {
        truncated := true;
        return Marked(Circular);
      }
      seen := seen + {v.id};
      var fields := VisitChildren(heap[v.id].isArray, heap[v.id].slots, depth + 1);
      return Container(heap[v.id].isArray, fields);
    }

    /** The loop over the entries of a record, and the map over the items of an array. */
    method VisitChildren(isArray: bool, slots: seq<(string, Value)>, depth: nat) returns (fields: seq<(string, Out)>)
      requires Plain(heap) && forall i :: 0 <= i < |slots| ==> InHeap(heap, slots[i].1)
      modifies this
      ensures (fields, Shared()) == VisitSlots(heap, limits, isArray, slots, depth, old(Shared()))
      decreases heap.Keys - seen, 1 + |slots|
    {
      fields := [];
      var i := 0;
      FromFirstSlot(heap, limits, isArray, slots, depth, Shared());
      while i < |slots|
        invariant 0 <= i <= |slots| && old(seen) <= seen
        invariant FromSlot(heap, limits, isArray, slots, depth, i, fields, Shared()) ==
                  VisitSlots(heap, limits, isArray, slots, depth, old(Shared()))
      {
        FromNextSlot(heap, limits, isArray, slots, depth, i, fields, Shared());
        if !isArray && Dangerous(slots[i].0) {
          truncated := true;
        }
        assert heap.Keys - seen <= heap.Keys - old(seen);
        var out := VisitValue(slots[i].1, depth);
        fields := fields + [(DisplayKey(slots[i].0), out)];
        i := i + 1;
      }
      assert fields + [] == fields;
    }
  }

  // ---------------------------------------------------------------- bounds on any heap, cyclic or not

  /** The total weight of a result and everything inside it. */
  function Count(weight: Out -> nat, out: Out): nat {
    weight(out) + if out.Node? then CountAll(weight, out.fields) else 0
  }

  function CountAll(weight: Out -> nat, fields: seq<(string, Out)>): nat {
    if fields == [] then 0 else CountField(weight, fields[0]) + CountAll(weight, fields[1..])
  }

  function CountField(weight: Out -> nat, field: (string, Out)): nat {
    Count(weight, field.1)
  }

  /** Results other than the node-limit placeholder. */
  function RealResult(out: Out): nat {
    if out == Marked(NodeLimit) then 0 else 1
  }

  /** Rebuilt containers. */
  function Expansion(out: Out): nat {
    if out.Node? then 1 else 0
  }

  lemma {:induction false} CountSplit(weight: Out -> nat, a: seq<(string, Out)>, b: seq<(string, Out)>)
    ensures CountAll(weight, a + b) == CountAll(weight, a) + CountAll(weight, b)
  {
    if a == [] {
      assert a + b == b;
    } else {
      CountSplit(weight, a[1..], b);
      assert (a + b)[1..] == a[1..] + b;
    }
  }

  lemma CountOne(weight: Out -> nat, f: (string, Out))
    ensures CountAll(weight, [f]) == Count(weight, f.1)
  {
    assert [f][1..] == [];
    assert CountAll(weight, [f]) == CountField(weight, f) + CountAll(weight, []);
  }

  lemma {:induction false} CountUnlabelled(weight: Out -> nat, fields: seq<(string, Out)>)
    ensures CountAll(weight, Unlabelled(fields)) == CountAll(weight, fields)
  {
    if fields != [] {
      CountUnlabelled(weight, fields[1..]);
      var head := ("", fields[0].1);
      CountSplit(weight, [head], Unlabelled(fields[1..]));
      CountOne(weight, head);
      assert CountField(weight, fields[0]) == Count(weight, fields[0].1);
    }
  }

  /** A field that is set twice only loses weight. */
  lemma {:induction false} CountCollect(weight: Out -> nat, fields: seq<(string, Out)>)
    ensures CountAll(weight, Collect(FieldKey<Out>, fields)) <= CountAll(weight, fields)
  {
    if fields != [] {
      var init, f := fields[..|fields| - 1], fields[|fields| - 1];
      assert fields == init + [f];
      CountCollect(weight, init);
      CountSplit(weight, init, [f]);
      var before := Collect(FieldKey<Out>, init);
      var at := IndexOf(FieldKey<Out>, before, f.0);
      if at < |before| {
        CountReplaced(weight, before, at, f);
      } else {
        CountSplit(weight, before, [f]);
      }
    }
  }

  lemma CountReplaced(weight: Out -> nat, fields: seq<(string, Out)>, at: nat, f: (string, Out))
    requires at < |fields|
    ensures CountAll(weight, fields[at := f]) <= CountAll(weight, fields) + CountAll(weight, [f])
  {
    var before, here, after := fields[..at], [fields[at]], fields[at + 1..];
    assert fields == before + (here + after);
    assert fields[at := f] == before + ([f] + after);
    CountSplit(weight, before, here + after);
    CountSplit(weight, before, [f] + after);
    CountSplit(weight, here, after);
    CountSplit(weight, [f], after);
  }

  lemma CountContainer(weight: Out -> nat, isArray: bool, fields: seq<(string, Out)>)
    ensures var out := Container(isArray, fields); Count(weight, out) <= weight(out) + CountAll(weight, fields)
  {
    CountUnlabelled(weight, fields);
    CountCollect(weight, fields);
  }

  function Room(limits: Limits, st: State): nat {
    if limits.maxNodes > st.nodes then limits.maxNodes - st.nodes else 0
  }

  /** So many real results and expansions lie between two states. */
  ghost predicate Counted(h: Heap, limits: Limits, st: State, results: nat, expansions: nat, after: State) {
    && results + Room(limits, after) <= Room(limits, st)
    && expansions + |st.seen| <= |after.seen|
    && after.seen <= st.seen + h.Keys
  }

  lemma ContainerCounted(h: Heap, limits: Limits, id: nat, fields: seq<(string, Out)>, st: State, after: State)
    requires id in h && id !in st.seen && st.nodes + 1 <= limits.maxNodes
    requires Counted(h, limits, State(st.nodes + 1, st.truncated, st.seen + {id}), CountAll(RealResult, fields),
                     CountAll(Expansion, fields), after)
    ensures var out := Container(h[id].isArray, fields);
            Counted(h, limits, st, Count(RealResult, out), Count(Expansion, out), after)
  {
    CountContainer(RealResult, h[id].isArray, fields);
    CountContainer(Expansion, h[id].isArray, fields);
  }

  /** Results use up the node budget, and every expansion marks an object that was not marked before. */
  lemma {:induction false} VisitCounts(h: Heap, limits: Limits, v: Value, depth: nat, st: State)
    requires Plain(h) && InHeap(h, v)
    ensures var (out, after) := Visit(h, limits, v, depth, st);
            Counted(h, limits, st, Count(RealResult, out), Count(Expansion, out), after)
    decreases h.Keys - st.seen, 0
  {
    var (out, after) := Visit(h, limits, v, depth, st);
    if st.nodes + 1 <= limits.maxNodes && depth <= limits.maxDepth && v.Ref? && v.id !in st.seen {
      var inner := State(st.nodes + 1, st.truncated, st.seen + {v.id});
      SlotsCount(h, limits, h[v.id].isArray, h[v.id].slots, depth + 1, inner);
      var fields := VisitSlots(h, limits, h[v.id].isArray, h[v.id].slots, depth + 1, inner).0;
      ContainerCounted(h, limits, v.id, fields, st, after);
    }
  }

  lemma {:induction false} SlotsCount(h: Heap, limits: Limits, isArray: bool, slots: seq<(string, Value)>, depth: nat,
                                      st: State)
    requires Plain(h) && forall i :: 0 <= i < |slots| ==> InHeap(h, slots[i].1)
    ensures var (fields, after) := VisitSlots(h, limits, isArray, slots, depth, st);
            Counted(h, limits, st, CountAll(RealResult, fields), CountAll(Expansion, fields), after)
    decreases h.Keys - st.seen, 1 + |slots|
  {
    hide Count, CountAll, Counted, Dangerous, DisplayKey;
    if slots == [] {
      NothingCounted(h, limits, st);
    } else {
      var flagged := st.(truncated := st.truncated || (!isArray && Dangerous(slots[0].0)));
      VisitCounts(h, limits, slots[0].1, depth, flagged);
      var (out, middle) := Visit(h, limits, slots[0].1, depth, flagged);
      assert h.Keys - middle.seen <= h.Keys - st.seen;
      SlotsCount(h, limits, isArray, slots[1..], depth, middle);
      var (rest, after) := VisitSlots(h, limits, isArray, slots[1..], depth, middle);
      CountedMore(h, limits, st, flagged, (DisplayKey(slots[0].0), out), middle, rest, after);
    }
  }

  lemma NothingCounted(h: Heap, limits: Limits, st: State)
    ensures Counted(h, limits, st, CountAll(RealResult, []), CountAll(Expansion, []), st)
  {
  }

  lemma CountHead(weight: Out -> nat, head: (string, Out), rest: seq<(string, Out)>)
    ensures CountAll(weight, [head] + rest) == Count(weight, head.1) + CountAll(weight, rest)
  {
    CountSplit(weight, [head], rest);
    CountOne(weight, head);
  }

  lemma CountedMore(h: Heap, limits: Limits, st: State, flagged: State, head: (string, Out), middle: State,
                    rest: seq<(string, Out)>, after: State)
    requires flagged.nodes == st.nodes && flagged.seen == st.seen
    requires Counted(h, limits, flagged, Count(RealResult, head.1), Count(Expansion, head.1), middle)
    requires Counted(h, limits, middle, CountAll(RealResult, rest), CountAll(Expansion, rest), after)
    ensures Counted(h, limits, st, CountAll(RealResult, [head] + rest), CountAll(Expansion, [head] + rest), after)
  {
    hide Count, CountAll;
    CountHead(RealResult, head, rest);
    CountHead(Expansion, head, rest);
  }

  /** The number of container levels in a result. */
  function Levels(out: Out): nat {
    if out.Node? then 1 + LevelsAll(out.fields) else 0
  }

  function LevelsAll(fields: seq<(string, Out)>): nat {
    if fields == [] then 0
    else
      var here := LevelsField(fields[0]);
      var rest := LevelsAll(fields[1..]);
      if here > rest then here else rest
  }

  function LevelsField(field: (string, Out)): nat {
    Levels(field.1)
  }

  /** No blocked key anywhere in a result. */
  predicate Clean(out: Out) {
    out.Node? ==> CleanAll(out.fields)
  }

  predicate CleanAll(fields: seq<(string, Out)>) {
    fields == [] || (CleanField(fields[0]) && CleanAll(fields[1..]))
  }

  predicate CleanField(field: (string, Out)) {
    !Dangerous(field.0) && Clean(field.1)
  }

  /** Both are properties of the members alone. */
  lemma {:induction false} MembersDecide(fields: seq<(string, Out)>, bound: nat)
    ensures LevelsAll(fields) <= bound <==> forall i :: 0 <= i < |fields| ==> Levels(fields[i].1) <= bound
    ensures CleanAll(fields) <==> forall i :: 0 <= i < |fields| ==> CleanField(fields[i])
  {
    if fields != [] {
      MembersDecide(fields[1..], bound);
      assert fields == [fields[0]] + fields[1..];
      assert LevelsField(fields[0]) == Levels(fields[0].1);
    }
  }

  lemma {:induction false} UnlabelledMembers(fields: seq<(string, Out)>)
    ensures |Unlabelled(fields)| == |fields|
    ensures forall i :: 0 <= i < |fields| ==> Unlabelled(fields)[i] == ("", fields[i].1)
  {
    if fields != [] {
      UnlabelledMembers(fields[1..]);
    }
  }

  lemma ContainerShape(isArray: bool, fields: seq<(string, Out)>, bound: nat)
    requires LevelsAll(fields) <= bound && CleanAll(fields)
    ensures Levels(Container(isArray, fields)) <= 1 + bound && Clean(Container(isArray, fields))
  {
    var inner := if isArray then Unlabelled(fields) else Collect(FieldKey<Out>, fields);
    MembersDecide(fields, bound);
    MembersDecide(inner, bound);
    if isArray {
      UnlabelledMembers(fields);
      forall i | 0 <= i < |inner|
        ensures Levels(inner[i].1) <= bound && CleanField(inner[i])
      {
        assert CleanField(fields[i]);
        assert inner[i] == ("", fields[i].1);
      }
    } else {
      CollectMembers(FieldKey<Out>, fields);
      forall i | 0 <= i < |inner|
        ensures Levels(inner[i].1) <= bound && CleanField(inner[i])
      {
        assert inner[i] in fields;
      }
    }
  }

  lemma DisplayKeyIsSafe(key: string)
    ensures !Dangerous(DisplayKey(key))
  {
    if Dangerous(key) {
      assert DisplayKey(key)[0] == '[';
    }
  }

  /** A placeholder stands at most one level below the depth limit, and no blocked key survives. */
  lemma {:induction false} VisitShape(h: Heap, limits: Limits, v: Value, depth: nat, st: State)
    requires Plain(h) && InHeap(h, v)
    ensures var out := Visit(h, limits, v, depth, st).0;
            Clean(out) && Levels(out) <= (if depth <= limits.maxDepth then limits.maxDepth + 1 - depth else 0)
    decreases h.Keys - st.seen, 0
  {
    if st.nodes + 1 <= limits.maxNodes && depth <= limits.maxDepth && v.Ref? && v.id !in st.seen {
      var inner := State(st.nodes + 1, st.truncated, st.seen + {v.id});
      SlotsShape(h, limits, h[v.id].isArray, h[v.id].slots, depth + 1, inner);
      var fields := VisitSlots(h, limits, h[v.id].isArray, h[v.id].slots, depth + 1, inner).0;
      ContainerShape(h[v.id].isArray, fields, limits.maxDepth - depth);
    }
  }

  lemma {:induction false} SlotsShape(h: Heap, limits: Limits, isArray: bool, slots: seq<(string, Value)>, depth: nat,
                                      st: State)
    requires Plain(h) && forall i :: 0 <= i < |slots| ==> InHeap(h, slots[i].1)
    ensures var fields := VisitSlots(h, limits, isArray, slots, depth, st).0;
            && CleanAll(fields)
            && LevelsAll(fields) <= (if depth <= limits.maxDepth then limits.maxDepth + 1 - depth else 0)
    decreases h.Keys - st.seen, 1 + |slots|
  {
    if slots != [] {
      var flagged := st.(truncated := st.truncated || (!isArray && Dangerous(slots[0].0)));
      VisitShape(h, limits, slots[0].1, depth, flagged);
      var (out, middle) := Visit(h, limits, slots[0].1, depth, flagged);
      assert h.Keys - middle.seen <= h.Keys - st.seen;
      SlotsShape(h, limits, isArray, slots[1..], depth, middle);
      DisplayKeyIsSafe(slots[0].0);
      assert LevelsField((DisplayKey(slots[0].0), out)) == Levels(out);
      assert CleanField((DisplayKey(slots[0].0), out));
    }
  }

  // ---------------------------------------------------------------- faithful unless flagged

  /** What is reachable from a value, written out as a tree: a shared object occurs once per path to it. */
  datatype Tree = Tip(v: Value) | Branch(id: nat, isArray: bool, kids: seq<(string, Tree)>)

  /** The tree below a value if it has no more than room further levels. */
  function Unfold(h: Heap, v: Value, room: int): Option<Tree>
    requires Plain(h) && InHeap(h, v)
    decreases if room < 0 then 0 else room + 1, 0
  {
    if room < 0 then None
    else if !v.Ref? then Some(Tip(v))
    else match UnfoldAll(h, h[v.id].slots, room - 1)
      case None => None
      case Some(kids) => Some(Branch(v.id, h[v.id].isArray, kids))
  }

  function UnfoldAll(h: Heap, slots: seq<(string, Value)>, room: int): Option<seq<(string, Tree)>>
    requires Plain(h) && forall i :: 0 <= i < |slots| ==> InHeap(h, slots[i].1)
    decreases if room < 0 then 0 else room + 1, 1 + |slots|
  {
    if slots == [] then Some([])
    else match Unfold(h, slots[0].1, room)
      case None => None
      case Some(kid) =>
        match UnfoldAll(h, slots[1..], room)
        case None => None
        case Some(rest) => Some([(slots[0].0, kid)] + rest)
  }

  function Size(t: Tree): nat {
    1 + if t.Branch? then SizeAll(t.kids) else 0
  }

  function SizeAll(kids: seq<(string, Tree)>): nat {
    if kids == [] then 0 else SizeKid(kids[0]) + SizeAll(kids[1..])
  }

  function SizeKid(kid: (string, Tree)): nat {
    Size(kid.1)
  }

  /** The objects of a tree, one occurrence per path. */
  function Objects(t: Tree): seq<nat> {
    if t.Tip? then [] else [t.id] + ObjectsAll(t.kids)
  }

  function ObjectsAll(kids: seq<(string, Tree)>): seq<nat> {
    if kids == [] then [] else ObjectsKid(kids[0]) + ObjectsAll(kids[1..])
  }

  function ObjectsKid(kid: (string, Tree)): seq<nat> {
    Objects(kid.1)
  }

  /** Every text is short enough and no record has a blocked key. */
  predicate Presentable(limits: Limits, t: Tree)
    decreases t
  {
    match t
    case Tip(v) => v.Str? ==> |v.s| <= limits.maxStringLength
    case Branch(_, isArray, kids) => PresentableAll(limits, isArray, kids)
  }

  predicate PresentableAll(limits: Limits, isArray: bool, kids: seq<(string, Tree)>)
    decreases kids
  {
    kids == [] || (PresentableKid(limits, isArray, kids[0]) && PresentableAll(limits, isArray, kids[1..]))
  }

  predicate PresentableKid(limits: Limits, isArray: bool, kid: (string, Tree))
    decreases kid
  {
    (isArray || !Dangerous(kid.0)) && Presentable(limits, kid.1)
  }

  /** Pairwise different, and none of them seen before: together with an empty seen, the heap part is a tree. */
  ghost predicate Unshared(ids: seq<nat>, seen: set<nat>) {
    && (forall i, j :: 0 <= i < j < |ids| ==> ids[i] != ids[j])
    && forall i :: 0 <= i < |ids| ==> ids[i] !in seen
  }

  ghost predicate Fits(h: Heap, limits: Limits, v: Value, depth: nat, st: State)
    requires Plain(h) && InHeap(h, v)
  {
    var t := Unfold(h, v, limits.maxDepth - depth);
    && t.Some?
    && st.nodes + Size(t.value) <= limits.maxNodes
    && Presentable(limits, t.value)
    && Unshared(Objects(t.value), st.seen)
  }

  ghost predicate FitsAll(h: Heap, limits: Limits, isArray: bool, slots: seq<(string, Value)>, depth: nat, st: State)
    requires Plain(h) && forall i :: 0 <= i < |slots| ==> InHeap(h, slots[i].1)
  {
    var kids := UnfoldAll(h, slots, limits.maxDepth - depth);
    && kids.Some?
    && (st.nodes + SizeAll(kids.value) <= limits.maxNodes || kids.value == [])
    && PresentableAll(limits, isArray, kids.value)
    && Unshared(ObjectsAll(kids.value), st.seen)
  }

  function SetOf(ids: seq<nat>): set<nat> {
    set i | 0 <= i < |ids| :: ids[i]
  }

  lemma UnsharedConcat(a: seq<nat>, b: seq<nat>, seen: set<nat>)
    ensures Unshared(a + b, seen) <==> Unshared(a, seen) && Unshared(b, seen + SetOf(a))
    ensures SetOf(a + b) == SetOf(a) + SetOf(b)
  {
    var c := a + b;
    assert forall i :: 0 <= i < |a| ==> c[i] == a[i];
    assert forall i :: 0 <= i < |b| ==> c[i + |a|] == b[i];
    if Unshared(c, seen) {
      forall i | 0 <= i < |b|
        ensures b[i] !in seen + SetOf(a)
      {
        assert c[i + |a|] == b[i];
      }
      forall i, j | 0 <= i < j < |b|
        ensures b[i] != b[j]
      {
        assert c[i + |a|] != c[j + |a|];
      }
    }
    if Unshared(a, seen) && Unshared(b, seen + SetOf(a)) {
      forall i, j | 0 <= i < j < |c|
        ensures c[i] != c[j]
      {
        assert j >= |a| ==> c[j] == b[j - |a|];
        assert i >= |a| ==> c[i] == b[i - |a|];
        assert i < |a| ==> c[i] in SetOf(a);
      }
    }
    forall x
      ensures x in SetOf(c) <==> x in SetOf(a) + SetOf(b)
    {
      if x in SetOf(c) {
        var i :| 0 <= i < |c| && c[i] == x;
        assert i < |a| ==> a[i] == x;
        assert i >= |a| ==> b[i - |a|] == x;
      }
      if x in SetOf(b) {
        var i :| 0 <= i < |b| && b[i] == x;
        assert c[i + |a|] == x;
      }
      if x in SetOf(a) {
        var i :| 0 <= i < |a| && a[i] == x;
        assert c[i] == x;
      }
    }
  }

  /** A result says the same as a value: equal contents, with big integers, symbols and functions as text. */
  predicate Denotes(h: Heap, v: Value, out: Out)
    decreases out
  {
    match out
    case Text(s) => v == Str(s) || v == Prim(BigInt(s)) || v == Prim(Opaque(s))
    case Kept(p) => v == Prim(p)
    case Marked(_) => false
    case Node(isArray, fields) =>
      v.Ref? && v.id in h && isArray == h[v.id].isArray && DenotesAll(h, isArray, h[v.id].slots, fields)
  }

  predicate DenotesAll(h: Heap, isArray: bool, slots: seq<(string, Value)>, fields: seq<(string, Out)>)
    decreases fields
  {
    |slots| == |fields| && (fields == [] || (DenotesField(h, isArray, slots[0], fields[0])
                                             && DenotesAll(h, isArray, slots[1..], fields[1..])))
  }

  predicate DenotesField(h: Heap, isArray: bool, slot: (string, Value), field: (string, Out))
    decreases field
  {
    field.0 == (if isArray then "" else slot.0) && Denotes(h, slot.1, field.1)
  }

  /** The results of the children, before they are put into a container. */
  ghost predicate SlotsDenote(h: Heap, isArray: bool, slots: seq<(string, Value)>, fields: seq<(string, Out)>) {
    && |fields| == |slots|
    && forall i :: 0 <= i < |slots| ==>
         && fields[i].0 == DisplayKey(slots[i].0)
         && Denotes(h, slots[i].1, fields[i].1)
         && (isArray || !Dangerous(slots[i].0))
  }

  lemma {:induction false} DenotesSlotwise(h: Heap, isArray: bool, slots: seq<(string, Value)>,
                                           fields: seq<(string, Out)>)
    requires |slots| == |fields|
    requires forall i :: 0 <= i < |slots| ==> DenotesField(h, isArray, slots[i], fields[i])
    ensures DenotesAll(h, isArray, slots, fields)
  {
    if slots != [] {
      DenotesSlotwise(h, isArray, slots[1..], fields[1..]);
    }
  }

  /** A container of faithful results is a faithful result; distinct keys are what keeps every field of a record. */
  lemma ContainerDenotes(h: Heap, v: Value, fields: seq<(string, Out)>)
    requires Plain(h) && v.Ref? && v.id in h && SlotsDenote(h, h[v.id].isArray, h[v.id].slots, fields)
    ensures Denotes(h, v, Container(h[v.id].isArray, fields))
  {
    var isArray, slots := h[v.id].isArray, h[v.id].slots;
    if isArray {
      UnlabelledMembers(fields);
      DenotesSlotwise(h, true, slots, Unlabelled(fields));
    } else {
      forall i, j | 0 <= i < j < |fields|
        ensures FieldKey(fields[i]) != FieldKey(fields[j])
      {
        assert FieldKey(slots[i]) != FieldKey(slots[j]);
      }
      CollectDistinct(FieldKey<Out>, fields);
      DenotesSlotwise(h, false, slots, fields);
    }
  }

  lemma FitsObject(h: Heap, limits: Limits, v: Value, depth: nat, st: State)
    requires Plain(h) && InHeap(h, v) && v.Ref?
    ensures Fits(h, limits, v, depth, st) <==>
            && st.nodes + 1 <= limits.maxNodes && depth <= limits.maxDepth && v.id !in st.seen
            && FitsAll(h, limits, h[v.id].isArray, h[v.id].slots, depth + 1,
                       State(st.nodes + 1, false, st.seen + {v.id}))
  {
    var kids := UnfoldAll(h, h[v.id].slots, limits.maxDepth - (depth + 1));
    if kids.Some? && depth <= limits.maxDepth {
      var t := Branch(v.id, h[v.id].isArray, kids.value);
      assert Unfold(h, v, limits.maxDepth - depth) == Some(t);
      assert Size(t) == 1 + SizeAll(kids.value) && (kids.value == [] ==> SizeAll(kids.value) == 0);
      assert Presentable(limits, t) <==> PresentableAll(limits, h[v.id].isArray, kids.value);
      OneMoreObject(v.id, ObjectsAll(kids.value), st.seen);
    }
  }

  lemma OneMoreObject(id: nat, ids: seq<nat>, seen: set<nat>)
    ensures Unshared([id] + ids, seen) <==> id !in seen && Unshared(ids, seen + {id})
    ensures SetOf([id] + ids) == {id} + SetOf(ids)
  {
    UnsharedConcat([id], ids, seen);
    assert SetOf([id]) == {id} by {
      assert [id][0] == id;
    }
  }

  lemma FitsHeadAndTail(h: Heap, limits: Limits, isArray: bool, slots: seq<(string, Value)>, depth: nat, st: State)
    requires Plain(h) && slots != [] && forall i :: 0 <= i < |slots| ==> InHeap(h, slots[i].1)
    ensures FitsAll(h, limits, isArray, slots, depth, st) <==>
            && (isArray || !Dangerous(slots[0].0))
            && Fits(h, limits, slots[0].1, depth, st)
            && var t := Unfold(h, slots[0].1, limits.maxDepth - depth).value;
               FitsAll(h, limits, isArray, slots[1..], depth,
                       State(st.nodes + Size(t), false, st.seen + SetOf(Objects(t))))
  {
    hide Unshared, SetOf, Dangerous;
    var room := limits.maxDepth - depth;
    var head, rest := Unfold(h, slots[0].1, room), UnfoldAll(h, slots[1..], room);
    if head.Some? && rest.Some? {
      var kids := [(slots[0].0, head.value)] + rest.value;
      assert kids[0] == (slots[0].0, head.value) && kids[1..] == rest.value;
      assert SizeAll(kids) == Size(head.value) + SizeAll(rest.value);
      assert ObjectsKid(kids[0]) == Objects(head.value);
      UnsharedConcat(Objects(head.value), ObjectsAll(rest.value), st.seen);
      assert PresentableAll(limits, isArray, kids) <==>
             PresentableKid(limits, isArray, kids[0]) && PresentableAll(limits, isArray, rest.value);
      if rest.value == [] {
        assert SizeAll(rest.value) == 0;
      }
    }
  }

  /**
   The flag stays down exactly when the reachable part is a tree within all limits and without a blocked key, and then
   the result says the same as the input; the counter and the visited set grow by exactly that tree.
   */
  ghost predicate Faithful(h: Heap, limits: Limits, v: Value, depth: nat, st: State, out: Out, after: State)
    requires Plain(h) && InHeap(h, v)
  {
    && (st.truncated ==> after.truncated)
    && (!st.truncated ==> (!after.truncated <==> Fits(h, limits, v, depth, st)))
    && (!after.truncated ==>
          && Denotes(h, v, out)
          && var t := Unfold(h, v, limits.maxDepth - depth);
             t.Some? && after == State(st.nodes + Size(t.value), false, st.seen + SetOf(Objects(t.value))))
  }

  /** The same for the children of one object. */
  ghost predicate FaithfulAll(h: Heap, limits: Limits, isArray: bool, slots: seq<(string, Value)>, depth: nat,
                              st: State, fields: seq<(string, Out)>, after: State)
    requires Plain(h) && forall i :: 0 <= i < |slots| ==> InHeap(h, slots[i].1)
  {
    && (st.truncated ==> after.truncated)
    && (!st.truncated ==> (!after.truncated <==> FitsAll(h, limits, isArray, slots, depth, st)))
    && (!after.truncated ==>
          && SlotsDenote(h, isArray, slots, fields)
          && var kids := UnfoldAll(h, slots, limits.maxDepth - depth);
             && kids.Some?
             && after == State(st.nodes + SizeAll(kids.value), false, st.seen + SetOf(ObjectsAll(kids.value))))
  }

  lemma {:induction false} VisitFaithful(h: Heap, limits: Limits, v: Value, depth: nat, st: State)
    requires Plain(h) && InHeap(h, v)
    ensures var (out, after) := Visit(h, limits, v, depth, st); Faithful(h, limits, v, depth, st, out, after)
    decreases h.Keys - st.seen, 0
  {
    if !v.Ref? {
      assert SetOf([]) == {};
    } else if st.nodes + 1 <= limits.maxNodes && depth <= limits.maxDepth && v.id !in st.seen {
      hide Faithful, FaithfulAll;
      var inner := State(st.nodes + 1, st.truncated, st.seen + {v.id});
      SlotsFaithful(h, limits, h[v.id].isArray, h[v.id].slots, depth + 1, inner);
      var (fields, after) := VisitSlots(h, limits, h[v.id].isArray, h[v.id].slots, depth + 1, inner);
      ObjectFaithful(h, limits, v, depth, st, fields, after);
    } else {
      FitsObject(h, limits, v, depth, st);
    }
  }

  /** A rebuilt object is faithful when its children are. */
  lemma ObjectFaithful(h: Heap, limits: Limits, v: Value, depth: nat, st: State, fields: seq<(string, Out)>,
                       after: State)
    requires Plain(h) && InHeap(h, v) && v.Ref?
    requires st.nodes + 1 <= limits.maxNodes && depth <= limits.maxDepth && v.id !in st.seen
    requires FaithfulAll(h, limits, h[v.id].isArray, h[v.id].slots, depth + 1,
                         State(st.nodes + 1, st.truncated, st.seen + {v.id}), fields, after)
    ensures Faithful(h, limits, v, depth, st, Container(h[v.id].isArray, fields), after)
  {
    FitsObject(h, limits, v, depth, st);
    if !after.truncated {
      ContainerDenotes(h, v, fields);
      ObjectStep(h, limits, v, depth, st);
    }
  }

  lemma ObjectStep(h: Heap, limits: Limits, v: Value, depth: nat, st: State)
    requires Plain(h) && InHeap(h, v) && v.Ref? && Fits(h, limits, v, depth, st)
    ensures var t := Unfold(h, v, limits.maxDepth - depth).value;
            var kids := UnfoldAll(h, h[v.id].slots, limits.maxDepth - depth - 1);
            && kids.Some?
            && Size(t) == 1 + SizeAll(kids.value)
            && SetOf(Objects(t)) == {v.id} + SetOf(ObjectsAll(kids.value))
  {
    var kids := UnfoldAll(h, h[v.id].slots, limits.maxDepth - depth - 1).value;
    OneMoreObject(v.id, ObjectsAll(kids), {});
  }

  lemma {:induction false} SlotsFaithful(h: Heap, limits: Limits, isArray: bool, slots: seq<(string, Value)>,
                                         depth: nat, st: State)
    requires Plain(h) && forall i :: 0 <= i < |slots| ==> InHeap(h, slots[i].1)
    ensures var (fields, after) := VisitSlots(h, limits, isArray, slots, depth, st);
            FaithfulAll(h, limits, isArray, slots, depth, st, fields, after)
    decreases h.Keys - st.seen, 1 + |slots|
  {
    if slots == [] {
      assert SetOf([]) == {};
    } else {
      var flagged := st.(truncated := st.truncated || (!isArray && Dangerous(slots[0].0)));
      VisitFaithful(h, limits, slots[0].1, depth, flagged);
      var (out, middle) := Visit(h, limits, slots[0].1, depth, flagged);
      assert h.Keys - middle.seen <= h.Keys - st.seen;
      SlotsFaithful(h, limits, isArray, slots[1..], depth, middle);
      var (rest, after) := VisitSlots(h, limits, isArray, slots[1..], depth, middle);
      FaithfulMore(h, limits, isArray, slots, depth, st, out, middle, rest, after);
    }
  }

  /** A faithful first child and faithful others are faithful together. */
  lemma FaithfulMore(h: Heap, limits: Limits, isArray: bool, slots: seq<(string, Value)>, depth: nat, st: State,
                     out: Out, middle: State, rest: seq<(string, Out)>, after: State)
    requires Plain(h) && slots != [] && forall i :: 0 <= i < |slots| ==> InHeap(h, slots[i].1)
    requires var flagged := st.(truncated := st.truncated || (!isArray && Dangerous(slots[0].0)));
             Faithful(h, limits, slots[0].1, depth, flagged, out, middle)
    requires FaithfulAll(h, limits, isArray, slots[1..], depth, middle, rest, after)
    ensures FaithfulAll(h, limits, isArray, slots, depth, st, [(DisplayKey(slots[0].0), out)] + rest, after)
  {
    hide Denotes, SlotsDenote, SetOf, Unshared, Fits, FitsAll, Dangerous, DisplayKey;
    FitsHeadAndTail(h, limits, isArray, slots, depth, st);
    if !after.truncated {
      SlotsDenoteMore(h, isArray, slots, out, rest);
      TailStep(h, limits, slots, depth);
    }
  }

  lemma SlotsDenoteMore(h: Heap, isArray: bool, slots: seq<(string, Value)>, out: Out, rest: seq<(string, Out)>)
    requires slots != [] && Denotes(h, slots[0].1, out) && (isArray || !Dangerous(slots[0].0))
    requires SlotsDenote(h, isArray, slots[1..], rest)
    ensures SlotsDenote(h, isArray, slots, [(DisplayKey(slots[0].0), out)] + rest)
  {
    var fields := [(DisplayKey(slots[0].0), out)] + rest;
    forall i | 0 < i < |slots|
      ensures fields[i] == rest[i - 1] && slots[i] == slots[1..][i - 1]
    {
    }
  }

  lemma TailStep(h: Heap, limits: Limits, slots: seq<(string, Value)>, depth: nat)
    requires Plain(h) && slots != [] && forall i :: 0 <= i < |slots| ==> InHeap(h, slots[i].1)
    requires UnfoldAll(h, slots, limits.maxDepth - depth).Some?
    ensures var room := limits.maxDepth - depth;
            var kids, rest := UnfoldAll(h, slots, room).value, UnfoldAll(h, slots[1..], room);
            var t := Unfold(h, slots[0].1, room);
            && t.Some? && rest.Some?
            && SizeAll(kids) == Size(t.value) + SizeAll(rest.value)
            && SetOf(ObjectsAll(kids)) == SetOf(Objects(t.value)) + SetOf(ObjectsAll(rest.value))
  {
    var room := limits.maxDepth - depth;
    var kids, rest := UnfoldAll(h, slots, room).value, UnfoldAll(h, slots[1..], room).value;
    var t := Unfold(h, slots[0].1, room).value;
    assert kids[0] == (slots[0].0, t) && kids[1..] == rest;
    assert SizeKid(kids[0]) == Size(t) && ObjectsKid(kids[0]) == Objects(t);
    UnsharedConcat(Objects(t), ObjectsAll(rest), {});
  }

  // ---------------------------------------------------------------- the displayed text

  datatype Display = Display(text: string, truncated: bool)

  const START := State(0, false, {})

  /** JSON.stringify is a parameter; it has no text for an undefined top-level value. */
  function Sanitize(h: Heap, limits: Limits, render: Out -> Option<string>, v: Value): Display
    requires Plain(h) && InHeap(h, v)
  {
    var (out, after) := Visit(h, limits, v, 0, START);
    var text := Shown(render, out);
    if |text| > limits.maxCharacters then Display(text[..limits.maxCharacters] + "\n\U{2026}", true)
    else Display(text, after.truncated)
  }

  function Shown(render: Out -> Option<string>, out: Out): string {
    if render(out).Some? then render(out).value else "null"
  }

  method SanitizeForDisplay(h: Heap, limits: Limits, render: Out -> Option<string>, v: Value) returns (d: Display)
    requires Plain(h) && InHeap(h, v)
    ensures d == Sanitize(h, limits, render, v)
  {
    var sanitizer := new Sanitizer(h, limits);
    var out := sanitizer.VisitValue(v, 0);
    var text := if render(out).Some? then render(out).value else "null";
    var truncated := sanitizer.truncated;
    if |text| > limits.maxCharacters {
      text := text[..limits.maxCharacters] + "\n\U{2026}";
      truncated := true;
    }
    return Display(text, truncated);
  }

  /**
   What is displayed unflagged is the whole input: the flag is down if and only if the reachable part of the heap is a
   tree within the node, depth, string and text limits and without a blocked key.
   */
  lemma FaithfulUnlessFlagged(h: Heap, limits: Limits, render: Out -> Option<string>, v: Value)
    requires Plain(h) && InHeap(h, v)
    ensures var d := Sanitize(h, limits, render, v);
            var out := Visit(h, limits, v, 0, START).0;
            && (!d.truncated <==> Fits(h, limits, v, 0, START) && |Shown(render, out)| <= limits.maxCharacters)
            && (!d.truncated ==> Denotes(h, v, out) && d.text == Shown(render, out))
  {
    VisitFaithful(h, limits, v, 0, START);
  }

  /** Whatever the heap, cycles included, the result and the text are bounded and no blocked key is displayed. */
  lemma AlwaysBounded(h: Heap, limits: Limits, render: Out -> Option<string>, v: Value)
    requires Plain(h) && InHeap(h, v)
    ensures var out := Visit(h, limits, v, 0, START).0;
            && Count(RealResult, out) <= (if limits.maxNodes > 0 then limits.maxNodes else 0)
            && Count(Expansion, out) <= |h|
            && Levels(out) <= (if limits.maxDepth >= 0 then limits.maxDepth + 1 else 0)
            && Clean(out)
            && |Sanitize(h, limits, render, v).text| <= limits.maxCharacters + 2
  {
    VisitCounts(h, limits, v, 0, START);
    VisitShape(h, limits, v, 0, START);
    SubsetSize(Visit(h, limits, v, 0, START).1.seen, h.Keys);
  }
}
