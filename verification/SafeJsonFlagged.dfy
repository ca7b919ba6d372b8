/**
 What the bounded printer shows when something had to be cut: the flag itself changes nothing, each placeholder stands
 exactly where its limit is passed, and everything else is there.
 */
module SafeJsonFlagged {
  import opened Options
  import opened Keyed
  import opened SafeJson

  // ---------------------------------------------------------------- the flag is only reported

  /** Two walks that differ in the flag alone show the same and count the same. */
  lemma {:induction false} FlagHasNoInfluence(h: Heap, limits: Limits, v: Value, depth: nat, st: State, flag: bool)
    requires Plain(h) && InHeap(h, v)
    ensures var (out, after) := Visit(h, limits, v, depth, st);
            var (out', after') := Visit(h, limits, v, depth, st.(truncated := flag));
            out' == out && after' == after.(truncated := after'.truncated)
    decreases h.Keys - st.seen, 0
  {
    hide VisitSlots, Container, Leaf;
    if st.nodes + 1 <= limits.maxNodes && depth <= limits.maxDepth && v.Ref? && v.id !in st.seen {
      var inner := State(st.nodes + 1, st.truncated, st.seen + {v.id});
      FlagHasNoInfluenceOnSlots(h, limits, h[v.id].isArray, h[v.id].slots, depth + 1, inner, flag);
    }
  }

  lemma {:induction false} FlagHasNoInfluenceOnSlots(h: Heap, limits: Limits, isArray: bool,
                                                     slots: seq<(string, Value)>, depth: nat, st: State, flag: bool)
    requires Plain(h) && forall i :: 0 <= i < |slots| ==> InHeap(h, slots[i].1)
    ensures var (fields, after) := VisitSlots(h, limits, isArray, slots, depth, st);
            var (fields', after') := VisitSlots(h, limits, isArray, slots, depth, st.(truncated := flag));
            fields' == fields && after' == after.(truncated := after'.truncated)
    decreases h.Keys - st.seen, 1 + |slots|
  {
    if slots != [] {
      var blocked := !isArray && Dangerous(slots[0].0);
      var one := st.(truncated := st.truncated || blocked);
      FlagHasNoInfluence(h, limits, slots[0].1, depth, one, flag || blocked);
      var middle := Visit(h, limits, slots[0].1, depth, one).1;
      var middle' := Visit(h, limits, slots[0].1, depth, one.(truncated := flag || blocked)).1;
      assert h.Keys - middle.seen <= h.Keys - st.seen;
      FlagHasNoInfluenceOnSlots(h, limits, isArray, slots[1..], depth, middle, middle'.truncated);
    }
  }

  // ---------------------------------------------------------------- which placeholder stands where

  /** A visit within the node and the depth limit. */
  predicate Within(limits: Limits, depth: nat, st: State) {
    st.nodes + 1 <= limits.maxNodes && depth <= limits.maxDepth
  }

  /** Each placeholder has its one cause, and then nothing is walked but one node is counted and the flag is up. */
  lemma PlaceholderIff(h: Heap, limits: Limits, v: Value, depth: nat, st: State)
    requires Plain(h) && InHeap(h, v)
    ensures var (out, after) := Visit(h, limits, v, depth, st);
            && (out == Marked(NodeLimit) <==> st.nodes + 1 > limits.maxNodes)
            && (out == Marked(DepthLimit) <==> st.nodes + 1 <= limits.maxNodes && depth > limits.maxDepth)
            && (out == Marked(Circular) <==> Within(limits, depth, st) && v.Ref? && v.id in st.seen)
            && (out.Marked? ==> after == State(st.nodes + 1, true, st.seen))
            && (out.Node? <==> Within(limits, depth, st) && v.Ref? && v.id !in st.seen)
  {
  }

  /** A text is cut exactly behind the limit, whatever happened before, and otherwise stands as it is. */
  lemma TextIsShown(h: Heap, limits: Limits, s: string, depth: nat, st: State)
    requires Plain(h) && Within(limits, depth, st)
    ensures var (out, after) := Visit(h, limits, Str(s), depth, st);
            && out.Text?
            && (|s| <= limits.maxStringLength ==> out.s == s && after == State(st.nodes + 1, st.truncated, st.seen))
            && (|s| > limits.maxStringLength ==>
                  && |out.s| == limits.maxStringLength + 1 && out.s[|out.s| - 1] == '\U{2026}'
                  && (forall i :: 0 <= i < limits.maxStringLength ==> out.s[i] == s[i])
                  && after == State(st.nodes + 1, true, st.seen))
  {
  }

  /** Other primitives are kept, but a bigint, a symbol and a function are shown as text of any length. */
  lemma PrimitiveIsShown(h: Heap, limits: Limits, p: Primitive, depth: nat, st: State)
    requires Plain(h) && Within(limits, depth, st)
    ensures var (out, after) := Visit(h, limits, Prim(p), depth, st);
            && out == (if p.BigInt? || p.Opaque? then Text(p.text) else Kept(p))
            && after == State(st.nodes + 1, st.truncated, st.seen)
  {
  }

  /** The children are walked one after the other, each with what the ones before it have left. */
  lemma {:induction false} SlotsInOrder(h: Heap, limits: Limits, isArray: bool, a: seq<(string, Value)>,
                                        b: seq<(string, Value)>, depth: nat, st: State)
    requires Plain(h)
    requires forall i :: 0 <= i < |a| ==> InHeap(h, a[i].1)
    requires forall i :: 0 <= i < |b| ==> InHeap(h, b[i].1)
    ensures var (first, middle) := VisitSlots(h, limits, isArray, a, depth, st);
            var (second, after) := VisitSlots(h, limits, isArray, b, depth, middle);
            VisitSlots(h, limits, isArray, a + b, depth, st) == (first + second, after)
    decreases |a|
  {
    hide Visit, DisplayKey, Dangerous;
    if a == [] {
      var second := VisitSlots(h, limits, isArray, b, depth, st).0;
      assert a + b == b && [] + second == second;
    } else {
      var flagged := st.(truncated := st.truncated || (!isArray && Dangerous(a[0].0)));
      var (out, middle) := Visit(h, limits, a[0].1, depth, flagged);
      assert (a + b)[0] == a[0] && (a + b)[1..] == a[1..] + b;
      SlotsInOrder(h, limits, isArray, a[1..], b, depth, middle);
      var (rest, later) := VisitSlots(h, limits, isArray, a[1..], depth, middle);
      var (second, after) := VisitSlots(h, limits, isArray, b, depth, later);
      var head := [(DisplayKey(a[0].0), out)];
      assert head + (rest + second) == (head + rest) + second;
    }
  }

  // ---------------------------------------------------------------- everything else is there

  /** Slot i is the last one that is displayed under the key. */
  predicate LastDisplayed(slots: seq<(string, Value)>, i: nat, key: string) {
    && i < |slots| && DisplayKey(slots[i].0) == key
    && forall j :: i < j < |slots| ==> DisplayKey(slots[j].0) != key
  }

  /**
   The result is a placeholder or says what the value says: a text or its beginning, the primitive, an array with one
   result per item, or a record in which every displayed key has a result for the last field displayed under it.
   */
  ghost predicate Shows(h: Heap, limits: Limits, v: Value, out: Out)
    requires Plain(h) && InHeap(h, v)
    decreases out
  {
    match out
    case Marked(m) => m == Circular ==> v.Ref?
    case Text(t) =>
      || (v.Str? && |v.s| <= limits.maxStringLength && t == v.s)
      || (v.Str? && |v.s| > limits.maxStringLength && t == v.s[..limits.maxStringLength] + "\U{2026}")
      || v == Prim(BigInt(t)) || v == Prim(Opaque(t))
    case Kept(p) => v == Prim(p) && !p.BigInt? && !p.Opaque?
    case Node(isArray, fields) =>
      && v.Ref? && h[v.id].isArray == isArray
      && var slots := h[v.id].slots;
         if isArray then
           && |fields| == |slots|
           && forall i :: 0 <= i < |slots| ==> fields[i].0 == "" && Shows(h, limits, slots[i].1, fields[i].1)
         else
           && (forall i :: 0 <= i < |slots| ==> HasKey(FieldKey<Out>, fields, DisplayKey(slots[i].0)))
           && forall k :: 0 <= k < |fields| ==>
                exists i: nat :: LastDisplayed(slots, i, fields[k].0) && Shows(h, limits, slots[i].1, fields[k].1)
  }

  ghost predicate SlotsShown(h: Heap, limits: Limits, slots: seq<(string, Value)>, fields: seq<(string, Out)>)
    requires Plain(h) && forall i :: 0 <= i < |slots| ==> InHeap(h, slots[i].1)
  {
    && |fields| == |slots|
    && forall i :: 0 <= i < |slots| ==>
         fields[i].0 == DisplayKey(slots[i].0) && Shows(h, limits, slots[i].1, fields[i].1)
  }

  /** The last field with a key stands somewhere, and no later one has the key. */
  lemma {:induction false} LastWithStands(fields: seq<(string, Out)>, key: string) returns (i: nat)
    requires LastWith(FieldKey<Out>, fields, key) != []
    ensures i < |fields| && LastWith(FieldKey<Out>, fields, key) == [fields[i]] && fields[i].0 == key
    ensures forall j :: i < j < |fields| ==> fields[j].0 != key
  {
    var n := |fields| - 1;
    if fields[n].0 == key {
      i := n;
    } else {
      i := LastWithStands(fields[..n], key);
    }
  }

  lemma ContainerShows(h: Heap, limits: Limits, v: Value, fields: seq<(string, Out)>)
    requires Plain(h) && InHeap(h, v) && v.Ref? && SlotsShown(h, limits, h[v.id].slots, fields)
    ensures Shows(h, limits, v, Container(h[v.id].isArray, fields))
  {
    var isArray, slots := h[v.id].isArray, h[v.id].slots;
    if isArray {
      UnlabelledMembers(fields);
    } else {
      var kept := Collect(FieldKey<Out>, fields);
      CollectKeepsOrder(FieldKey<Out>, fields);
      forall i | 0 <= i < |slots|
        ensures HasKey(FieldKey<Out>, kept, DisplayKey(slots[i].0))
      {
        assert FieldKey(fields[i]) == DisplayKey(slots[i].0);
      }
      forall k | 0 <= k < |kept|
        ensures exists i: nat :: LastDisplayed(slots, i, kept[k].0) && Shows(h, limits, slots[i].1, kept[k].1)
      {
        CollectKeepsLast(FieldKey<Out>, fields, k);
        var i := LastWithStands(fields, kept[k].0);
        assert LastDisplayed(slots, i, kept[k].0) && Shows(h, limits, slots[i].1, kept[k].1);
      }
    }
  }

  /** On every heap and from every state, whatever was cut before. */
  lemma {:induction false} VisitShows(h: Heap, limits: Limits, v: Value, depth: nat, st: State)
    requires Plain(h) && InHeap(h, v)
    ensures Shows(h, limits, v, Visit(h, limits, v, depth, st).0)
    decreases h.Keys - st.seen, 0
  {
    if Within(limits, depth, st) && v.Ref? && v.id !in st.seen {
      var inner := State(st.nodes + 1, st.truncated, st.seen + {v.id});
      SlotsAreShown(h, limits, h[v.id].isArray, h[v.id].slots, depth + 1, inner);
      ContainerShows(h, limits, v, VisitSlots(h, limits, h[v.id].isArray, h[v.id].slots, depth + 1, inner).0);
    }
  }

  lemma {:induction false} SlotsAreShown(h: Heap, limits: Limits, isArray: bool, slots: seq<(string, Value)>,
                                         depth: nat, st: State)
    requires Plain(h) && forall i :: 0 <= i < |slots| ==> InHeap(h, slots[i].1)
    ensures SlotsShown(h, limits, slots, VisitSlots(h, limits, isArray, slots, depth, st).0)
    decreases h.Keys - st.seen, 1 + |slots|
  {
    if slots != [] {
      var flagged := st.(truncated := st.truncated || (!isArray && Dangerous(slots[0].0)));
      VisitShows(h, limits, slots[0].1, depth, flagged);
      var (out, middle) := Visit(h, limits, slots[0].1, depth, flagged);
      assert h.Keys - middle.seen <= h.Keys - st.seen;
      SlotsAreShown(h, limits, isArray, slots[1..], depth, middle);
    }
  }

  // ---------------------------------------------------------------- exact accounts

  /** No two fields of a record are displayed under one key. */
  ghost predicate DistinctDisplays(h: Heap) {
    forall id :: id in h && !h[id].isArray ==>
      forall i, j :: 0 <= i < j < |h[id].slots| ==> DisplayKey(h[id].slots[i].0) != DisplayKey(h[id].slots[j].0)
  }

  function Every(out: Out): nat {
    1
  }

  /** Then every visit counts one node and is there to see, and the objects marked are those that are shown. */
  ghost predicate Accounted(st: State, results: nat, expansions: nat, after: State) {
    after.nodes == st.nodes + results && |after.seen| == |st.seen| + expansions
  }

  lemma ContainerKeepsAll(isArray: bool, fields: seq<(string, Out)>, weight: Out -> nat)
    requires isArray || forall i, j :: 0 <= i < j < |fields| ==> fields[i].0 != fields[j].0
    ensures var out := Container(isArray, fields); Count(weight, out) == weight(out) + CountAll(weight, fields)
  {
    if isArray {
      CountUnlabelled(weight, fields);
    } else {
      CollectDistinct(FieldKey<Out>, fields);
    }
  }

  lemma {:induction false} VisitIsAccounted(h: Heap, limits: Limits, v: Value, depth: nat, st: State)
    requires Plain(h) && InHeap(h, v) && DistinctDisplays(h)
    ensures var (out, after) := Visit(h, limits, v, depth, st);
            Accounted(st, Count(Every, out), Count(Expansion, out), after)
    decreases h.Keys - st.seen, 0
  {
    hide Container, Count, CountAll, DisplayKey;
    if Within(limits, depth, st) && v.Ref? && v.id !in st.seen {
      var isArray, slots := h[v.id].isArray, h[v.id].slots;
      var inner := State(st.nodes + 1, st.truncated, st.seen + {v.id});
      SlotsAreAccounted(h, limits, isArray, slots, depth + 1, inner);
      SlotsAreShown(h, limits, isArray, slots, depth + 1, inner);
      var fields := VisitSlots(h, limits, isArray, slots, depth + 1, inner).0;
      ContainerKeepsAll(isArray, fields, Every);
      ContainerKeepsAll(isArray, fields, Expansion);
      ContainerExpands(isArray, fields);
    } else {
      NoContainer(Every, Visit(h, limits, v, depth, st).0);
      NoContainer(Expansion, Visit(h, limits, v, depth, st).0);
    }
  }

  lemma ContainerExpands(isArray: bool, fields: seq<(string, Out)>)
    ensures Expansion(Container(isArray, fields)) == 1
  {
  }

  lemma NoContainer(weight: Out -> nat, out: Out)
    requires !out.Node?
    ensures Count(weight, out) == weight(out)
  {
  }

  lemma {:induction false} SlotsAreAccounted(h: Heap, limits: Limits, isArray: bool, slots: seq<(string, Value)>,
                                             depth: nat, st: State)
    requires Plain(h) && DistinctDisplays(h) && forall i :: 0 <= i < |slots| ==> InHeap(h, slots[i].1)
    ensures var (fields, after) := VisitSlots(h, limits, isArray, slots, depth, st);
            Accounted(st, CountAll(Every, fields), CountAll(Expansion, fields), after)
    decreases h.Keys - st.seen, 1 + |slots|
  {
    hide Count, CountAll, Dangerous, DisplayKey;
    if slots == [] {
      NothingAccounted(st);
    } else {
      var flagged := st.(truncated := st.truncated || (!isArray && Dangerous(slots[0].0)));
      VisitIsAccounted(h, limits, slots[0].1, depth, flagged);
      var (out, middle) := Visit(h, limits, slots[0].1, depth, flagged);
      assert h.Keys - middle.seen <= h.Keys - st.seen;
      SlotsAreAccounted(h, limits, isArray, slots[1..], depth, middle);
      var rest := VisitSlots(h, limits, isArray, slots[1..], depth, middle).0;
      CountHead(Every, (DisplayKey(slots[0].0), out), rest);
      CountHead(Expansion, (DisplayKey(slots[0].0), out), rest);
    }
  }

  lemma NothingAccounted(st: State)
    ensures Accounted(st, CountAll(Every, []), CountAll(Expansion, []), st)
  {
  }

  // ---------------------------------------------------------------- the displayed text

  /** A text over the limit shows its first characters and an ellipsis on a line of its own, and is always flagged. */
  lemma OverlongDisplay(h: Heap, limits: Limits, render: Out -> Option<string>, v: Value)
    requires Plain(h) && InHeap(h, v)
    ensures var d := Sanitize(h, limits, render, v);
            var (out, after) := Visit(h, limits, v, 0, START);
            var text := if render(out).None? then "null" else render(out).value;
            && (|text| <= limits.maxCharacters ==> d == Display(text, after.truncated))
            && (|text| > limits.maxCharacters ==>
                  && d.truncated && |d.text| == limits.maxCharacters + 2
                  && d.text[limits.maxCharacters..] == "\n\U{2026}"
                  && forall i :: 0 <= i < limits.maxCharacters ==> d.text[i] == text[i])
  {
  }
}
