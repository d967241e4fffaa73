/**
 Conversion of an object graph to plain lists and dictionaries, with a set of the containers
 on the way down to stop at cycles. Containers are named by their identity.
 */
module ObjToDict {
  import opened Common

  /** A value is a leaf or the identity of a container. */
  datatype Value =
    | Nothing
    | Basic(value: int)      // int, float, str or bool
    | Moment(iso: string)    // datetime or date, by its ISO 8601 text
    | Other(text: string)    // anything else, by its str() text
    | At(ref: nat)

  datatype Node =
    | ListNode(items: seq<Value>)
    | DictNode(entries: seq<(string, Value)>)
    | ObjectNode(attributes: seq<(string, Value)>)

  type Heap = map<nat, Node>

  datatype Output =
    | Null
    | Plain(value: int)
    | Text(text: string)
    | List(parts: seq<Output>)
    | Dict(entries: seq<(string, Output)>)

  predicate Private(name: string) {
    |name| > 0 && name[0] == '_'
  }

  /** The attributes that are converted, in their order. */
  function Public(attributes: seq<(string, Value)>): seq<(string, Value)> {
    if attributes == [] then []
    else
      var last := attributes[|attributes| - 1];
      Public(attributes[..|attributes| - 1]) + if Private(last.0) then [] else [last]
  }

  /** What a keyed container shows, in order. */
  function Entries(node: Node): seq<(string, Value)>
    requires !node.ListNode?
  {
    if node.DictNode? then node.entries else Public(node.attributes)
  }

  function Kids(node: Node): seq<Value> {
    if node.ListNode? then node.items
    else seq(|Entries(node)|, i requires 0 <= i < |Entries(node)| => Entries(node)[i].1)
  }

  /** The container holding converted parts, under the keys of `node`. */
  function Rebuilt(node: Node, parts: seq<Output>): Output
    requires |parts| == |Kids(node)|
  {
    if node.ListNode? then List(parts)
    else Dict(seq(|parts|, i requires 0 <= i < |parts| => (Entries(node)[i].0, parts[i])))
  }

  predicate Known(heap: Heap, v: Value) {
    v.At? ==> v.ref in heap
  }

  predicate Closed(heap: Heap) {
    forall r :: r in heap ==> forall i :: 0 <= i < |Kids(heap[r])| ==> Known(heap, Kids(heap[r])[i])
  }

  function Leaf(v: Value): Output
    requires !v.At?
  {
    match v
    case Nothing => Null
    case Basic(x) => Plain(x)
    case Moment(iso) => Text(iso)
    case Other(text) => Text(text)
  }

  /** The conversion below the containers in `seen`. */
  function Converted(heap: Heap, v: Value, seen: set<nat>): Output
    requires Closed(heap) && Known(heap, v)
    decreases heap.Keys - seen
  {
    if !v.At? then Leaf(v)
    else if v.ref in seen then Null
    else
      assert v.ref in heap.Keys - seen;
      Rebuilt(heap[v.ref], ConvertedAll(heap, v.ref, seen))
  }

  function ConvertedAll(heap: Heap, r: nat, seen: set<nat>): (parts: seq<Output>)
    requires Closed(heap) && r in heap && r !in seen
    ensures |parts| == |Kids(heap[r])|
    decreases heap.Keys - seen, 0
  {
    assert r in heap.Keys - seen;
    seq(|Kids(heap[r])|, i requires 0 <= i < |Kids(heap[r])| => Converted(heap, Kids(heap[r])[i], seen + {r}))
  }

  // ------------------------------------------------------------------ the code

  /** The shared `_seen` set. */
  class Seen {
    var ids: set<nat>

    constructor ()
      ensures ids == {}
    {
      ids := {};
    }
  }

  class CommonUtil {

    static method ObjToDict(heap: Heap, v: Value, seen: Seen) returns (out: Output)
      requires Closed(heap) && Known(heap, v)
      modifies seen
      ensures out == Converted(heap, v, old(seen.ids))
      ensures seen.ids == old(seen.ids)
      decreases heap.Keys - seen.ids, 1
    {
      if !v.At? {
        return Leaf(v);
      }
      var r := v.ref;
      if r in seen.ids {
        return Null;
      }
      seen.ids := seen.ids + {r};
      var node := heap[r];
      if node.ListNode? {
        var parts := ConvertItems(heap, r, seen, old(seen.ids));
        out := List(parts);
      } else if node.DictNode? {
        var entries := ConvertEntries(heap, r, seen, old(seen.ids));
        out := Dict(entries);
      } else {
        var entries := ConvertAttributes(heap, r, seen, old(seen.ids));
        out := Dict(entries);
      }
      seen.ids := seen.ids - {r};
    }

    static method ConvertItems(heap: Heap, r: nat, seen: Seen, ghost above: set<nat>) returns (parts: seq<Output>)
      requires Closed(heap) && r in heap && heap[r].ListNode? && r !in above && seen.ids == above + {r}
      modifies seen
      ensures parts == ConvertedAll(heap, r, above) && seen.ids == old(seen.ids)
      decreases heap.Keys - above, 0
    {
      var items := heap[r].items;
      assert r in heap.Keys - above;
      parts := [];
      for i := 0 to |items|
        invariant seen.ids == old(seen.ids) && parts == ConvertedAll(heap, r, above)[..i]
      {
        assert items[i] == Kids(heap[r])[i];
        var part := ObjToDict(heap, items[i], seen);
        parts := parts + [part];
      }
    }

    static method ConvertEntries(heap: Heap, r: nat, seen: Seen, ghost above: set<nat>)
      returns (entries: seq<(string, Output)>)
      requires Closed(heap) && r in heap && heap[r].DictNode? && r !in above && seen.ids == above + {r}
      modifies seen
      ensures Dict(entries) == Rebuilt(heap[r], ConvertedAll(heap, r, above)) && seen.ids == old(seen.ids)
      decreases heap.Keys - above, 0
    {
      var source := heap[r].entries;
      assert r in heap.Keys - above;
      entries := [];
      for i := 0 to |source|
        invariant seen.ids == old(seen.ids) && |entries| == i
        invariant forall j :: 0 <= j < i ==> entries[j] == (source[j].0, ConvertedAll(heap, r, above)[j])
      {
        assert source[i].1 == Kids(heap[r])[i];
        var part := ObjToDict(heap, source[i].1, seen);
        entries := entries + [(source[i].0, part)];
      }
    }

    static method ConvertAttributes(heap: Heap, r: nat, seen: Seen, ghost above: set<nat>)
      returns (entries: seq<(string, Output)>)
      requires Closed(heap) && r in heap && heap[r].ObjectNode? && r !in above && seen.ids == above + {r}
      modifies seen
      ensures Dict(entries) == Rebuilt(heap[r], ConvertedAll(heap, r, above)) && seen.ids == old(seen.ids)
      decreases heap.Keys - above, 0
    {
      var source := heap[r].attributes;
      assert r in heap.Keys - above;
      entries := [];
      for i := 0 to |source|
        invariant seen.ids == old(seen.ids) && |entries| == |Public(source[..i])|
        invariant Public(source[..i]) <= Public(source)
        invariant forall j :: 0 <= j < |entries| ==>
                    entries[j] == (Public(source)[j].0, ConvertedAll(heap, r, above)[j])
      {
        PublicPrefix(source, i);
        if !Private(source[i].0) {
          assert source[i].1 == Kids(heap[r])[|entries|];
          var part := ObjToDict(heap, source[i].1, seen);
          entries := entries + [(source[i].0, part)];
        }
      }
      assert source[..|source|] == source;
    }
  }

  lemma PublicPrefix(attributes: seq<(string, Value)>, i: nat)
    requires i < |attributes|
    ensures Public(attributes[..i + 1]) == Public(attributes[..i]) + if Private(attributes[i].0) then [] else [attributes[i]]
    ensures Public(attributes[..i + 1]) <= Public(attributes)
  {
    assert attributes[..i + 1][..i] == attributes[..i];
    PublicMonotone(attributes, i + 1);
  }

  lemma {:induction false} PublicMonotone(attributes: seq<(string, Value)>, n: nat)
    requires n <= |attributes|
    ensures Public(attributes[..n]) <= Public(attributes)
    decreases |attributes|
  {
    if n == |attributes| {
      assert attributes[..n] == attributes;
    } else {
      var front := attributes[..|attributes| - 1];
      PublicMonotone(front, n);
      assert front[..n] == attributes[..n];
    }
  }

  // ------------------------------------------------------------------ without cycles

  /** Every container ranks above the containers it holds. */
  ghost predicate Ranked(heap: Heap, rank: map<nat, nat>) {
    && Closed(heap) && heap.Keys == rank.Keys
    && forall r :: r in heap ==> forall i :: 0 <= i < |Kids(heap[r])| ==> Below(rank, Kids(heap[r])[i], r)
  }

  predicate Below(rank: map<nat, nat>, v: Value, r: nat)
    requires r in rank
  {
    v.At? ==> v.ref in rank && rank[v.ref] < rank[r]
  }

  /** The plain recursive conversion, without any record of what is being converted. */
  ghost function Naive(heap: Heap, rank: map<nat, nat>, v: Value): Output
    requires Ranked(heap, rank) && Known(heap, v)
    decreases if v.At? then rank[v.ref] + 1 else 0
  {
    if !v.At? then Leaf(v)
    else
      var kids := Kids(heap[v.ref]);
      Rebuilt(heap[v.ref], seq(|kids|, i requires 0 <= i < |kids| =>
        assert Below(rank, kids[i], v.ref); Naive(heap, rank, kids[i])))
  }

  /** On an acyclic graph, shared containers included, the guard changes nothing. */
  lemma {:induction false} AcyclicIsNaive(heap: Heap, rank: map<nat, nat>, v: Value, seen: set<nat>)
    requires Ranked(heap, rank) && Known(heap, v)
    requires forall s :: s in seen && v.At? ==> s in rank && rank[s] > rank[v.ref]
    ensures Converted(heap, v, seen) == Naive(heap, rank, v)
    decreases if v.At? then rank[v.ref] + 1 else 0
  {
    if v.At? {
      var kids := Kids(heap[v.ref]);
      forall i | 0 <= i < |kids|
        ensures Converted(heap, kids[i], seen + {v.ref}) == Naive(heap, rank, kids[i])
      {
        assert Below(rank, kids[i], v.ref);
        AcyclicIsNaive(heap, rank, kids[i], seen + {v.ref});
      }
      assert ConvertedAll(heap, v.ref, seen) == seq(|kids|, i requires 0 <= i < |kids| =>
        assert Below(rank, kids[i], v.ref); Naive(heap, rank, kids[i]));
    }
  }

  // ------------------------------------------------------------------ with cycles

  /** What stands at one position: a leaf, or a container by its shape. */
  datatype Label = LeafLabel(leaf: Output) | ListLabel(size: nat) | DictLabel(keys: seq<string>)

  function Parts(out: Output): seq<Output> {
    match out
    case List(parts) => parts
    case Dict(entries) => seq(|entries|, i requires 0 <= i < |entries| => entries[i].1)
    case _ => []
  }

  function OutputLabel(out: Output): Label {
    match out
    case List(parts) => ListLabel(|parts|)
    case Dict(entries) => DictLabel(seq(|entries|, i requires 0 <= i < |entries| => entries[i].0))
    case _ => LeafLabel(out)
  }

  /** The position of the result that a path of child numbers leads to. */
  function LookUp(out: Output, path: seq<nat>): Option<Label> {
    if path == [] then Some(OutputLabel(out))
    else if path[0] < |Parts(out)| then LookUp(Parts(out)[path[0]], path[1..])
    else None
  }

  /** Where the same path leads in the graph itself, cycles and all. */
  function Walk(heap: Heap, v: Value, path: seq<nat>): Option<Value>
    requires Closed(heap) && Known(heap, v)
    decreases |path|
  {
    if path == [] then Some(v)
    else if v.At? && path[0] < |Kids(heap[v.ref])| then Walk(heap, Kids(heap[v.ref])[path[0]], path[1..])
    else None
  }

  /** The containers a path passes on its way: the ancestors of where it leads. */
  function Trail(heap: Heap, v: Value, path: seq<nat>): (trail: seq<nat>)
    requires Closed(heap) && Known(heap, v) && Walk(heap, v, path).Some?
    ensures |trail| == |path| && forall r :: r in trail ==> r in heap
    decreases |path|
  {
    if path == [] then [] else [v.ref] + Trail(heap, Kids(heap[v.ref])[path[0]], path[1..])
  }

  predicate Distinct(trail: seq<nat>) {
    forall i, j :: 0 <= i < j < |trail| ==> trail[i] != trail[j]
  }

  function ValueLabel(heap: Heap, v: Value): Label
    requires Known(heap, v)
  {
    if !v.At? then LeafLabel(Leaf(v))
    else
      var node := heap[v.ref];
      if node.ListNode? then ListLabel(|node.items|)
      else DictLabel(seq(|Entries(node)|, i requires 0 <= i < |Entries(node)| => Entries(node)[i].0))
  }

  /** What a position should hold, below the containers in `seen`. */
  function Expected(heap: Heap, v: Value, seen: set<nat>, path: seq<nat>): Option<Label>
    requires Closed(heap) && Known(heap, v)
  {
    match Walk(heap, v, path)
    case None => None
    case Some(w) =>
      var trail := Trail(heap, v, path);
      WalkIsKnown(heap, v, path);
      if !Distinct(trail) || (exists r :: r in trail && r in seen) then None
      else if w.At? && (w.ref in trail || w.ref in seen) then Some(LeafLabel(Null))
      else Some(ValueLabel(heap, w))
  }

  lemma {:induction false} WalkIsKnown(heap: Heap, v: Value, path: seq<nat>)
    requires Closed(heap) && Known(heap, v)
    ensures Walk(heap, v, path).Some? ==> Known(heap, Walk(heap, v, path).value)
    decreases |path|
  {
    if path != [] && v.At? && path[0] < |Kids(heap[v.ref])| {
      WalkIsKnown(heap, Kids(heap[v.ref])[path[0]], path[1..]);
    }
  }

  lemma RebuiltLabel(heap: Heap, v: Value, seen: set<nat>)
    requires Closed(heap) && Known(heap, v) && v.At? && v.ref !in seen
    ensures Parts(Converted(heap, v, seen)) == ConvertedAll(heap, v.ref, seen)
    ensures OutputLabel(Converted(heap, v, seen)) == ValueLabel(heap, v)
  {
    var node, parts := heap[v.ref], ConvertedAll(heap, v.ref, seen);
    if !node.ListNode? {
      assert Parts(Rebuilt(node, parts)) == parts;
    }
  }

  lemma DistinctCons(r: nat, rest: seq<nat>)
    ensures Distinct([r] + rest) <==> Distinct(rest) && r !in rest
  {
    var all := [r] + rest;
    if Distinct(all) {
      forall i, j | 0 <= i < j < |rest| ensures rest[i] != rest[j] {
        assert all[i + 1] != all[j + 1];
      }
      forall k | 0 <= k < |rest| ensures rest[k] != r {
        assert all[0] != all[k + 1];
      }
    }
  }

  /** Going down one container: the trail grows by it, and so does `seen`. */
  lemma ExpectedBelow(heap: Heap, v: Value, seen: set<nat>, path: seq<nat>)
    requires Closed(heap) && Known(heap, v) && v.At? && v.ref !in seen && path != []
    requires path[0] < |Kids(heap[v.ref])|
    ensures Expected(heap, v, seen, path)
         == Expected(heap, Kids(heap[v.ref])[path[0]], seen + {v.ref}, path[1..])
  {
    var kid, rest := Kids(heap[v.ref])[path[0]], path[1..];
    if Walk(heap, kid, rest).Some? {
      var below := Trail(heap, kid, rest);
      assert Trail(heap, v, path) == [v.ref] + below;
      DistinctCons(v.ref, below);
      Disjointness(v.ref, below, seen);
      WalkIsKnown(heap, kid, rest);
    }
  }

  lemma Disjointness(r: nat, below: seq<nat>, seen: set<nat>)
    requires r !in seen
    ensures (exists x :: x in below && x in seen + {r}) <==> r in below || exists x :: x in below && x in seen
    ensures (exists x :: x in [r] + below && x in seen) <==> exists x :: x in below && x in seen
  {
  }

  /**
   At every position of the result stands what the graph holds there, except that a container
   repeating on its own ancestor path is replaced by null, with nothing below it.
   */
  lemma {:induction false} EveryPosition(heap: Heap, v: Value, seen: set<nat>, path: seq<nat>)
    requires Closed(heap) && Known(heap, v)
    ensures LookUp(Converted(heap, v, seen), path) == Expected(heap, v, seen, path)
    decreases |path|
  {
    if v.At? && v.ref !in seen {
      RebuiltLabel(heap, v, seen);
      if path != [] && path[0] < |Kids(heap[v.ref])| {
        ExpectedBelow(heap, v, seen, path);
        EveryPosition(heap, Kids(heap[v.ref])[path[0]], seen + {v.ref}, path[1..]);
      }
    } else if path != [] && Walk(heap, v, path).Some? {
      assert Trail(heap, v, path)[0] == v.ref;
    }
  }

  /** Nulls for containers appear exactly where a container is its own ancestor. */
  lemma NullWhereItRepeats(heap: Heap, v: Value, path: seq<nat>)
    requires Closed(heap) && Known(heap, v)
    requires Walk(heap, v, path).Some? && Walk(heap, v, path).value.At?
    requires LookUp(Converted(heap, v, {}), path).Some?
    ensures LookUp(Converted(heap, v, {}), path).value == LeafLabel(Null)
       <==> Walk(heap, v, path).value.ref in Trail(heap, v, path)
  {
    EveryPosition(heap, v, {}, path);
    WalkIsKnown(heap, v, path);
  }

  /** The result is never deeper than the number of containers in the graph. */
  lemma DepthIsBounded(heap: Heap, v: Value, path: seq<nat>)
    requires Closed(heap) && Known(heap, v) && LookUp(Converted(heap, v, {}), path).Some?
    ensures |path| <= |heap|
  {
    EveryPosition(heap, v, {}, path);
    DistinctFits(Trail(heap, v, path), heap.Keys);
  }

  lemma {:induction false} DistinctFits(trail: seq<nat>, all: set<nat>)
    requires Distinct(trail) && forall r :: r in trail ==> r in all
    ensures |trail| <= |all|
    decreases |trail|
  {
    if trail != [] {
      assert trail == [trail[0]] + trail[1..];
      DistinctCons(trail[0], trail[1..]);
      DistinctFits(trail[1..], all - {trail[0]});
    }
  }

  // ------------------------------------------------------------------ one value at a time

  /** Leaves: basic values as they are, moments by their ISO text, anything else by its text. */
  lemma LeafValues(heap: Heap, seen: set<nat>, value: int, text: string)
    requires Closed(heap)
    ensures Converted(heap, Nothing, seen) == Null
    ensures Converted(heap, Basic(value), seen) == Plain(value)
    ensures Converted(heap, Moment(text), seen) == Text(text)
    ensures Converted(heap, Other(text), seen) == Text(text)
  {
  }

  /** A list becomes the list of its items, converted in order. */
  lemma ListValues(heap: Heap, r: nat, seen: set<nat>) returns (parts: seq<Output>)
    requires Closed(heap) && r in heap && r !in seen && heap[r].ListNode?
    ensures Converted(heap, At(r), seen) == List(parts) && |parts| == |heap[r].items|
    ensures forall i :: 0 <= i < |parts| ==>
              Known(heap, heap[r].items[i]) && parts[i] == Converted(heap, heap[r].items[i], seen + {r})
  {
    parts := ConvertedAll(heap, r, seen);
    assert forall i :: 0 <= i < |parts| ==> Kids(heap[r])[i] == heap[r].items[i];
  }

  /** A dictionary becomes the dictionary of its values, converted under their keys. */
  lemma DictValues(heap: Heap, r: nat, seen: set<nat>) returns (entries: seq<(string, Output)>)
    requires Closed(heap) && r in heap && r !in seen && heap[r].DictNode?
    ensures Converted(heap, At(r), seen) == Dict(entries) && |entries| == |heap[r].entries|
    ensures forall i :: 0 <= i < |entries| ==>
              && Known(heap, heap[r].entries[i].1) && entries[i].0 == heap[r].entries[i].0
              && entries[i].1 == Converted(heap, heap[r].entries[i].1, seen + {r})
  {
    var parts := ConvertedAll(heap, r, seen);
    entries := seq(|parts|, i requires 0 <= i < |parts| => (Entries(heap[r])[i].0, parts[i]));
    assert forall i :: 0 <= i < |parts| ==> Kids(heap[r])[i] == heap[r].entries[i].1;
  }

  /** `picks` are the places of the attributes whose names do not begin with an underscore. */
  ghost predicate PublicAt(attributes: seq<(string, Value)>, picks: seq<nat>) {
    && (forall i, j :: 0 <= i < j < |picks| ==> picks[i] < picks[j])
    && (forall j :: 0 <= j < |picks| ==> picks[j] < |attributes|)
    && (forall k :: 0 <= k < |attributes| ==> (k in picks <==> !("_" <= attributes[k].0)))
  }

  lemma {:induction false} PublicMeans(attributes: seq<(string, Value)>) returns (picks: seq<nat>)
    ensures PublicAt(attributes, picks) && |Public(attributes)| == |picks|
    ensures forall j :: 0 <= j < |picks| ==> picks[j] < |attributes| && Public(attributes)[j] == attributes[picks[j]]
  {
    if attributes == [] {
      picks := [];
    } else {
      var n := |attributes| - 1;
      var before := PublicMeans(attributes[..n]);
      picks := before + if "_" <= attributes[n].0 then [] else [n];
      PicksGrow(attributes, before, picks);
    }
  }

  lemma PicksGrow(attributes: seq<(string, Value)>, before: seq<nat>, picks: seq<nat>)
    requires attributes != [] && PublicAt(attributes[..|attributes| - 1], before)
    requires var n := |attributes| - 1; picks == before + if "_" <= attributes[n].0 then [] else [n]
    ensures PublicAt(attributes, picks)
  {
    var n := |attributes| - 1;
    forall k | 0 <= k < |attributes| ensures k in picks <==> !("_" <= attributes[k].0) {
      if k < n {
        assert attributes[..n][k] == attributes[k];
      } else {
        assert forall j :: 0 <= j < |before| ==> before[j] != n;
      }
    }
  }

  /** An object becomes the dictionary of its public attributes, in order, and of no others. */
  lemma ObjectValues(heap: Heap, r: nat, seen: set<nat>) returns (entries: seq<(string, Output)>, picks: seq<nat>)
    requires Closed(heap) && r in heap && r !in seen && heap[r].ObjectNode?
    ensures PublicAt(heap[r].attributes, picks)
    ensures Converted(heap, At(r), seen) == Dict(entries) && |entries| == |picks|
    ensures forall i :: 0 <= i < |entries| ==>
              var attribute := heap[r].attributes[picks[i]];
              && Known(heap, attribute.1) && entries[i].0 == attribute.0
              && entries[i].1 == Converted(heap, attribute.1, seen + {r})
  {
    picks := PublicMeans(heap[r].attributes);
    var parts := ConvertedAll(heap, r, seen);
    entries := seq(|parts|, i requires 0 <= i < |parts| => (Entries(heap[r])[i].0, parts[i]));
    assert forall i :: 0 <= i < |parts| ==> Kids(heap[r])[i] == Public(heap[r].attributes)[i].1;
  }
}
