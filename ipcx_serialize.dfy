/**
 * Argument serialisation of the IPC layer: the arguments of a call are
 * cloned so that they can cross the process boundary; every function in
 * them is replaced by null and described (label, path, callback channel)
 * so that the other side can call back. Object identity matters here (a
 * repeated reference must map to the same clone), so JavaScript's heap is
 * explicit: objects live at addresses of a node sequence.
 */
module IpcxSerialize {
  import opened Wrappers
  import opened Strings
  import opened JsValues
  import opened IpcxErrors

  type Addr = nat

  /** A path segment: an array index or an object key. */
  datatype Segment = Index(i: nat) | Key(k: string)

  /** The primitive values: everything but arrays, objects and functions. */
  type Primitive = v: Value | !v.Arr? && !v.Obj? && !v.Fn? witness Undefined

  /** A value as the serialiser sees it: a primitive, a function, or a reference to a heap object. */
  datatype Val = Prim(v: Primitive) | Func(name: string) | Ref(addr: Addr)

  /** A heap object: an array, a plain object (own entries in order), or any other object (Date, class instance, ...). */
  datatype Node = ArrayNode(items: seq<Val>) | PlainNode(entries: seq<(string, Val)>) | OtherNode

  /** A FunctionDescriptor: the label, formatted path, callback channel and path segments of one function. */
  datatype FnDescriptor = FnDescriptor(fnLabel: string, index: string, channel: string, segments: seq<Segment>)

  /** The IpcxError a failed serialisation throws: its code, message and the message of the error it wraps. */
  datatype SerializeError = SerializeError(code: ErrorCode, message: string, cause: string)

  /** Nesting beyond this depth is refused. */
  const MaxDepth := 100

  /** String(segment) */
  function SegmentText(s: Segment): string {
    match s
    case Index(i) => NatToString(i)
    case Key(k) => k
  }

  /** A function's label: its name, else its last path segment, else "fn". */
  function FnLabel(name: string, segments: seq<Segment>): (r: string)
    ensures name != "" ==> r == name
    ensures name == "" && segments == [] ==> r == "fn"
    ensures name == "" && segments != [] ==> r == SegmentText(segments[|segments| - 1])
  {
    if name != "" then name
    else if segments == [] then "fn"
    else SegmentText(segments[|segments| - 1])
  }

  /** Every reference in a node points into a heap of `size` nodes. */
  predicate NodeClosed(n: Node, size: nat) {
    match n
    case ArrayNode(items) => forall j :: 0 <= j < |items| ==> ValIn(items[j], size)
    case PlainNode(entries) => forall j :: 0 <= j < |entries| ==> ValIn(entries[j].1, size)
    case OtherNode => true
  }

  predicate ValIn(v: Val, size: nat) {
    v.Ref? ==> v.addr < size
  }

  /** Object.entries yields each key once. */
  predicate KeysDistinct(entries: seq<(string, Val)>) {
    forall i, j :: 0 <= i < j < |entries| ==> entries[i].0 != entries[j].0
  }

  /** A well-formed source heap: closed, and every plain object's keys distinct. */
  predicate SourceWf(src: seq<Node>) {
    forall a :: 0 <= a < |src| ==> NodeClosed(src[a], |src|) && (src[a].PlainNode? ==> KeysDistinct(src[a].entries))
  }

  /** The position of the first entry with the given key. */
  function KeyPosition(entries: seq<(string, Val)>, key: string): (r: Option<nat>)
    ensures r.Some? ==> r.value < |entries| && entries[r.value].0 == key
    ensures r.Some? ==> forall j :: 0 <= j < r.value ==> entries[j].0 != key
    ensures r.None? ==> forall j :: 0 <= j < |entries| ==> entries[j].0 != key
  {
    if entries == [] then None
    else if entries[0].0 == key then Some(0)
    else match KeyPosition(entries[1..], key)
      case None => None
      case Some(p) => Some(p + 1)
  }

  /** With distinct keys, each entry is found by its own key. */
  lemma KeyPositionOfDistinct(entries: seq<(string, Val)>, j: nat)
    requires KeysDistinct(entries) && j < |entries|
    ensures KeyPosition(entries, entries[j].0) == Some(j)
  {
  }

  /** The value found by following a path of segments from `v` through the source heap. */
  function PathGet(src: seq<Node>, v: Val, path: seq<Segment>): Option<Val>
    decreases |path|
  {
    if path == [] then Some(v)
    else if !v.Ref? || v.addr >= |src| then None
    else
      match (src[v.addr], path[0])
      case (ArrayNode(items), Index(i)) =>
        if i < |items| then PathGet(src, items[i], path[1..]) else None
      case (PlainNode(entries), Key(k)) =>
        var p := KeyPosition(entries, k);
        if p.Some? then PathGet(src, entries[p.value].1, path[1..]) else None
      case _ => None
  }

  /**
   * A descriptor produced while cloning `v` at `segments` locates a
   * function: its segments extend `segments`, following the extension from
   * `v` reaches a function, and the label is that function's label.
   */
  predicate Locates(src: seq<Node>, v: Val, segments: seq<Segment>, d: FnDescriptor) {
    && |segments| <= |d.segments|
    && d.segments[..|segments|] == segments
    && PathGet(src, v, d.segments[|segments|..]).Some?
    && PathGet(src, v, d.segments[|segments|..]).value.Func?
    && d.fnLabel == FnLabel(PathGet(src, v, d.segments[|segments|..]).value.name, d.segments)
  }

  predicate AllLocate(src: seq<Node>, v: Val, segments: seq<Segment>, ds: seq<FnDescriptor>) {
    forall k :: 0 <= k < |ds| ==> Locates(src, v, segments, ds[k])
  }

  /** A descriptor found below an array item is found below the array, one segment further. */
  lemma LocatesInArray(src: seq<Node>, a: Addr, i: nat, segments: seq<Segment>, d: FnDescriptor)
    requires a < |src| && src[a].ArrayNode? && i < |src[a].items|
    requires Locates(src, src[a].items[i], segments + [Index(i)], d)
    ensures Locates(src, Ref(a), segments, d)
  {
    var rest := d.segments[|segments| + 1..];
    assert d.segments[..|segments|] == (segments + [Index(i)])[..|segments|] == segments;
    assert d.segments[|segments|..] == [Index(i)] + rest;
    assert PathGet(src, Ref(a), [Index(i)] + rest) == PathGet(src, src[a].items[i], rest);
  }

  /** A descriptor found below an object entry is found below the object, under the entry's key. */
  lemma LocatesInObject(src: seq<Node>, a: Addr, j: nat, segments: seq<Segment>, d: FnDescriptor)
    requires a < |src| && src[a].PlainNode? && j < |src[a].entries| && KeysDistinct(src[a].entries)
    requires Locates(src, src[a].entries[j].1, segments + [Key(src[a].entries[j].0)], d)
    ensures Locates(src, Ref(a), segments, d)
  {
    var key := src[a].entries[j].0;
    var rest := d.segments[|segments| + 1..];
    assert d.segments[..|segments|] == (segments + [Key(key)])[..|segments|] == segments;
    assert d.segments[|segments|..] == [Key(key)] + rest;
    KeyPositionOfDistinct(src[a].entries, j);
    assert PathGet(src, Ref(a), [Key(key)] + rest) == PathGet(src, src[a].entries[j].1, rest);
  }

  /** Some descriptor in `ds` was pushed for the function `name` met at `segments`. */
  predicate Described(ds: seq<FnDescriptor>, segments: seq<Segment>, name: string) {
    exists k :: 0 <= k < |ds| && ds[k].segments == segments && ds[k].fnLabel == FnLabel(name, segments)
  }

  /** Every function among the first `n` items of the array at `a` has a descriptor at its index below `segments`. */
  predicate ItemFuncsDescribed(src: seq<Node>, ds: seq<FnDescriptor>, a: Addr, n: nat, segments: seq<Segment>) {
    && a < |src| && src[a].ArrayNode? && n <= |src[a].items|
    && forall j :: 0 <= j < n && src[a].items[j].Func? ==> Described(ds, segments + [Index(j)], src[a].items[j].name)
  }

  /**
   * Cloning item `i` of the array at `a` took the descriptors from `before`
   * to `ds`: they were only appended to, and below the depth limit a
   * function item has its descriptor at its index.
   */
  predicate ItemDescribed(src: seq<Node>, before: seq<FnDescriptor>, ds: seq<FnDescriptor>, a: Addr, i: nat, segments: seq<Segment>, depth: nat) {
    && before <= ds
    && a < |src| && src[a].ArrayNode? && i < |src[a].items|
    && (depth < MaxDepth && src[a].items[i].Func? ==> Described(ds, segments + [Index(i)], src[a].items[i].name))
  }

  /** The descriptor pushed for a function item gives ItemDescribed. */
  lemma DescribeItem(src: seq<Node>, before: seq<FnDescriptor>, ds: seq<FnDescriptor>, a: Addr, i: nat, segments: seq<Segment>, depth: nat)
    requires before <= ds && a < |src| && src[a].ArrayNode? && i < |src[a].items|
    requires depth < MaxDepth && src[a].items[i].Func? ==>
      |before| < |ds| && ds[|before|].segments == segments + [Index(i)] && ds[|before|].fnLabel == FnLabel(src[a].items[i].name, segments + [Index(i)])
    ensures ItemDescribed(src, before, ds, a, i, segments, depth)
  {
  }

  /** Descriptors are only ever appended, so a function once described stays described. */
  lemma ItemFuncsDescribedGrows(src: seq<Node>, ds: seq<FnDescriptor>, ds1: seq<FnDescriptor>, a: Addr, n: nat, segments: seq<Segment>)
    requires ItemFuncsDescribed(src, ds, a, n, segments) && ds <= ds1
    ensures ItemFuncsDescribed(src, ds1, a, n, segments)
  {
    forall j | 0 <= j < n && src[a].items[j].Func?
      ensures Described(ds1, segments + [Index(j)], src[a].items[j].name)
    {
      var k :| 0 <= k < |ds| && ds[k].segments == segments + [Index(j)] && ds[k].fnLabel == FnLabel(src[a].items[j].name, segments + [Index(j)]);
      assert ds1[k] == ds[k];
    }
  }

  /**
   * The clone `y` stands for the source value `x`: primitives are kept,
   * functions become null, arrays and plain objects become their recorded
   * clone, and other objects are passed as they are.
   */
  predicate Corresponds(src: seq<Node>, seen: map<Addr, Addr>, x: Val, y: Val) {
    match x
    case Prim(_) => y == x
    case Func(_) => y == Prim(Null)
    case Ref(b) =>
      if b < |src| && src[b].OtherNode? then y == x
      else b in seen && y == Ref(seen[b])
  }

  /** `s1` extends `s0`: every recorded clone stays recorded. */
  predicate SeenGrows(s0: map<Addr, Addr>, s1: map<Addr, Addr>) {
    forall b :: b in s0 ==> b in s1 && s1[b] == s0[b]
  }

  lemma CorrespondsGrows(src: seq<Node>, s0: map<Addr, Addr>, s1: map<Addr, Addr>, x: Val, y: Val)
    requires Corresponds(src, s0, x, y) && SeenGrows(s0, s1)
    ensures Corresponds(src, s1, x, y)
  {
  }

  /** The heap `h1` extends `h0`: the nodes of `h0` are unchanged. */
  predicate HeapGrows(h0: seq<Node>, h1: seq<Node>) {
    |h0| <= |h1| && forall x :: 0 <= x < |h0| ==> h1[x] == h0[x]
  }

  /** A complete clone of the source node `n`: same shape, each element standing for the source's. */
  predicate CloneOf(src: seq<Node>, seen: map<Addr, Addr>, n: Node, c: Node) {
    match n
    case ArrayNode(items) =>
      c.ArrayNode? && |c.items| == |items| && forall j :: 0 <= j < |items| ==> Corresponds(src, seen, items[j], c.items[j])
    case PlainNode(entries) =>
      c.PlainNode? && |c.entries| == |entries| &&
      forall j :: 0 <= j < |entries| ==> c.entries[j].0 == entries[j].0 && Corresponds(src, seen, entries[j].1, c.entries[j].1)
    case OtherNode => c == n
  }

  /** The heap starts with the untouched source objects, and seen maps source arrays and plain objects to clones after them. */
  predicate ValidState(src: seq<Node>, heap: seq<Node>, seen: map<Addr, Addr>) {
    && SourceWf(src)
    && HeapGrows(src, heap)
    && (forall b :: b in seen ==> b < |src| && !src[b].OtherNode? && |src| <= seen[b] < |heap|)
  }

  lemma HeapGrowsTrans(h0: seq<Node>, h1: seq<Node>, h2: seq<Node>)
    requires HeapGrows(h0, h1) && HeapGrows(h1, h2)
    ensures HeapGrows(h0, h2)
  {
  }

  /** Writing a clone slot created after `h0` keeps the state valid and `h0` untouched. */
  lemma WriteClone(src: seq<Node>, h0: seq<Node>, h: seq<Node>, seen: map<Addr, Addr>, c: Addr, n: Node)
    requires ValidState(src, h, seen) && HeapGrows(h0, h) && |src| <= |h0| <= c < |h|
    ensures ValidState(src, h[c := n], seen) && HeapGrows(h0, h[c := n])
  {
  }

  /** A clone is recorded in a fresh slot at the end of the heap. */
  lemma RecordClone(src: seq<Node>, h: seq<Node>, seen: map<Addr, Addr>, a: Addr, n: Node)
    requires ValidState(src, h, seen) && a < |src| && !src[a].OtherNode?
    ensures ValidState(src, h + [n], seen[a := |h|]) && HeapGrows(h, h + [n])
  {
  }

  /** Appending an element's clone extends the element-wise correspondence by one. */
  lemma CorrespondsExtend(src: seq<Node>, s0: map<Addr, Addr>, s1: map<Addr, Addr>, xs: seq<Val>, ys: seq<Val>, y: Val)
    requires |ys| < |xs| && SeenGrows(s0, s1)
    requires forall j :: 0 <= j < |ys| ==> Corresponds(src, s0, xs[j], ys[j])
    requires Corresponds(src, s1, xs[|ys|], y)
    ensures forall j :: 0 <= j < |ys| + 1 ==> Corresponds(src, s1, xs[j], (ys + [y])[j])
  {
    forall j | 0 <= j < |ys| + 1
      ensures Corresponds(src, s1, xs[j], (ys + [y])[j])
    {
      if j < |ys| {
        CorrespondsGrows(src, s0, s1, xs[j], ys[j]);
      }
    }
  }

  /** The entry-wise version for plain objects: keys copied, values corresponding. */
  lemma CorrespondsExtendEntries(src: seq<Node>, s0: map<Addr, Addr>, s1: map<Addr, Addr>, xs: seq<(string, Val)>, ys: seq<(string, Val)>, y: Val)
    requires |ys| < |xs| && SeenGrows(s0, s1)
    requires forall j :: 0 <= j < |ys| ==> ys[j].0 == xs[j].0 && Corresponds(src, s0, xs[j].1, ys[j].1)
    requires Corresponds(src, s1, xs[|ys|].1, y)
    ensures forall j :: 0 <= j < |ys| + 1 ==> (ys + [(xs[|ys|].0, y)])[j].0 == xs[j].0 && Corresponds(src, s1, xs[j].1, (ys + [(xs[|ys|].0, y)])[j].1)
  {
    forall j | 0 <= j < |ys| + 1
      ensures (ys + [(xs[|ys|].0, y)])[j].0 == xs[j].0 && Corresponds(src, s1, xs[j].1, (ys + [(xs[|ys|].0, y)])[j].1)
    {
      if j < |ys| {
        CorrespondsGrows(src, s0, s1, xs[j].1, ys[j].1);
      }
    }
  }

  /**
   * The run has grown from the state (`h0`, `s0`, `d0`) while cloning `v`,
   * met at `segments`: the state is valid, the old heap slots and recorded
   * clones are kept, descriptors were only appended, and each new one
   * locates a function below `v`.
   */
  ghost predicate Grown(src: seq<Node>, heap: seq<Node>, seen: map<Addr, Addr>, descriptors: seq<FnDescriptor>,
                        h0: seq<Node>, s0: map<Addr, Addr>, d0: seq<FnDescriptor>, v: Val, segments: seq<Segment>)
  {
    && ValidState(src, heap, seen) && HeapGrows(h0, heap) && SeenGrows(s0, seen)
    && d0 <= descriptors && AllLocate(src, v, segments, descriptors[|d0|..])
  }

  /**
   * Cloning the array at `a` into slot `c` has reached item `i`: the run has
   * grown below the array, and the first `i` items are cloned.
   */
  ghost predicate ArrayProgressState(src: seq<Node>, heap: seq<Node>, seen: map<Addr, Addr>, descriptors: seq<FnDescriptor>,
                                     a: Addr, c: Addr, i: nat, segments: seq<Segment>, d0: seq<FnDescriptor>, h0: seq<Node>, s0: map<Addr, Addr>)
  {
    && Grown(src, heap, seen, descriptors, h0, s0, d0, Ref(a), segments)
    && a < |src| && src[a].ArrayNode? && i <= |src[a].items|
    && |src| <= |h0| <= c < |heap| && a in seen && seen[a] == c
    && heap[c].ArrayNode? && |heap[c].items| == i
    && forall j :: 0 <= j < i ==> Corresponds(src, seen, src[a].items[j], heap[c].items[j])
  }

  /** The descriptors of item `i` join those found so far below the array at `a`. */
  lemma AppendLocate(src: seq<Node>, a: Addr, segments: seq<Segment>, lo: nat, before: seq<FnDescriptor>, descriptors: seq<FnDescriptor>, i: nat)
    requires a < |src| && src[a].ArrayNode? && i < |src[a].items|
    requires lo <= |before| && before <= descriptors
    requires AllLocate(src, Ref(a), segments, before[lo..])
    requires AllLocate(src, src[a].items[i], segments + [Index(i)], descriptors[|before|..])
    ensures AllLocate(src, Ref(a), segments, descriptors[lo..])
  {
    forall k | lo <= k < |descriptors|
      ensures Locates(src, Ref(a), segments, descriptors[k])
    {
      if k < |before| {
        assert descriptors[k] == before[lo..][k - lo];
      } else {
        assert descriptors[k] == descriptors[|before|..][k - |before|];
        LocatesInArray(src, a, i, segments, descriptors[k]);
      }
    }
  }

  /** Growth while cloning item `i` is growth below the array. */
  lemma ArrayAbort(src: seq<Node>, heap: seq<Node>, seen: map<Addr, Addr>, descriptors: seq<FnDescriptor>,
                   heap1: seq<Node>, seen1: map<Addr, Addr>, descriptors1: seq<FnDescriptor>,
                   a: Addr, c: Addr, i: nat, segments: seq<Segment>, d0: seq<FnDescriptor>, h0: seq<Node>, s0: map<Addr, Addr>)
    requires ArrayProgressState(src, heap, seen, descriptors, a, c, i, segments, d0, h0, s0) == true
    requires i < |src[a].items|
    requires Grown(src, heap1, seen1, descriptors1, heap, seen, descriptors, src[a].items[i], segments + [Index(i)])
    ensures Grown(src, heap1, seen1, descriptors1, h0, s0, d0, Ref(a), segments)
  {
    HeapGrowsTrans(h0, heap, heap1);
    AppendLocate(src, a, segments, |d0|, descriptors, descriptors1, i);
  }

  /** Storing the clone `v` of item `i` advances the array loop by one item. */
  lemma ArrayStep(src: seq<Node>, heap: seq<Node>, seen: map<Addr, Addr>, descriptors: seq<FnDescriptor>,
                  heap1: seq<Node>, seen1: map<Addr, Addr>, descriptors1: seq<FnDescriptor>, v: Val,
                  a: Addr, c: Addr, i: nat, segments: seq<Segment>, d0: seq<FnDescriptor>, h0: seq<Node>, s0: map<Addr, Addr>)
    requires ArrayProgressState(src, heap, seen, descriptors, a, c, i, segments, d0, h0, s0) == true
    requires i < |src[a].items|
    requires Grown(src, heap1, seen1, descriptors1, heap, seen, descriptors, src[a].items[i], segments + [Index(i)])
    requires Corresponds(src, seen1, src[a].items[i], v)
    ensures ArrayProgressState(src, heap1[c := ArrayNode(heap[c].items + [v])], seen1, descriptors1, a, c, i + 1, segments, d0, h0, s0)
  {
    ArrayAbort(src, heap, seen, descriptors, heap1, seen1, descriptors1, a, c, i, segments, d0, h0, s0);
    WriteClone(src, h0, heap1, seen1, c, ArrayNode(heap[c].items + [v]));
    CorrespondsExtend(src, seen, seen1, src[a].items, heap[c].items, v);
  }

  /**
   * Cloning the plain object at `a` into slot `c` has reached entry `i`: the
   * run has grown below the object, and the first `i` entries are cloned
   * under their keys.
   */
  ghost predicate ObjectProgressState(src: seq<Node>, heap: seq<Node>, seen: map<Addr, Addr>, descriptors: seq<FnDescriptor>,
                                      a: Addr, c: Addr, i: nat, segments: seq<Segment>, d0: seq<FnDescriptor>, h0: seq<Node>, s0: map<Addr, Addr>)
  {
    && Grown(src, heap, seen, descriptors, h0, s0, d0, Ref(a), segments)
    && a < |src| && src[a].PlainNode? && i <= |src[a].entries|
    && |src| <= |h0| <= c < |heap| && a in seen && seen[a] == c
    && heap[c].PlainNode? && |heap[c].entries| == i
    && forall j :: 0 <= j < i ==>
         heap[c].entries[j].0 == src[a].entries[j].0 && Corresponds(src, seen, src[a].entries[j].1, heap[c].entries[j].1)
  }

  /** The descriptors of entry `j` join those found so far below the object at `a`. */
  lemma AppendLocateEntry(src: seq<Node>, a: Addr, segments: seq<Segment>, lo: nat, before: seq<FnDescriptor>, descriptors: seq<FnDescriptor>, j: nat)
    requires SourceWf(src) && a < |src| && src[a].PlainNode? && j < |src[a].entries|
    requires lo <= |before| && before <= descriptors
    requires AllLocate(src, Ref(a), segments, before[lo..])
    requires AllLocate(src, src[a].entries[j].1, segments + [Key(src[a].entries[j].0)], descriptors[|before|..])
    ensures AllLocate(src, Ref(a), segments, descriptors[lo..])
  {
    forall k | lo <= k < |descriptors|
      ensures Locates(src, Ref(a), segments, descriptors[k])
    {
      if k < |before| {
        assert descriptors[k] == before[lo..][k - lo];
      } else {
        assert descriptors[k] == descriptors[|before|..][k - |before|];
        LocatesInObject(src, a, j, segments, descriptors[k]);
      }
    }
  }

  /** Growth while cloning entry `i` is growth below the object. */
  lemma ObjectAbort(src: seq<Node>, heap: seq<Node>, seen: map<Addr, Addr>, descriptors: seq<FnDescriptor>,
                    heap1: seq<Node>, seen1: map<Addr, Addr>, descriptors1: seq<FnDescriptor>,
                    a: Addr, c: Addr, i: nat, segments: seq<Segment>, d0: seq<FnDescriptor>, h0: seq<Node>, s0: map<Addr, Addr>)
    requires ObjectProgressState(src, heap, seen, descriptors, a, c, i, segments, d0, h0, s0) == true
    requires i < |src[a].entries|
    requires Grown(src, heap1, seen1, descriptors1, heap, seen, descriptors, src[a].entries[i].1, segments + [Key(src[a].entries[i].0)])
    ensures Grown(src, heap1, seen1, descriptors1, h0, s0, d0, Ref(a), segments)
  {
    HeapGrowsTrans(h0, heap, heap1);
    AppendLocateEntry(src, a, segments, |d0|, descriptors, descriptors1, i);
  }

  /** Storing the clone `v` of entry `i` under its key advances the object loop by one entry. */
  lemma ObjectStep(src: seq<Node>, heap: seq<Node>, seen: map<Addr, Addr>, descriptors: seq<FnDescriptor>,
                   heap1: seq<Node>, seen1: map<Addr, Addr>, descriptors1: seq<FnDescriptor>, v: Val,
                   a: Addr, c: Addr, i: nat, segments: seq<Segment>, d0: seq<FnDescriptor>, h0: seq<Node>, s0: map<Addr, Addr>)
    requires ObjectProgressState(src, heap, seen, descriptors, a, c, i, segments, d0, h0, s0) == true
    requires i < |src[a].entries|
    requires Grown(src, heap1, seen1, descriptors1, heap, seen, descriptors, src[a].entries[i].1, segments + [Key(src[a].entries[i].0)])
    requires Corresponds(src, seen1, src[a].entries[i].1, v)
    ensures ObjectProgressState(src, heap1[c := PlainNode(heap[c].entries + [(src[a].entries[i].0, v)])], seen1, descriptors1, a, c, i + 1, segments, d0, h0, s0)
  {
    ObjectAbort(src, heap, seen, descriptors, heap1, seen1, descriptors1, a, c, i, segments, d0, h0, s0);
    WriteClone(src, h0, heap1, seen1, c, PlainNode(heap[c].entries + [(src[a].entries[i].0, v)]));
    CorrespondsExtendEntries(src, seen, seen1, src[a].entries, heap[c].entries, v);
  }

  /**
   * One serializeArgs call: the heap (source objects first, clones after),
   * the seen map from source objects to their clones, and the descriptors
   * pushed so far. Callback channel ids come from `ids` in the order the
   * functions are met; the path formatter is a parameter.
   */
  class Serializer {
    const baseChannel: string
    const ids: nat -> string
    const formatPath: seq<Segment> -> string
    ghost const src: seq<Node>
    var heap: seq<Node>
    var seen: map<Addr, Addr>
    var descriptors: seq<FnDescriptor>

    /** The source objects are never written; seen maps source arrays and plain objects to clones. */
    ghost predicate Valid()
      reads this
    {
      ValidState(src, heap, seen)
    }

    constructor(source: seq<Node>, baseChannel: string, ids: nat -> string, formatPath: seq<Segment> -> string)
      requires SourceWf(source)
      ensures Valid()
      ensures src == source && heap == source && seen == map[] && descriptors == []
      ensures this.baseChannel == baseChannel && this.ids == ids && this.formatPath == formatPath
    {
      this.baseChannel := baseChannel;
      this.ids := ids;
      this.formatPath := formatPath;
      src := source;
      heap := source;
      seen := map[];
      descriptors := [];
    }

    /** The descriptor cloneValue pushes for a function met at `segments`. */
    function Describe(name: string, segments: seq<Segment>, count: nat): (d: FnDescriptor)
      ensures d.segments == segments && d.fnLabel == FnLabel(name, segments)
    {
      FnDescriptor(FnLabel(name, segments), formatPath([Key("args")] + segments), baseChannel + "_" + ids(count), segments)
    }

    /**
     * What cloneValue returns for `value`, met at `segments` and nesting
     * `depth`, given the heap, seen map and descriptors it started from:
     * the depth error beyond the maximum depth; null and one new descriptor
     * for a function; a primitive unchanged; the recorded clone of an object
     * met before; a fresh slot holding a complete clone of a new array or
     * plain object. Within the depth limit, every failure is rethrown as
     * SERIALIZE_FAILED.
     */
    ghost predicate CloneOutcome(value: Val, segments: seq<Segment>, depth: nat, r: Result<Val, SerializeError>, h0: seq<Node>, s0: map<Addr, Addr>, d0: seq<FnDescriptor>)
      reads this
    {
      && (depth > MaxDepth ==>
        r == Err(SerializeError(CircularReference, "Maximum serialization depth exceeded (possible circular reference)", "undefined")))
      && (depth <= MaxDepth && value.Func? ==>
        r == Ok(Prim(Null)) && descriptors == d0 + [Describe(value.name, segments, |d0|)])
      && (depth <= MaxDepth && value.Prim? ==> r == Ok(value) && descriptors == d0)
      && (depth <= MaxDepth && value.Ref? && value.addr in s0 ==>
        r == Ok(Ref(s0[value.addr])) && descriptors == d0)
      && (r.Ok? && value.Ref? && value.addr !in s0 && value.addr < |src| && !src[value.addr].OtherNode? ==>
        && r.value == Ref(|h0|)
        && |h0| < |heap|
        && CloneOf(src, seen, src[value.addr], heap[|h0|]))
      && (r.Err? && depth <= MaxDepth ==> r.error.code == SerializeFailed)
    }

    /**
     * cloneValue: the clone of `value`, met at `segments` and nesting
     * `depth`. Beyond the maximum depth it throws the circular-reference
     * error; a function becomes null and gets one descriptor; primitives
     * pass through; an object met before yields its recorded clone; an array
     * or plain object is recorded, then cloned element by element; any other
     * object passes through. An element's failure is rethrown as
     * "Failed to serialize array" or "Failed to serialize object".
     */
    method Clone(value: Val, segments: seq<Segment>, depth: nat) returns (r: Result<Val, SerializeError>)
      requires Valid() && ValIn(value, |src|)
      modifies this
      decreases if depth <= MaxDepth + 1 then MaxDepth + 1 - depth else 0, 3
      ensures Grown(src, heap, seen, descriptors, old(heap), old(seen), old(descriptors), value, segments)
      ensures CloneOutcome(value, segments, depth, r, old(heap), old(seen), old(descriptors))
      ensures r.Ok? ==> Corresponds(src, seen, value, r.value)
      ensures r.Ok? && depth < MaxDepth && value.Ref? && value.addr !in old(seen) && value.addr < |src| && src[value.addr].ArrayNode? ==>
        ItemFuncsDescribed(src, descriptors, value.addr, |src[value.addr].items|, segments)
      ensures r.Err? ==> r.error.code == CircularReference || r.error.code == SerializeFailed
    {
      if depth > MaxDepth {
        return Err(SerializeError(CircularReference, "Maximum serialization depth exceeded (possible circular reference)", "undefined"));
      }
      match value
      case Func(name) =>
        descriptors := descriptors + [Describe(name, segments, |descriptors|)];
        assert descriptors[|old(descriptors)|..] == [Describe(name, segments, |old(descriptors)|)];
        assert segments[|segments|..] == [];
        return Ok(Prim(Null));
      case Prim(_) =>
        return Ok(value);
      case Ref(a) =>
        if a in seen {
          return Ok(Ref(seen[a]));
        }
        assert heap[a] == src[a];
        match heap[a]
        case OtherNode =>
          return Ok(value);
        case ArrayNode(items) =>
          r := CloneArray(a, segments, depth);
        case PlainNode(entries) =>
          r := CloneObject(a, segments, depth);
    }

    /** The array case's loop state, on this serialiser's fields. */
    ghost predicate ArrayProgress(a: Addr, c: Addr, i: nat, segments: seq<Segment>, d0: seq<FnDescriptor>, h0: seq<Node>, s0: map<Addr, Addr>)
      reads this
    {
      ArrayProgressState(src, heap, seen, descriptors, a, c, i, segments, d0, h0, s0)
    }

    /** The array case of cloneValue: record an empty clone, then fill it item by item. */
    method CloneArray(a: Addr, segments: seq<Segment>, depth: nat) returns (r: Result<Val, SerializeError>)
      requires Valid() && a < |src| && src[a].ArrayNode? && a !in seen && depth <= MaxDepth
      modifies this
      decreases MaxDepth + 1 - depth, 2
      ensures Grown(src, heap, seen, descriptors, old(heap), old(seen), old(descriptors), Ref(a), segments)
      ensures r.Ok? ==> r.value == Ref(|old(heap)|) && |old(heap)| < |heap| && a in seen && seen[a] == |old(heap)|
      ensures r.Ok? ==> CloneOf(src, seen, src[a], heap[|old(heap)|])
      ensures r.Ok? && depth < MaxDepth ==> ItemFuncsDescribed(src, descriptors, a, |src[a].items|, segments)
      ensures r.Err? ==> r.error.code == SerializeFailed
    {
      assert heap[a] == src[a];
      var n := |heap[a].items|;
      var c := |heap|;
      RecordClone(src, heap, seen, a, ArrayNode([]));
      heap := heap + [ArrayNode([])];
      seen := seen[a := c];
      assert descriptors[|old(descriptors)|..] == [];
      var i := 0;
      while i < n
        invariant 0 <= i <= n
        invariant ArrayProgress(a, c, i, segments, old(descriptors), old(heap), old(seen))
        invariant depth < MaxDepth ==> ItemFuncsDescribed(src, descriptors, a, i, segments)
      {
        ghost var before := descriptors;
        var failed := CloneItem(a, c, i, segments, depth, old(descriptors), old(heap), old(seen));
        if failed.Some? {
          return Err(failed.value);
        }
        if depth < MaxDepth {
          ItemFuncsDescribedGrows(src, before, descriptors, a, i, segments);
          assert ItemDescribed(src, before, descriptors, a, i, segments, depth);
        }
        i := i + 1;
      }
      r := Ok(Ref(c));
    }

    /**
     * One forEach step of the array case: clone item `i` and store it in the
     * clone. (The loop state is compared with `true` so that it is checked
     * as one fact rather than conjunct by conjunct.)
     */
    method CloneItem(a: Addr, c: Addr, i: nat, segments: seq<Segment>, depth: nat, ghost d0: seq<FnDescriptor>, ghost h0: seq<Node>, ghost s0: map<Addr, Addr>)
      returns (failed: Option<SerializeError>)
      requires ArrayProgress(a, c, i, segments, d0, h0, s0) && i < |src[a].items| && depth <= MaxDepth
      modifies this
      decreases MaxDepth + 1 - depth, 1
      ensures failed.None? ==> ArrayProgress(a, c, i + 1, segments, d0, h0, s0) == true
      ensures failed.Some? ==> Grown(src, heap, seen, descriptors, h0, s0, d0, Ref(a), segments) == true
      ensures failed.Some? ==> failed.value.code == SerializeFailed
      ensures failed.None? ==> ItemDescribed(src, old(descriptors), descriptors, a, i, segments, depth) == true
    {
      ghost var before := descriptors;
      ghost var seenBefore := seen;
      ghost var heapBefore := heap;
      assert heap[a] == src[a];
      var cloned := heap[c].items;
      var item := Clone(heap[a].items[i], segments + [Index(i)], depth + 1);
      if item.Err? {
        ArrayAbort(src, heapBefore, seenBefore, before, heap, seen, descriptors, a, c, i, segments, d0, h0, s0);
        return Some(SerializeError(SerializeFailed, "Failed to serialize array", item.error.message));
      }
      ArrayStep(src, heapBefore, seenBefore, before, heap, seen, descriptors, item.value, a, c, i, segments, d0, h0, s0);
      DescribeItem(src, before, descriptors, a, i, segments, depth);
      heap := heap[c := ArrayNode(cloned + [item.value])];
      failed := None;
    }

    /** The object case's loop state, on this serialiser's fields. */
    ghost predicate ObjectProgress(a: Addr, c: Addr, i: nat, segments: seq<Segment>, d0: seq<FnDescriptor>, h0: seq<Node>, s0: map<Addr, Addr>)
      reads this
    {
      ObjectProgressState(src, heap, seen, descriptors, a, c, i, segments, d0, h0, s0)
    }

    /** The plain-object case of cloneValue: record an empty clone, then fill it entry by entry. */
    method CloneObject(a: Addr, segments: seq<Segment>, depth: nat) returns (r: Result<Val, SerializeError>)
      requires Valid() && a < |src| && src[a].PlainNode? && a !in seen && depth <= MaxDepth
      modifies this
      decreases MaxDepth + 1 - depth, 2
      ensures Grown(src, heap, seen, descriptors, old(heap), old(seen), old(descriptors), Ref(a), segments)
      ensures r.Ok? ==> r.value == Ref(|old(heap)|) && |old(heap)| < |heap| && a in seen && seen[a] == |old(heap)|
      ensures r.Ok? ==> CloneOf(src, seen, src[a], heap[|old(heap)|])
      ensures r.Err? ==> r.error.code == SerializeFailed
    {
      assert heap[a] == src[a];
      var n := |heap[a].entries|;
      var c := |heap|;
      RecordClone(src, heap, seen, a, PlainNode([]));
      heap := heap + [PlainNode([])];
      seen := seen[a := c];
      assert descriptors[|old(descriptors)|..] == [];
      var i := 0;
      while i < n
        invariant 0 <= i <= n
        invariant ObjectProgress(a, c, i, segments, old(descriptors), old(heap), old(seen))
      {
        var failed := CloneEntry(a, c, i, segments, depth, old(descriptors), old(heap), old(seen));
        if failed.Some? {
          return Err(failed.value);
        }
        i := i + 1;
      }
      r := Ok(Ref(c));
    }

    /**
     * One forEach step of the object case: clone entry `i` and store it
     * under its key. (The loop state is compared with `true` as in CloneItem.)
     */
    method CloneEntry(a: Addr, c: Addr, i: nat, segments: seq<Segment>, depth: nat, ghost d0: seq<FnDescriptor>, ghost h0: seq<Node>, ghost s0: map<Addr, Addr>)
      returns (failed: Option<SerializeError>)
      requires ObjectProgress(a, c, i, segments, d0, h0, s0) && i < |src[a].entries| && depth <= MaxDepth
      modifies this
      decreases MaxDepth + 1 - depth, 1
      ensures failed.None? ==> ObjectProgress(a, c, i + 1, segments, d0, h0, s0) == true
      ensures failed.Some? ==> Grown(src, heap, seen, descriptors, h0, s0, d0, Ref(a), segments) == true
      ensures failed.Some? ==> failed.value.code == SerializeFailed
    {
      ghost var before := descriptors;
      ghost var seenBefore := seen;
      ghost var heapBefore := heap;
      assert heap[a] == src[a];
      var entries := heap[a].entries;
      var cloned := heap[c].entries;
      var entry := Clone(entries[i].1, segments + [Key(entries[i].0)], depth + 1);
      if entry.Err? {
        ObjectAbort(src, heapBefore, seenBefore, before, heap, seen, descriptors, a, c, i, segments, d0, h0, s0);
        return Some(SerializeError(SerializeFailed, "Failed to serialize object", entry.error.message));
      }
      ObjectStep(src, heapBefore, seenBefore, before, heap, seen, descriptors, entry.value, a, c, i, segments, d0, h0, s0);
      heap := heap[c := PlainNode(cloned + [(entries[i].0, entry.value)])];
      failed := None;
    }
  }

  /** The result of serializeArgs: the cloned arguments, the function descriptors, and the heap holding the clones. */
  datatype Serialized = Serialized(sanitizedArgs: seq<Val>, descriptors: seq<FnDescriptor>, heap: seq<Node>)

  /**
   * serializeArgs: the clone of the argument array at `args`, whose items
   * are the sanitised arguments, with one descriptor for every function
   * found below them (paths start at the argument index). No arguments give
   * no results. Errors keep their code, and the only one that reaches the
   * caller is SERIALIZE_FAILED. The `seen` map of the run is returned as a
   * ghost result so that the clones can be related to the source.
   */
  method SerializeArgs(src: seq<Node>, args: Addr, baseChannel: string, ids: nat -> string, formatPath: seq<Segment> -> string)
    returns (r: Result<Serialized, SerializeError>, ghost seen: map<Addr, Addr>)
    requires SourceWf(src) && args < |src| && src[args].ArrayNode?
    ensures src[args].items == [] ==> r == Ok(Serialized([], [], src))
    ensures r.Ok? ==> ValidState(src, r.value.heap, seen)
    ensures r.Ok? ==> |r.value.sanitizedArgs| == |src[args].items|
    ensures r.Ok? ==> forall i :: 0 <= i < |src[args].items| ==> Corresponds(src, seen, src[args].items[i], r.value.sanitizedArgs[i])
    ensures r.Ok? ==> AllLocate(src, Ref(args), [], r.value.descriptors)
    ensures r.Ok? ==> forall i :: 0 <= i < |src[args].items| && src[args].items[i].Func? ==>
      Described(r.value.descriptors, [Index(i)], src[args].items[i].name)
    ensures r.Err? ==> r.error.code == SerializeFailed
  {
    if src[args].items == [] {
      return Ok(Serialized([], [], src)), map[];
    }
    var s := new Serializer(src, baseChannel, ids, formatPath);
    var cloned := s.Clone(Ref(args), [], 0);
    seen := s.seen;
    if cloned.Err? {
      return Err(cloned.error), seen;
    }
    assert s.descriptors[0..] == s.descriptors;
    forall i | 0 <= i < |src[args].items| && src[args].items[i].Func?
      ensures Described(s.descriptors, [Index(i)], src[args].items[i].name)
    {
      assert [] + [Index(i)] == [Index(i)];
    }
    var node := s.heap[|src|];
    r := Ok(Serialized(node.items, s.descriptors, s.heap));
  }
}
