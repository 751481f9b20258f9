/** Turning an object graph, shared and cyclic as it may be, into a finite JSON tree. */
module JsonSafe {
  import opened Wrappers

  type Ref = nat

  /** A float; the values that are not finite have no place in JSON. */
  datatype Float = Finite(value: real) | NonFinite(name: string)

  /** The values that hold no others. A decimal stands as the float it converts to; `Opaque` is every type
      the conversion does not know. */
  datatype Leaf =
    | Null
    | Flag(flag: bool)
    | Number(number: Float)
    | Text(text: string)
    | Moment(iso: string)
    | DecimalNumber(number: Float)
    | Uuid(text: string)
    | FilePath(posix: string)
    | Bytes(utf8: Option<string>, hex: string)
    | Opaque(type_: string)

  datatype Value = Scalar(leaf: Leaf) | Container(ref: Ref)

  /** A dictionary's key stands as its string form; distinct keys may share one. A set stands in the order
      it is walked. */
  datatype Entry = Entry(key: string, value: Value)

  datatype Node = Dict(entries: seq<Entry>) | List(items: seq<Value>) | Set(items: seq<Value>)

  type Heap = map<Ref, Node>

  function EntryValues(entries: seq<Entry>): (values: seq<Value>)
    ensures |values| == |entries|
  {
    if entries == [] then [] else [entries[0].value] + EntryValues(entries[1..])
  }

  function Children(n: Node): seq<Value> {
    match n
    case Dict(es) => EntryValues(es)
    case List(vs) => vs
    case Set(vs) => vs
  }

  predicate Points(heap: Heap, v: Value) {
    v.Container? ==> v.ref in heap
  }

  predicate AllPoint(heap: Heap, values: seq<Value>) {
    forall v | v in values :: Points(heap, v)
  }

  ghost predicate Closed(heap: Heap) {
    forall r | r in heap :: AllPoint(heap, Children(heap[r]))
  }

  // ---- The result --------------------------------------------------------

  datatype Json =
    | JNull
    | JBool(b: bool)
    | JNumber(x: Float)
    | JString(s: string)
    | JCycle
    | JArray(items: seq<Json>)
    | JObject(members: seq<Member>)
    | JOpaque(type_: string)

  datatype Member = Member(key: string, value: Json)

  function LeafJson(l: Leaf): Json {
    match l
    case Null => JNull
    case Flag(b) => JBool(b)
    case Number(x) => JNumber(x)
    case Text(s) => JString(s)
    case Moment(s) => JString(s)
    case DecimalNumber(x) => JNumber(x)
    case Uuid(s) => JString(s)
    case FilePath(s) => JString(s)
    case Bytes(utf8, hex) => JString(if utf8.Some? then utf8.value else hex)
    case Opaque(t) => JOpaque(t)
  }

  /** A member set in a dictionary: the value of a key that is there is replaced. */
  function Put(members: seq<Member>, m: Member): seq<Member> {
    if members == [] then [m]
    else if members[0].key == m.key then [m] + members[1..]
    else [members[0]] + Put(members[1..], m)
  }

  function PutAll(members: seq<Member>, entries: seq<Entry>, values: seq<Json>): seq<Member>
    requires |entries| == |values|
    decreases |entries|
  {
    if entries == [] then members
    else PutAll(Put(members, Member(entries[0].key, values[0])), entries[1..], values[1..])
  }

  /** Where a value's representation falls in the order of strings. */
  type SortKey = Json -> real

  function Insert(key: SortKey, j: Json, sorted: seq<Json>): seq<Json> {
    if sorted == [] || key(j) <= key(sorted[0]) then [j] + sorted else [sorted[0]] + Insert(key, j, sorted[1..])
  }

  function SortBy(key: SortKey, values: seq<Json>): seq<Json> {
    if values == [] then [] else Insert(key, values[0], SortBy(key, values[1..]))
  }

  // ---- The conversion ----------------------------------------------------

  /** Converts a value met below the containers in `seen`. A container met again below itself is cut off. */
  function Jsonify(key: SortKey, heap: Heap, v: Value, seen: set<Ref>): Json
    requires Closed(heap) && Points(heap, v)
    decreases |heap.Keys - seen|, 0
  {
    match v
    case Scalar(l) => LeafJson(l)
    case Container(r) =>
      if r in seen then JCycle
      else
        assert heap.Keys - (seen + {r}) < heap.Keys - seen;
        ProperSubsetIsSmaller(heap.Keys - (seen + {r}), heap.Keys - seen);
        var values := JsonifyAll(key, heap, Children(heap[r]), seen + {r});
        match heap[r]
        case Dict(es) => JObject(PutAll([], es, values))
        case List(_) => JArray(values)
        case Set(_) => JArray(SortBy(key, values))
  }

  function JsonifyAll(key: SortKey, heap: Heap, values: seq<Value>, seen: set<Ref>): (js: seq<Json>)
    requires Closed(heap) && AllPoint(heap, values)
    ensures |js| == |values|
    decreases |heap.Keys - seen|, |values| + 1
  {
    if values == [] then []
    else [Jsonify(key, heap, values[0], seen)] + JsonifyAll(key, heap, values[1..], seen)
  }

  // ---- What a tree shows -------------------------------------------------

  /** A property of what stands at the leaves of a tree. */
  type Property = Json -> bool

  predicate Shows(p: Property, j: Json) {
    match j
    case JArray(items) => SomeShows(p, items)
    case JObject(members) => SomeMemberShows(p, members)
    case _ => p(j)
  }

  predicate SomeShows(p: Property, js: seq<Json>) {
    js != [] && (Shows(p, js[0]) || SomeShows(p, js[1..]))
  }

  predicate SomeMemberShows(p: Property, members: seq<Member>) {
    members != [] && (Shows(p, members[0].value) || SomeMemberShows(p, members[1..]))
  }

  lemma {:induction false} SomeShowsAt(p: Property, js: seq<Json>, i: nat)
    requires i < |js| && Shows(p, js[i])
    ensures SomeShows(p, js)
  {
    if i > 0 {
      SomeShowsAt(p, js[1..], i - 1);
    }
  }

  lemma {:induction false} FindShown(p: Property, js: seq<Json>) returns (i: nat)
    requires SomeShows(p, js)
    ensures i < |js| && Shows(p, js[i])
  {
    if Shows(p, js[0]) {
      i := 0;
    } else {
      var rest := FindShown(p, js[1..]);
      i := rest + 1;
    }
  }

  lemma {:induction false} InsertShows(p: Property, key: SortKey, j: Json, sorted: seq<Json>)
    ensures SomeShows(p, Insert(key, j, sorted)) <==> Shows(p, j) || SomeShows(p, sorted)
  {
    if sorted == [] || key(j) <= key(sorted[0]) {
      assert ([j] + sorted)[1..] == sorted;
    } else {
      InsertShows(p, key, j, sorted[1..]);
      assert Insert(key, j, sorted)[1..] == Insert(key, j, sorted[1..]);
    }
  }

  lemma {:induction false} SortShows(p: Property, key: SortKey, js: seq<Json>)
    ensures SomeShows(p, SortBy(key, js)) <==> SomeShows(p, js)
  {
    if js != [] {
      SortShows(p, key, js[1..]);
      InsertShows(p, key, js[0], SortBy(key, js[1..]));
    }
  }

  // ---- Dictionaries ------------------------------------------------------

  function KeySet(entries: seq<Entry>): set<string> {
    if entries == [] then {} else {entries[0].key} + KeySet(entries[1..])
  }

  function MemberKeys(members: seq<Member>): set<string> {
    if members == [] then {} else {members[0].key} + MemberKeys(members[1..])
  }

  predicate MembersDistinct(members: seq<Member>) {
    members == [] || (members[0].key !in MemberKeys(members[1..]) && MembersDistinct(members[1..]))
  }

  /** The values of the entries whose key no later entry repeats. */
  function LiveValues(entries: seq<Entry>): seq<Value> {
    if entries == [] then []
    else (if entries[0].key in KeySet(entries[1..]) then [] else [entries[0].value]) + LiveValues(entries[1..])
  }

  function LiveChildren(n: Node): seq<Value> {
    match n
    case Dict(es) => LiveValues(es)
    case List(vs) => vs
    case Set(vs) => vs
  }

  lemma {:induction false} LiveValuesAreValues(entries: seq<Entry>)
    ensures forall v | v in LiveValues(entries) :: v in EntryValues(entries)
  {
    if entries != [] {
      LiveValuesAreValues(entries[1..]);
    }
  }

  lemma {:induction false} LiveChildrenPoint(heap: Heap, r: Ref)
    requires Closed(heap) && r in heap
    ensures AllPoint(heap, LiveChildren(heap[r]))
  {
    if heap[r].Dict? {
      LiveValuesAreValues(heap[r].entries);
    }
  }

  /** Some member shows the property, and no entry with one of the keys is still to come. */
  predicate SomeLastingShows(p: Property, members: seq<Member>, coming: set<string>) {
    members != [] &&
    ((Shows(p, members[0].value) && members[0].key !in coming) || SomeLastingShows(p, members[1..], coming))
  }

  lemma {:induction false} NothingComing(p: Property, members: seq<Member>)
    ensures SomeLastingShows(p, members, {}) <==> SomeMemberShows(p, members)
  {
    if members != [] {
      NothingComing(p, members[1..]);
    }
  }

  lemma {:induction false} PutKeepsDistinct(members: seq<Member>, m: Member)
    requires MembersDistinct(members)
    ensures MembersDistinct(Put(members, m)) && MemberKeys(Put(members, m)) == MemberKeys(members) + {m.key}
  {
    if members == [] {
      assert [m][1..] == [];
    } else if members[0].key == m.key {
      assert ([m] + members[1..])[1..] == members[1..];
    } else {
      PutKeepsDistinct(members[1..], m);
      assert Put(members, m)[1..] == Put(members[1..], m);
    }
  }

  lemma {:induction false} LastingWithout(p: Property, members: seq<Member>, coming: set<string>, k: string)
    requires k !in MemberKeys(members)
    ensures SomeLastingShows(p, members, coming + {k}) <==> SomeLastingShows(p, members, coming)
  {
    if members != [] {
      LastingWithout(p, members[1..], coming, k);
    }
  }

  lemma {:induction false} PutShows(p: Property, members: seq<Member>, m: Member, coming: set<string>)
    requires MembersDistinct(members)
    ensures SomeLastingShows(p, Put(members, m), coming) <==>
            SomeLastingShows(p, members, coming + {m.key}) || (Shows(p, m.value) && m.key !in coming)
  {
    if members == [] {
      assert [m][1..] == [];
    } else if members[0].key == m.key {
      assert ([m] + members[1..])[1..] == members[1..];
      LastingWithout(p, members[1..], coming, m.key);
    } else {
      PutShows(p, members[1..], m, coming);
      assert Put(members, m)[1..] == Put(members[1..], m);
    }
  }

  /** A live entry's value shows the property. */
  predicate SomeLiveShows(p: Property, entries: seq<Entry>, values: seq<Json>)
    requires |entries| == |values|
  {
    entries != [] &&
    ((Shows(p, values[0]) && entries[0].key !in KeySet(entries[1..])) || SomeLiveShows(p, entries[1..], values[1..]))
  }

  /** A dictionary shows what its live entries show. */
  lemma {:induction false} PutAllShows(p: Property, members: seq<Member>, entries: seq<Entry>, values: seq<Json>)
    requires |entries| == |values| && MembersDistinct(members)
    ensures SomeMemberShows(p, PutAll(members, entries, values)) <==>
            SomeLastingShows(p, members, KeySet(entries)) || SomeLiveShows(p, entries, values)
    decreases |entries|
  {
    if entries == [] {
      NothingComing(p, members);
    } else {
      var m := Member(entries[0].key, values[0]);
      PutKeepsDistinct(members, m);
      PutAllShows(p, Put(members, m), entries[1..], values[1..]);
      PutShows(p, members, m, KeySet(entries[1..]));
      assert KeySet(entries) == KeySet(entries[1..]) + {m.key};
    }
  }

  lemma {:induction false} LiveValuesShow(p: Property, key: SortKey, heap: Heap, entries: seq<Entry>, seen: set<Ref>)
    requires Closed(heap) && AllPoint(heap, EntryValues(entries)) && AllPoint(heap, LiveValues(entries))
    ensures SomeLiveShows(p, entries, JsonifyAll(key, heap, EntryValues(entries), seen)) <==>
            SomeShows(p, JsonifyAll(key, heap, LiveValues(entries), seen))
  {
    if entries != [] {
      var values, rest := JsonifyAll(key, heap, EntryValues(entries), seen), LiveValues(entries[1..]);
      assert EntryValues(entries)[1..] == EntryValues(entries[1..]);
      assert AllPoint(heap, EntryValues(entries[1..]));
      LiveValuesAreValues(entries[1..]);
      assert values[1..] == JsonifyAll(key, heap, EntryValues(entries[1..]), seen);
      LiveValuesShow(p, key, heap, entries[1..], seen);
      if entries[0].key !in KeySet(entries[1..]) {
        assert LiveValues(entries) == [entries[0].value] + rest && LiveValues(entries)[1..] == rest;
      } else {
        assert LiveValues(entries) == rest;
      }
    }
  }

  /** A container shows what its live children show. */
  lemma {:induction false} ContainerShows(p: Property, key: SortKey, heap: Heap, r: Ref, seen: set<Ref>)
    requires Closed(heap) && r in heap && r !in seen
    ensures AllPoint(heap, LiveChildren(heap[r]))
    ensures Shows(p, Jsonify(key, heap, Container(r), seen)) <==>
            SomeShows(p, JsonifyAll(key, heap, LiveChildren(heap[r]), seen + {r}))
  {
    LiveChildrenPoint(heap, r);
    var values := JsonifyAll(key, heap, Children(heap[r]), seen + {r});
    match heap[r]
    case Dict(es) =>
      PutAllShows(p, [], es, values);
      LiveValuesShow(p, key, heap, es, seen + {r});
    case List(_) =>
    case Set(_) => SortShows(p, key, values);
  }

  lemma {:induction false} JsonifyAllAt(key: SortKey, heap: Heap, values: seq<Value>, seen: set<Ref>, i: nat)
    requires Closed(heap) && AllPoint(heap, values) && i < |values|
    ensures Points(heap, values[i])
    ensures JsonifyAll(key, heap, values, seen)[i] == Jsonify(key, heap, values[i], seen)
  {
    if i > 0 {
      JsonifyAllAt(key, heap, values[1..], seen, i - 1);
    }
  }

  lemma {:induction false} ShownChild(p: Property, key: SortKey, heap: Heap, r: Ref, seen: set<Ref>)
    returns (child: Value)
    requires Closed(heap) && r in heap && r !in seen && Shows(p, Jsonify(key, heap, Container(r), seen))
    ensures child in LiveChildren(heap[r]) && Points(heap, child)
    ensures Shows(p, Jsonify(key, heap, child, seen + {r}))
  {
    ContainerShows(p, key, heap, r, seen);
    var i := FindShown(p, JsonifyAll(key, heap, LiveChildren(heap[r]), seen + {r}));
    JsonifyAllAt(key, heap, LiveChildren(heap[r]), seen + {r}, i);
    child := LiveChildren(heap[r])[i];
  }

  lemma {:induction false} ChildIsShown(p: Property, key: SortKey, heap: Heap, r: Ref, seen: set<Ref>, child: Value)
    requires Closed(heap) && r in heap && r !in seen && child in LiveChildren(heap[r]) && Points(heap, child)
    requires Shows(p, Jsonify(key, heap, child, seen + {r}))
    ensures Shows(p, Jsonify(key, heap, Container(r), seen))
  {
    ContainerShows(p, key, heap, r, seen);
    var i :| 0 <= i < |LiveChildren(heap[r])| && LiveChildren(heap[r])[i] == child;
    JsonifyAllAt(key, heap, LiveChildren(heap[r]), seen + {r}, i);
    SomeShowsAt(p, JsonifyAll(key, heap, LiveChildren(heap[r]), seen + {r}), i);
  }

  // ---- Cycles ------------------------------------------------------------

  /** A walk down the graph: each container holds the next as a live child. */
  predicate Walk(heap: Heap, path: seq<Ref>) {
    path == [] ||
    (path[0] in heap &&
     (|path| > 1 ==> Container(path[1]) in LiveChildren(heap[path[0]])) &&
     Walk(heap, path[1..]))
  }

  /** A walk that ends in a container it has passed, or that was passed before it. */
  predicate ClosesOn(heap: Heap, v: Value, path: seq<Ref>, seen: set<Ref>) {
    Walk(heap, path) && path != [] && v == Container(path[0]) &&
    (path[|path| - 1] in seen || path[|path| - 1] in path[..|path| - 1])
  }

  /** A walk from the value that comes back to a container it has passed. */
  predicate Loops(heap: Heap, v: Value, path: seq<Ref>) {
    ClosesOn(heap, v, path, {})
  }

  /** A container was cut off here. */
  const CUT: Property := (j: Json) => j.JCycle?

  lemma {:induction false} WalkFromParent(heap: Heap, r: Ref, child: Value, path: seq<Ref>, seen: set<Ref>)
    requires r in heap && child in LiveChildren(heap[r]) && ClosesOn(heap, child, path, seen + {r})
    ensures ClosesOn(heap, Container(r), [r] + path, seen)
  {
    var longer := [r] + path;
    assert longer[1..] == path;
    assert longer[|longer| - 1] == path[|path| - 1];
    assert longer[..|longer| - 1] == [r] + path[..|path| - 1];
  }

  lemma {:induction false} WalkAlone(heap: Heap, r: Ref, seen: set<Ref>)
    requires r in heap && r in seen
    ensures ClosesOn(heap, Container(r), [r], seen)
  {
  }

  lemma {:induction false} LeavesAreNotCut(key: SortKey, heap: Heap, v: Value, seen: set<Ref>)
    requires Closed(heap) && Points(heap, v) && Shows(CUT, Jsonify(key, heap, v, seen))
    ensures v.Container?
  {
  }

  /** Wherever the result is cut off there is a loop in the graph. */
  lemma {:induction false} CutsAreLoops(key: SortKey, heap: Heap, v: Value, seen: set<Ref>) returns (path: seq<Ref>)
    requires Closed(heap) && Points(heap, v) && Shows(CUT, Jsonify(key, heap, v, seen))
    ensures ClosesOn(heap, v, path, seen)
    decreases |heap.Keys - seen|
  {
    LeavesAreNotCut(key, heap, v, seen);
    if v.ref in seen {
      path := [v.ref];
      WalkAlone(heap, v.ref, seen);
    } else {
      path := CutsBelowAreLoops(key, heap, v.ref, seen);
    }
  }

  lemma {:induction false} CutsBelowAreLoops(key: SortKey, heap: Heap, r: Ref, seen: set<Ref>) returns (path: seq<Ref>)
    requires Closed(heap) && r in heap && r !in seen && Shows(CUT, Jsonify(key, heap, Container(r), seen))
    ensures ClosesOn(heap, Container(r), path, seen)
    decreases |heap.Keys - seen|, 0
  {
    ProperSubsetIsSmaller(heap.Keys - (seen + {r}), heap.Keys - seen);
    var child := ShownChild(CUT, key, heap, r, seen);
    var rest := CutsAreLoops(key, heap, child, seen + {r});
    path := [r] + rest;
    WalkFromParent(heap, r, child, rest, seen);
  }

  lemma {:induction false} ClosesBelow(heap: Heap, path: seq<Ref>, seen: set<Ref>)
    requires path != [] && ClosesOn(heap, Container(path[0]), path, seen) && path[0] !in seen
    ensures |path| > 1 && ClosesOn(heap, Container(path[1]), path[1..], seen + {path[0]})
    ensures Container(path[1]) in LiveChildren(heap[path[0]])
  {
    assert path[1..][|path| - 2] == path[|path| - 1];
    assert path[..|path| - 1] == [path[0]] + path[1..][..|path| - 2];
  }

  /** Every loop in the graph cuts the result off somewhere. */
  lemma {:induction false} LoopsAreCut(key: SortKey, heap: Heap, v: Value, seen: set<Ref>, path: seq<Ref>)
    requires Closed(heap) && Points(heap, v) && ClosesOn(heap, v, path, seen)
    ensures Shows(CUT, Jsonify(key, heap, v, seen))
    decreases |path|
  {
    var r := path[0];
    if r !in seen {
      ClosesBelow(heap, path, seen);
      LiveChildrenPoint(heap, r);
      LoopsAreCut(key, heap, Container(path[1]), seen + {r}, path[1..]);
      ChildIsShown(CUT, key, heap, r, seen, Container(path[1]));
    }
  }

  /** The conversion ends on every graph, and cuts something off if and only if some container that the
      value reaches reaches itself, over values that no later key replaces. */
  lemma {:induction false} CutIffLoops(key: SortKey, heap: Heap, v: Value)
    requires Closed(heap) && Points(heap, v)
    ensures Shows(CUT, Jsonify(key, heap, v, {})) <==> exists path :: Loops(heap, v, path)
  {
    if Shows(CUT, Jsonify(key, heap, v, {})) {
      var path := CutsAreLoops(key, heap, v, {});
      assert Loops(heap, v, path);
    } else if exists path :: Loops(heap, v, path) {
      var path :| Loops(heap, v, path);
      LoopsAreCut(key, heap, v, {}, path);
    }
  }

  /** Two keys with one string form can hide a loop: a dictionary that holds itself, under a key that a
      later entry takes over. */
  lemma {:induction false} CollisionHidesLoop(key: SortKey) returns (heap: Heap)
    ensures Closed(heap) && 0 in heap && Container(0) in Children(heap[0])
    ensures !Shows(CUT, Jsonify(key, heap, Container(0), {}))
  {
    var entries := [Entry("1", Container(0)), Entry("1", Scalar(Null))];
    heap := map[0 := Dict(entries)];
    assert EntryValues(entries) == [Container(0), Scalar(Null)];
    assert entries[1..] == [entries[1]] && entries[1..][1..] == [];
    assert KeySet(entries[1..]) == {"1"};
    assert LiveValues(entries[1..]) == [Scalar(Null)] + LiveValues(entries[1..][1..]);
    assert LiveChildren(heap[0]) == [Scalar(Null)];
    if Shows(CUT, Jsonify(key, heap, Container(0), {})) {
      var child := ShownChild(CUT, key, heap, 0, {});
    }
  }

  // ---- Values that are not JSON ------------------------------------------

  /** Here stands a float that is not finite, or a value of an unknown type. */
  const FOREIGN: Property := (j: Json) => j.JOpaque? || (j.JNumber? && j.x.NonFinite?)

  predicate IsForeign(l: Leaf) {
    match l
    case Number(x) => x.NonFinite?
    case DecimalNumber(x) => x.NonFinite?
    case Opaque(_) => true
    case _ => false
  }

  /** The value is the leaf, or the walk leads from it to a container with the leaf as a live child. */
  predicate LeadsTo(heap: Heap, v: Value, path: seq<Ref>, l: Leaf)
    decreases |path|
  {
    if path == [] then v == Scalar(l)
    else
      v == Container(path[0]) && path[0] in heap &&
      if |path| == 1 then Scalar(l) in LiveChildren(heap[path[0]])
      else Container(path[1]) in LiveChildren(heap[path[0]]) && LeadsTo(heap, Container(path[1]), path[1..], l)
  }

  predicate LeadsToForeign(heap: Heap, v: Value, path: seq<Ref>, l: Leaf) {
    LeadsTo(heap, v, path, l) && IsForeign(l)
  }

  lemma {:induction false} LeadsFromParent(heap: Heap, r: Ref, child: Value, path: seq<Ref>, l: Leaf)
    requires r in heap && child in LiveChildren(heap[r]) && LeadsTo(heap, child, path, l)
    ensures LeadsTo(heap, Container(r), [r] + path, l)
  {
    assert ([r] + path)[1..] == path;
  }

  lemma {:induction false} LeadsFromLater(heap: Heap, path: seq<Ref>, l: Leaf, k: nat)
    requires k < |path| && LeadsTo(heap, Container(path[0]), path, l)
    ensures LeadsTo(heap, Container(path[k]), path[k..], l)
  {
    if k == 0 {
      assert path[0..] == path;
    } else {
      LeadsFromLater(heap, path[1..], l, k - 1);
      assert path[1..][k - 1..] == path[k..];
    }
  }

  /** What is not JSON in the result comes from a leaf that the value reaches. */
  lemma {:induction false} ForeignIsReached(key: SortKey, heap: Heap, v: Value, seen: set<Ref>)
    returns (path: seq<Ref>, l: Leaf)
    requires Closed(heap) && Points(heap, v) && Shows(FOREIGN, Jsonify(key, heap, v, seen))
    ensures LeadsTo(heap, v, path, l) && IsForeign(l)
    decreases |heap.Keys - seen|
  {
    if v.Scalar? {
      path, l := [], v.leaf;
    } else {
      var r := v.ref;
      ProperSubsetIsSmaller(heap.Keys - (seen + {r}), heap.Keys - seen);
      var child := ShownChild(FOREIGN, key, heap, r, seen);
      var rest, leaf := ForeignIsReached(key, heap, child, seen + {r});
      path, l := [r] + rest, leaf;
      LeadsFromParent(heap, r, child, rest, leaf);
    }
  }

  /** Such a leaf shows, however roundabout the walk that leads to it. */
  lemma {:induction false} ForeignIsShown(key: SortKey, heap: Heap, v: Value, seen: set<Ref>, path: seq<Ref>, l: Leaf)
    requires Closed(heap) && Points(heap, v) && LeadsTo(heap, v, path, l) && IsForeign(l)
    requires forall r | r in path :: r !in seen
    ensures Shows(FOREIGN, Jsonify(key, heap, v, seen))
    decreases |path|
  {
    if path != [] {
      var r := path[0];
      if r in path[1..] {
        var k :| 0 <= k < |path| - 1 && path[1..][k] == r;
        LeadsFromLater(heap, path, l, k + 1);
        ForeignIsShown(key, heap, v, seen, path[k + 1..], l);
      } else {
        var child := if |path| == 1 then Scalar(l) else Container(path[1]);
        LiveChildrenPoint(heap, r);
        ForeignIsShown(key, heap, child, seen + {r}, path[1..], l);
        ChildIsShown(FOREIGN, key, heap, r, seen, child);
      }
    }
  }

  /** The result is JSON throughout if and only if the value reaches, over values that no later key
      replaces, no float that is not finite and no value of an unknown type. */
  lemma {:induction false} ForeignIffReached(key: SortKey, heap: Heap, v: Value)
    requires Closed(heap) && Points(heap, v)
    ensures Shows(FOREIGN, Jsonify(key, heap, v, {})) <==> exists path, l :: LeadsToForeign(heap, v, path, l)
  {
    if Shows(FOREIGN, Jsonify(key, heap, v, {})) {
      var path, l := ForeignIsReached(key, heap, v, {});
      assert LeadsToForeign(heap, v, path, l);
    } else if exists path, l :: LeadsToForeign(heap, v, path, l) {
      var path, l :| LeadsToForeign(heap, v, path, l);
      ForeignIsShown(key, heap, v, {}, path, l);
    }
  }

  /** A decimal that is not a number is a listed type, and still leaves a value that JSON does not have. */
  lemma {:induction false} NotANumberIsKept(key: SortKey)
    ensures var heap := map[0 := List([Scalar(DecimalNumber(NonFinite("nan")))])];
            Closed(heap) && Shows(FOREIGN, Jsonify(key, heap, Container(0), {}))
  {
    var leaf := DecimalNumber(NonFinite("nan"));
    var heap := map[0 := List([Scalar(leaf)])];
    ForeignIsShown(key, heap, Container(0), {}, [0], leaf);
  }
}
