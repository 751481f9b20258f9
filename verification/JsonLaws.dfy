/** What the conversion to JSON keeps: its results convert to themselves, and sets have no order. */
module JsonLaws {
  import opened Wrappers
  import opened JsonSafe

  // ---- Converting a result again -----------------------------------------

  /** The value is laid out as the tree: every node its own container, none met again below itself. */
  predicate LaidOutAs(heap: Heap, v: Value, j: Json, above: set<Ref>)
    decreases j
  {
    match j
    case JNull => v == Scalar(Null)
    case JBool(b) => v == Scalar(Flag(b))
    case JNumber(x) => v == Scalar(Number(x))
    case JString(s) => v == Scalar(Text(s))
    case JCycle => v == Scalar(Text("<cycle>"))
    case JOpaque(t) => v == Scalar(Opaque(t))
    case JArray(items) =>
      && v.Container? && v.ref in heap && v.ref !in above && heap[v.ref].List?
      && AllLaidOutAs(heap, heap[v.ref].items, items, above + {v.ref})
    case JObject(members) =>
      && v.Container? && v.ref in heap && v.ref !in above && heap[v.ref].Dict?
      && MembersLaidOutAs(heap, heap[v.ref].entries, members, above + {v.ref})
  }

  predicate AllLaidOutAs(heap: Heap, values: seq<Value>, js: seq<Json>, above: set<Ref>)
    decreases js
  {
    |values| == |js| &&
    (js == [] || (LaidOutAs(heap, values[0], js[0], above) && AllLaidOutAs(heap, values[1..], js[1..], above)))
  }

  predicate MembersLaidOutAs(heap: Heap, entries: seq<Entry>, members: seq<Member>, above: set<Ref>)
    decreases members
  {
    |entries| == |members| &&
    (members == [] ||
     (entries[0].key == members[0].key && LaidOutAs(heap, entries[0].value, members[0].value, above) &&
      MembersLaidOutAs(heap, entries[1..], members[1..], above)))
  }

  /** The tree as it is stored, where a cut-off container is just a string. */
  function Plain(j: Json): Json {
    match j
    case JCycle => JString("<cycle>")
    case JArray(items) => JArray(AllPlain(items))
    case JObject(members) => JObject(MembersPlain(members))
    case _ => j
  }

  function AllPlain(js: seq<Json>): seq<Json> {
    if js == [] then [] else [Plain(js[0])] + AllPlain(js[1..])
  }

  function MembersPlain(members: seq<Member>): seq<Member> {
    if members == [] then [] else [Member(members[0].key, Plain(members[0].value))] + MembersPlain(members[1..])
  }

  /** No object of the tree has a key twice. */
  predicate WellFormed(j: Json) {
    match j
    case JArray(items) => AllWellFormed(items)
    case JObject(members) => MembersWellFormed(members)
    case _ => true
  }

  predicate AllWellFormed(js: seq<Json>) {
    js == [] || (WellFormed(js[0]) && AllWellFormed(js[1..]))
  }

  predicate MembersWellFormed(members: seq<Member>) {
    members == [] ||
    (members[0].key !in MemberKeys(members[1..]) && WellFormed(members[0].value) && MembersWellFormed(members[1..]))
  }

  lemma {:induction false} PutIsWellFormed(members: seq<Member>, m: Member)
    requires MembersWellFormed(members) && WellFormed(m.value)
    ensures MembersWellFormed(Put(members, m)) && MemberKeys(Put(members, m)) == MemberKeys(members) + {m.key}
  {
    if members == [] {
      assert [m][1..] == [];
    } else if members[0].key == m.key {
      assert ([m] + members[1..])[1..] == members[1..];
    } else {
      PutIsWellFormed(members[1..], m);
      assert Put(members, m)[1..] == Put(members[1..], m);
    }
  }

  lemma {:induction false} PutAllIsWellFormed(members: seq<Member>, entries: seq<Entry>, values: seq<Json>)
    requires |entries| == |values| && MembersWellFormed(members) && AllWellFormed(values)
    ensures MembersWellFormed(PutAll(members, entries, values))
    decreases |entries|
  {
    if entries != [] {
      PutIsWellFormed(members, Member(entries[0].key, values[0]));
      PutAllIsWellFormed(Put(members, Member(entries[0].key, values[0])), entries[1..], values[1..]);
    }
  }

  lemma {:induction false} InsertIsWellFormed(key: SortKey, j: Json, sorted: seq<Json>)
    requires WellFormed(j) && AllWellFormed(sorted)
    ensures AllWellFormed(Insert(key, j, sorted))
  {
    if sorted == [] || key(j) <= key(sorted[0]) {
      assert ([j] + sorted)[1..] == sorted;
    } else {
      InsertIsWellFormed(key, j, sorted[1..]);
      assert Insert(key, j, sorted)[1..] == Insert(key, j, sorted[1..]);
    }
  }

  lemma {:induction false} SortIsWellFormed(key: SortKey, js: seq<Json>)
    requires AllWellFormed(js)
    ensures AllWellFormed(SortBy(key, js))
  {
    if js != [] {
      SortIsWellFormed(key, js[1..]);
      InsertIsWellFormed(key, js[0], SortBy(key, js[1..]));
    }
  }

  /** Whatever the graph, the result's objects have no key twice. */
  lemma {:induction false} ResultIsWellFormed(key: SortKey, heap: Heap, v: Value, seen: set<Ref>)
    requires Closed(heap) && Points(heap, v)
    ensures WellFormed(Jsonify(key, heap, v, seen))
    decreases |heap.Keys - seen|, 0
  {
    if v.Container? && v.ref !in seen {
      var r := v.ref;
      ProperSubsetIsSmaller(heap.Keys - (seen + {r}), heap.Keys - seen);
      ResultsAreWellFormed(key, heap, Children(heap[r]), seen + {r});
      var values := JsonifyAll(key, heap, Children(heap[r]), seen + {r});
      match heap[r]
      case Dict(es) => PutAllIsWellFormed([], es, values);
      case List(_) =>
      case Set(_) => SortIsWellFormed(key, values);
    }
  }

  lemma {:induction false} ResultsAreWellFormed(key: SortKey, heap: Heap, values: seq<Value>, seen: set<Ref>)
    requires Closed(heap) && AllPoint(heap, values)
    ensures AllWellFormed(JsonifyAll(key, heap, values, seen))
    decreases |heap.Keys - seen|, |values| + 1
  {
    if values != [] {
      ResultIsWellFormed(key, heap, values[0], seen);
      ResultsAreWellFormed(key, heap, values[1..], seen);
    }
  }

  /** Putting members under new, distinct keys appends them. */
  lemma {:induction false} PutNew(members: seq<Member>, m: Member)
    requires m.key !in MemberKeys(members)
    ensures Put(members, m) == members + [m] && MemberKeys(members + [m]) == MemberKeys(members) + {m.key}
  {
    if members == [] {
      assert [m][1..] == [];
    } else {
      PutNew(members[1..], m);
      assert (members + [m])[1..] == members[1..] + [m];
    }
  }

  /** A tree laid out in memory converts to itself. */
  lemma {:induction false} TreeConvertsToItself(key: SortKey, heap: Heap, v: Value, j: Json, above: set<Ref>)
    requires Closed(heap) && Points(heap, v) && WellFormed(j) && LaidOutAs(heap, v, j, above)
    ensures Jsonify(key, heap, v, above) == Plain(j)
    decreases j
  {
    match j
    case JArray(items) =>
      TreesConvertToThemselves(key, heap, heap[v.ref].items, items, above + {v.ref});
    case JObject(members) =>
      var entries := heap[v.ref].entries;
      MembersConvertToThemselves(key, heap, entries, members, above + {v.ref});
      LaidOutSameKeys(heap, entries, members, above + {v.ref});
      PlainKeepsKeys(members);
      PutAllDistinct([], entries, MembersPlain(members));
      assert [] + MembersPlain(members) == MembersPlain(members);
    case _ =>
  }

  lemma {:induction false} TreesConvertToThemselves(key: SortKey, heap: Heap, values: seq<Value>, js: seq<Json>,
                                                    above: set<Ref>)
    requires Closed(heap) && AllPoint(heap, values) && AllWellFormed(js) && AllLaidOutAs(heap, values, js, above)
    ensures JsonifyAll(key, heap, values, above) == AllPlain(js)
    decreases js
  {
    if js != [] {
      TreeConvertsToItself(key, heap, values[0], js[0], above);
      TreesConvertToThemselves(key, heap, values[1..], js[1..], above);
    }
  }

  lemma {:induction false} MembersConvertToThemselves(key: SortKey, heap: Heap, entries: seq<Entry>,
                                                      members: seq<Member>, above: set<Ref>)
    requires Closed(heap) && AllPoint(heap, EntryValues(entries)) && MembersLaidOutAs(heap, entries, members, above)
    requires MembersWellFormed(members)
    ensures JsonifyAll(key, heap, EntryValues(entries), above) == MemberValues(MembersPlain(members))
    decreases members
  {
    if members != [] {
      assert EntryValues(entries)[1..] == EntryValues(entries[1..]);
      TreeConvertsToItself(key, heap, entries[0].value, members[0].value, above);
      MembersConvertToThemselves(key, heap, entries[1..], members[1..], above);
    }
  }

  function MemberValues(members: seq<Member>): (values: seq<Json>)
    ensures |values| == |members|
  {
    if members == [] then [] else [members[0].value] + MemberValues(members[1..])
  }

  /** The entries carry the members' keys, in order. */
  predicate SameKeys(entries: seq<Entry>, members: seq<Member>) {
    |entries| == |members| &&
    (members == [] || (entries[0].key == members[0].key && SameKeys(entries[1..], members[1..])))
  }

  lemma {:induction false} LaidOutSameKeys(heap: Heap, entries: seq<Entry>, members: seq<Member>, above: set<Ref>)
    requires MembersLaidOutAs(heap, entries, members, above)
    ensures SameKeys(entries, MembersPlain(members))
  {
    if members != [] {
      LaidOutSameKeys(heap, entries[1..], members[1..], above);
    }
  }

  lemma {:induction false} PlainKeepsKeys(members: seq<Member>)
    requires MembersWellFormed(members)
    ensures MemberKeys(MembersPlain(members)) == MemberKeys(members) && MembersDistinct(MembersPlain(members))
  {
    if members != [] {
      PlainKeepsKeys(members[1..]);
    }
  }

  lemma {:induction false} PutAllStep(done: seq<Member>, entries: seq<Entry>, members: seq<Member>)
    requires members != [] && SameKeys(entries, members) && members[0].key !in MemberKeys(done)
    ensures PutAll(done, entries, MemberValues(members)) ==
            PutAll(done + [members[0]], entries[1..], MemberValues(members[1..]))
  {
    PutNew(done, members[0]);
    assert MemberValues(members)[1..] == MemberValues(members[1..]);
  }

  lemma {:induction false} TailIsNew(done: seq<Member>, members: seq<Member>)
    requires members != [] && MembersDistinct(members) && MemberKeys(members) !! MemberKeys(done)
    ensures members[0].key !in MemberKeys(done)
    ensures MemberKeys(members[1..]) !! MemberKeys(done + [members[0]])
  {
    PutNew(done, members[0]);
  }

  /** Setting distinct keys one after another lists them in that order. */
  lemma {:induction false} PutAllDistinct(done: seq<Member>, entries: seq<Entry>, members: seq<Member>)
    requires SameKeys(entries, members) && MembersDistinct(members) && MemberKeys(members) !! MemberKeys(done)
    ensures PutAll(done, entries, MemberValues(members)) == done + members
    decreases |members|
  {
    if members == [] {
      assert done + members == done;
    } else {
      TailIsNew(done, members);
      PutAllStep(done, entries, members);
      PutAllDistinct(done + [members[0]], entries[1..], members[1..]);
      assert done + [members[0]] + members[1..] == done + members;
    }
  }

  /** The conversion is idempotent: a result, laid out in memory again, converts to what was stored. */
  lemma {:induction false} ConvertingAgainChangesNothing(key: SortKey, heap: Heap, v: Value, again: Heap, w: Value)
    requires Closed(heap) && Points(heap, v) && Closed(again) && Points(again, w)
    requires LaidOutAs(again, w, Jsonify(key, heap, v, {}), {})
    ensures Jsonify(key, again, w, {}) == Plain(Jsonify(key, heap, v, {}))
  {
    ResultIsWellFormed(key, heap, v, {});
    TreeConvertsToItself(key, again, w, Jsonify(key, heap, v, {}), {});
  }

  // ---- Sets --------------------------------------------------------------

  ghost predicate KeysDiffer(key: SortKey, js: seq<Json>) {
    forall a, b | a in js && b in js && key(a) == key(b) :: a == b
  }

  lemma {:induction false} InsertsCommute(key: SortKey, a: Json, b: Json, sorted: seq<Json>)
    requires key(a) == key(b) ==> a == b
    ensures Insert(key, a, Insert(key, b, sorted)) == Insert(key, b, Insert(key, a, sorted))
  {
    if sorted != [] && key(sorted[0]) < key(a) && key(sorted[0]) < key(b) {
      InsertsCommute(key, a, b, sorted[1..]);
      assert Insert(key, b, sorted)[1..] == Insert(key, b, sorted[1..]);
      assert Insert(key, a, sorted)[1..] == Insert(key, a, sorted[1..]);
    } else {
      assert ([b] + sorted)[1..] == sorted && ([a] + sorted)[1..] == sorted;
    }
  }

  function Removed<T>(s: seq<T>, i: nat): (r: seq<T>)
    requires i < |s|
    ensures |r| == |s| - 1
  {
    if i == 0 then s[1..] else [s[0]] + Removed(s[1..], i - 1)
  }

  lemma {:induction false} RemovedLosesOne<T>(s: seq<T>, i: nat)
    requires i < |s|
    ensures multiset(s) == multiset{s[i]} + multiset(Removed(s, i))
  {
    assert s == [s[0]] + s[1..];
    if i > 0 {
      RemovedLosesOne(s[1..], i - 1);
    }
  }

  lemma {:induction false} RemovedIsInside<T>(s: seq<T>, i: nat)
    requires i < |s|
    ensures forall x | x in Removed(s, i) :: x in s
  {
    if i > 0 {
      RemovedIsInside(s[1..], i - 1);
    }
  }

  lemma {:induction false} SortPullsOut(key: SortKey, js: seq<Json>, i: nat)
    requires i < |js| && forall j | 0 <= j < i && key(js[j]) == key(js[i]) :: js[j] == js[i]
    ensures SortBy(key, js) == Insert(key, js[i], SortBy(key, Removed(js, i)))
  {
    if i > 0 {
      var less := Removed(js[1..], i - 1);
      SortPullsOut(key, js[1..], i - 1);
      assert Removed(js, i)[1..] == less;
      InsertsCommute(key, js[0], js[i], SortBy(key, less));
    }
  }

  lemma {:induction false} SameRest<T>(x: T, a: multiset<T>, b: multiset<T>)
    requires multiset{x} + a == multiset{x} + b
    ensures a == b
  {
    assert a == multiset{x} + a - multiset{x};
    assert b == multiset{x} + b - multiset{x};
  }

  /** In a permutation, the place of the first member, and the rest without it. */
  lemma {:induction false} FindFirst<T>(a: seq<T>, b: seq<T>) returns (i: nat)
    requires a != [] && multiset(a) == multiset(b)
    ensures i < |b| && b[i] == a[0] && multiset(a[1..]) == multiset(Removed(b, i))
  {
    assert a[0] in multiset(b);
    i :| 0 <= i < |b| && b[i] == a[0];
    RemovedLosesOne(a, 0);
    RemovedLosesOne(b, i);
    SameRest(b[i], multiset(a[1..]), multiset(Removed(b, i)));
  }

  lemma {:induction false} SortForgetsOrder(key: SortKey, a: seq<Json>, b: seq<Json>)
    requires KeysDiffer(key, b) && multiset(a) == multiset(b)
    ensures SortBy(key, a) == SortBy(key, b)
    decreases |a|
  {
    if a == [] {
      assert |multiset(b)| == |b|;
    } else {
      var i := FindFirst(a, b);
      RemovedIsInside(b, i);
      SortForgetsOrder(key, a[1..], Removed(b, i));
      SortPullsOut(key, b, i);
    }
  }

  lemma {:induction false} JsonifyWithout(key: SortKey, heap: Heap, values: seq<Value>, seen: set<Ref>, i: nat)
    requires Closed(heap) && AllPoint(heap, values) && i < |values|
    ensures AllPoint(heap, Removed(values, i))
    ensures JsonifyAll(key, heap, Removed(values, i), seen) == Removed(JsonifyAll(key, heap, values, seen), i)
  {
    RemovedIsInside(values, i);
    if i > 0 {
      JsonifyWithout(key, heap, values[1..], seen, i - 1);
      assert Removed(values, i)[1..] == Removed(values[1..], i - 1);
    }
  }

  lemma {:induction false} JsonifyPermutes(key: SortKey, heap: Heap, a: seq<Value>, b: seq<Value>, seen: set<Ref>)
    requires Closed(heap) && AllPoint(heap, a) && AllPoint(heap, b) && multiset(a) == multiset(b)
    ensures multiset(JsonifyAll(key, heap, a, seen)) == multiset(JsonifyAll(key, heap, b, seen))
    decreases |a|
  {
    if a == [] {
      assert |multiset(b)| == |b|;
    } else {
      var i := FindFirst(a, b);
      JsonifyAllAt(key, heap, b, seen, i);
      JsonifyWithout(key, heap, b, seen, i);
      JsonifyPermutes(key, heap, a[1..], Removed(b, i), seen);
      RemovedLosesOne(JsonifyAll(key, heap, a, seen), 0);
      RemovedLosesOne(JsonifyAll(key, heap, b, seen), i);
    }
  }

  /** The two graphs have the same containers and agree on all but those in `seen`. */
  ghost predicate AgreeOutside(a: Heap, b: Heap, seen: set<Ref>) {
    a.Keys == b.Keys && forall r | r in a && r !in seen :: a[r] == b[r]
  }

  lemma {:induction false} SeenIsNotLookedAt(key: SortKey, a: Heap, b: Heap, v: Value, seen: set<Ref>)
    requires Closed(a) && Closed(b) && Points(a, v) && AgreeOutside(a, b, seen)
    ensures Points(b, v) && Jsonify(key, a, v, seen) == Jsonify(key, b, v, seen)
    decreases |a.Keys - seen|, 0
  {
    if v.Container? && v.ref !in seen {
      var r := v.ref;
      ProperSubsetIsSmaller(a.Keys - (seen + {r}), a.Keys - seen);
      AllSeenAreNotLookedAt(key, a, b, Children(a[r]), seen + {r});
    }
  }

  lemma {:induction false} AllSeenAreNotLookedAt(key: SortKey, a: Heap, b: Heap, values: seq<Value>, seen: set<Ref>)
    requires Closed(a) && Closed(b) && AllPoint(a, values) && AgreeOutside(a, b, seen)
    ensures AllPoint(b, values) && JsonifyAll(key, a, values, seen) == JsonifyAll(key, b, values, seen)
    decreases |a.Keys - seen|, |values| + 1
  {
    if values != [] {
      SeenIsNotLookedAt(key, a, b, values[0], seen);
      AllSeenAreNotLookedAt(key, a, b, values[1..], seen);
    }
  }

  /** The graph with the set's members walked in another order. */
  lemma {:induction false} RewalkedIsClosed(heap: Heap, r: Ref, walked: seq<Value>)
    requires Closed(heap) && r in heap && heap[r].Set? && multiset(walked) == multiset(heap[r].items)
    ensures Closed(heap[r := Set(walked)]) && AllPoint(heap, walked)
  {
    forall v | v in walked
      ensures v in heap[r].items
    {
      assert v in multiset(walked) && v in multiset(heap[r].items);
    }
  }

  /** A set converts to the same list in whatever order it is walked, if no two of its members'
      representations coincide. */
  lemma {:induction false} SetOrderIsIrrelevant(key: SortKey, heap: Heap, r: Ref, walked: seq<Value>, seen: set<Ref>)
    requires Closed(heap) && r in heap && r !in seen && heap[r].Set? && multiset(walked) == multiset(heap[r].items)
    requires KeysDiffer(key, JsonifyAll(key, heap, heap[r].items, seen + {r}))
    ensures var other := heap[r := Set(walked)];
            Closed(other) && Jsonify(key, other, Container(r), seen) == Jsonify(key, heap, Container(r), seen)
  {
    var other, items, below := heap[r := Set(walked)], heap[r].items, seen + {r};
    RewalkedIsClosed(heap, r, walked);
    JsonifyPermutes(key, heap, walked, items, below);
    SortForgetsOrder(key, JsonifyAll(key, heap, walked, below), JsonifyAll(key, heap, items, below));
    AllSeenAreNotLookedAt(key, heap, other, walked, below);
  }

  predicate SortedBy(key: SortKey, js: seq<Json>) {
    |js| < 2 || (key(js[0]) <= key(js[1]) && SortedBy(key, js[1..]))
  }

  lemma {:induction false} InsertSorts(key: SortKey, j: Json, sorted: seq<Json>)
    requires SortedBy(key, sorted)
    ensures SortedBy(key, Insert(key, j, sorted))
  {
    if sorted == [] || key(j) <= key(sorted[0]) {
      assert ([j] + sorted)[1..] == sorted;
    } else {
      InsertSorts(key, j, sorted[1..]);
      assert Insert(key, j, sorted)[1..] == Insert(key, j, sorted[1..]);
    }
  }

  lemma {:induction false} InsertAddsOne(key: SortKey, j: Json, sorted: seq<Json>)
    ensures multiset(Insert(key, j, sorted)) == multiset{j} + multiset(sorted)
  {
    if sorted != [] && key(j) > key(sorted[0]) {
      InsertAddsOne(key, j, sorted[1..]);
      assert sorted == [sorted[0]] + sorted[1..];
    }
  }

  lemma {:induction false} SortPermutes(key: SortKey, js: seq<Json>)
    ensures multiset(SortBy(key, js)) == multiset(js)
  {
    if js != [] {
      SortPermutes(key, js[1..]);
      InsertAddsOne(key, js[0], SortBy(key, js[1..]));
      assert js == [js[0]] + js[1..];
    }
  }

  /** The list holds the set's members, in order of their keys. */
  lemma {:induction false} SortSorts(key: SortKey, js: seq<Json>)
    ensures SortedBy(key, SortBy(key, js))
    ensures multiset(SortBy(key, js)) == multiset(js)
  {
    SortPermutes(key, js);
    if js != [] {
      SortSorts(key, js[1..]);
      InsertSorts(key, js[0], SortBy(key, js[1..]));
    }
  }

  // ---- What each kind of value becomes -----------------------------------

  /** A set becomes the list of its members' conversions, in the order of their representations. */
  lemma {:induction false} SetIsSortedMembers(key: SortKey, heap: Heap, r: Ref, seen: set<Ref>)
    requires Closed(heap) && r in heap && r !in seen && heap[r].Set?
    ensures var j, members := Jsonify(key, heap, Container(r), seen), JsonifyAll(key, heap, heap[r].items, seen + {r});
            && j.JArray? && SortedBy(key, j.items) && multiset(j.items) == multiset(members)
            && forall i | 0 <= i < |members| :: members[i] == Jsonify(key, heap, heap[r].items[i], seen + {r})
  {
    var items := heap[r].items;
    SortSorts(key, JsonifyAll(key, heap, items, seen + {r}));
    forall i | 0 <= i < |items|
      ensures JsonifyAll(key, heap, items, seen + {r})[i] == Jsonify(key, heap, items[i], seen + {r})
    {
      JsonifyAllAt(key, heap, items, seen + {r}, i);
    }
  }

  /** A list keeps its members' places. */
  lemma {:induction false} ListKeepsPlaces(key: SortKey, heap: Heap, r: Ref, seen: set<Ref>, i: nat)
    requires Closed(heap) && r in heap && r !in seen && heap[r].List? && i < |heap[r].items|
    ensures var j := Jsonify(key, heap, Container(r), seen);
            && j.JArray? && |j.items| == |heap[r].items|
            && j.items[i] == Jsonify(key, heap, heap[r].items[i], seen + {r})
  {
    JsonifyAllAt(key, heap, heap[r].items, seen + {r}, i);
  }

  function KeysOf(members: seq<Member>): (keys: seq<string>)
    ensures |keys| == |members|
  {
    if members == [] then [] else [members[0].key] + KeysOf(members[1..])
  }

  /** The keys, followed by those of the entries that are new, where they first occur. */
  function WithNewKeys(keys: seq<string>, entries: seq<Entry>): seq<string>
    decreases |entries|
  {
    if entries == [] then keys
    else WithNewKeys(if entries[0].key in keys then keys else keys + [entries[0].key], entries[1..])
  }

  function ValueOf(members: seq<Member>, k: string): Option<Json> {
    if members == [] then None else if members[0].key == k then Some(members[0].value) else ValueOf(members[1..], k)
  }

  lemma {:induction false} PutSets(members: seq<Member>, m: Member, k: string)
    ensures ValueOf(Put(members, m), k) == if k == m.key then Some(m.value) else ValueOf(members, k)
    ensures KeysOf(Put(members, m)) == if m.key in KeysOf(members) then KeysOf(members) else KeysOf(members) + [m.key]
  {
    if members == [] {
      assert [m][1..] == [];
    } else if members[0].key == m.key {
      assert ([m] + members[1..])[1..] == members[1..];
    } else {
      PutSets(members[1..], m, k);
      assert Put(members, m)[1..] == Put(members[1..], m);
    }
  }

  lemma {:induction false} PutAllKeys(members: seq<Member>, entries: seq<Entry>, values: seq<Json>)
    requires |entries| == |values|
    ensures KeysOf(PutAll(members, entries, values)) == WithNewKeys(KeysOf(members), entries)
    decreases |entries|
  {
    if entries != [] {
      var m := Member(entries[0].key, values[0]);
      PutSets(members, m, m.key);
      PutAllKeys(Put(members, m), entries[1..], values[1..]);
    }
  }

  predicate LastOfItsKey(entries: seq<Entry>, i: nat) {
    i < |entries| && forall j | i < j < |entries| :: entries[j].key != entries[i].key
  }

  lemma {:induction false} PutAllKeeps(members: seq<Member>, entries: seq<Entry>, values: seq<Json>, k: string)
    requires |entries| == |values| && forall j | 0 <= j < |entries| :: entries[j].key != k
    ensures ValueOf(PutAll(members, entries, values), k) == ValueOf(members, k)
    decreases |entries|
  {
    if entries != [] {
      var m := Member(entries[0].key, values[0]);
      PutSets(members, m, k);
      PutAllKeeps(Put(members, m), entries[1..], values[1..], k);
    }
  }

  lemma {:induction false} PutAllTakesLast(members: seq<Member>, entries: seq<Entry>, values: seq<Json>, i: nat)
    requires |entries| == |values| && LastOfItsKey(entries, i)
    ensures ValueOf(PutAll(members, entries, values), entries[i].key) == Some(values[i])
    decreases |entries|
  {
    var m := Member(entries[0].key, values[0]);
    if i == 0 {
      PutSets(members, m, m.key);
      PutAllKeeps(Put(members, m), entries[1..], values[1..], m.key);
    } else {
      PutAllTakesLast(Put(members, m), entries[1..], values[1..], i - 1);
    }
  }

  lemma {:induction false} EntryValueAt(entries: seq<Entry>, i: nat)
    requires i < |entries|
    ensures EntryValues(entries)[i] == entries[i].value
  {
    if i > 0 {
      EntryValueAt(entries[1..], i - 1);
    }
  }

  /** A dictionary's keys stand where they first occur, and each has the conversion of its last value. */
  lemma {:induction false} DictKeepsLastValues(key: SortKey, heap: Heap, r: Ref, seen: set<Ref>, i: nat)
    requires Closed(heap) && r in heap && r !in seen && heap[r].Dict? && i < |heap[r].entries|
    ensures var j, entries := Jsonify(key, heap, Container(r), seen), heap[r].entries;
            && j.JObject? && KeysOf(j.members) == WithNewKeys([], entries) && Points(heap, entries[i].value)
            && (LastOfItsKey(entries, i) ==>
                  ValueOf(j.members, entries[i].key) == Some(Jsonify(key, heap, entries[i].value, seen + {r})))
  {
    var entries := heap[r].entries;
    var values := JsonifyAll(key, heap, EntryValues(entries), seen + {r});
    PutAllKeys([], entries, values);
    EntryValueAt(entries, i);
    JsonifyAllAt(key, heap, EntryValues(entries), seen + {r}, i);
    if LastOfItsKey(entries, i) {
      PutAllTakesLast([], entries, values, i);
    }
  }

  /** A value that JSON lacks becomes what the plain value that stands for it becomes: moments, identifiers and
      paths their text, a decimal its float, and bytes the text they encode or else their hexadecimal digits. */
  lemma {:induction false} LeavesBecomePlain(key: SortKey, heap: Heap, seen: set<Ref>, text: string, x: Float,
                                             hex: string)
    requires Closed(heap)
    ensures var plain := Jsonify(key, heap, Scalar(Text(text)), seen);
            && plain == JString(text)
            && Jsonify(key, heap, Scalar(Moment(text)), seen) == plain
            && Jsonify(key, heap, Scalar(Uuid(text)), seen) == plain
            && Jsonify(key, heap, Scalar(FilePath(text)), seen) == plain
            && Jsonify(key, heap, Scalar(Bytes(Some(text), hex)), seen) == plain
            && Jsonify(key, heap, Scalar(Bytes(None, text)), seen) == plain
    ensures Jsonify(key, heap, Scalar(DecimalNumber(x)), seen) == Jsonify(key, heap, Scalar(Number(x)), seen)
    ensures Jsonify(key, heap, Scalar(Number(x)), seen) == JNumber(x)
  {
  }
}
