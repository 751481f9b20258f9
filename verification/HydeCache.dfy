/** The TTL and LRU cache of pseudo-documents, proved against the history of its operations. */
module HydeCache {
  import opened Wrappers
  import opened OrderedDict

  type Key = string
  type Time = real

  /** When the value was stored, and the value. */
  datatype Entry = Entry(storedAt: Time, value: string)

  type Store = Dict<Key, Entry>

  datatype Config = Config(ttl: real, maxEntries: int)

  /** The constructor's checks. */
  predicate ValidConfig(c: Config) {
    c.ttl > 0.0 && c.maxEntries > 0
  }

  predicate Fresh(c: Config, e: Entry, now: Time) {
    now - e.storedAt <= c.ttl
  }

  // ---- Operations on the store -------------------------------------------

  function Touch(s: Store, k: Key, e: Entry): Store {
    Without(s, k) + [(k, e)]
  }

  function GetStore(c: Config, s: Store, k: Key, now: Time): Store {
    match Lookup(s, k)
    case None => s
    case Some(e) => if Fresh(c, e, now) then Touch(s, k, e) else Without(s, k)
  }

  function GetResult(c: Config, s: Store, k: Key, now: Time): Option<string> {
    match Lookup(s, k)
    case None => None
    case Some(e) => if Fresh(c, e, now) then Some(e.value) else None
  }

  /** The newest `n` entries. */
  function Newest(s: Store, n: nat): Store {
    if |s| > n then s[|s| - n..] else s
  }

  function PutStore(c: Config, s: Store, k: Key, value: string, now: Time): Store
    requires ValidConfig(c)
  {
    Newest(Touch(s, k, Entry(now, value)), c.maxEntries)
  }

  class Cache {
    const config: Config
    var store: Store

    constructor (config: Config)
      requires ValidConfig(config)
      ensures this.config == config && store == []
    {
      this.config := config;
      store := [];
    }

    method Get(k: Key, now: Time) returns (value: Option<string>)
      modifies this
      ensures value == GetResult(config, old(store), k, now)
      ensures store == GetStore(config, old(store), k, now)
    {
      var entry := Lookup(store, k);
      if entry.None? {
        return None;
      }
      if now - entry.value.storedAt > config.ttl {
        store := Without(store, k);
        return None;
      }
      store := Without(store, k) + [(k, entry.value)];
      return Some(entry.value.value);
    }

    method Put(k: Key, value: string, now: Time)
      requires ValidConfig(config)
      modifies this
      ensures store == PutStore(config, old(store), k, value, now)
    {
      if Lookup(store, k).Some? {
        store := Without(store, k);
      } else {
        WithoutAbsent(store, k);
      }
      store := store + [(k, Entry(now, value))];
      ghost var all := store;
      while |store| > config.maxEntries
        invariant |store| <= |all| && store == all[|all| - |store|..]
        invariant |store| >= config.maxEntries || store == all
        decreases |store|
      {
        store := store[1..];
      }
    }

    method Clear()
      modifies this
      ensures store == []
    {
      store := [];
    }
  }

  // ---- Histories ---------------------------------------------------------

  datatype Op = Put(k: Key, value: string, at: Time) | Get(k: Key, at: Time) | Clear(at: Time)

  /** The store after the operations, the latest last. */
  function After(c: Config, ops: seq<Op>): Store
    requires ValidConfig(c)
  {
    if ops == [] then []
    else Step(c, After(c, ops[..|ops| - 1]), ops[|ops| - 1])
  }

  function Step(c: Config, s: Store, op: Op): Store
    requires ValidConfig(c)
  {
    match op
    case Put(k, value, at) => PutStore(c, s, k, value, at)
    case Get(k, at) => GetStore(c, s, k, at)
    case Clear(_) => []
  }

  function Last(ops: seq<Op>): Op
    requires ops != []
  {
    ops[|ops| - 1]
  }

  function Front(ops: seq<Op>): seq<Op>
    requires ops != []
  {
    ops[..|ops| - 1]
  }

  /** The clock never goes back. */
  predicate Ordered(ops: seq<Op>) {
    forall i | 0 < i < |ops| :: ops[i - 1].at <= ops[i].at
  }

  /** The last value put under the key since the last clear. */
  function LastPut(ops: seq<Op>, k: Key): Option<Entry> {
    if ops == [] then None
    else
      match Last(ops)
      case Put(k', value, at) => if k' == k then Some(Entry(at, value)) else LastPut(Front(ops), k)
      case Get(_, _) => LastPut(Front(ops), k)
      case Clear(_) => None
  }

  /** Does the operation, a put or a hit, make its key the most recent one? */
  predicate Touches(c: Config, s: Store, op: Op) {
    op.Put? || (op.Get? && GetResult(c, s, op.k, op.at).Some?)
  }

  /** The other keys put or hit since the key's last put or hit. */
  function Recent(c: Config, ops: seq<Op>, k: Key): set<Key>
    requires ValidConfig(c)
  {
    if ops == [] || Last(ops).Clear? then {}
    else if !Touches(c, After(c, Front(ops)), Last(ops)) then Recent(c, Front(ops), k)
    else if Last(ops).k == k then {}
    else Recent(c, Front(ops), k) + {Last(ops).k}
  }

  function Joined(c: Config, crowd: Option<set<Key>>, k: Key): Option<set<Key>> {
    if crowd.None? || |crowd.value + {k}| >= c.maxEntries then None else Some(crowd.value + {k})
  }

  function Parted(crowd: Option<set<Key>>, k: Key): Option<set<Key>> {
    if crowd.None? then None else Some(crowd.value - {k})
  }

  /** The other keys put or hit since the key's last put or hit, less those that a get has removed as too
      old; nothing, once these have numbered `maxEntries`. */
  function Crowd(c: Config, ops: seq<Op>, k: Key): Option<set<Key>>
    requires ValidConfig(c)
  {
    if ops == [] || Last(ops).Clear? then Some({})
    else
      var s, op, before := After(c, Front(ops)), Last(ops), Crowd(c, Front(ops), k);
      if Touches(c, s, op) then (if op.k == k then Some({}) else Joined(c, before, op.k))
      else if Lookup(s, op.k).Some? then Parted(before, op.k)
      else before
  }

  // ---- What every history keeps ------------------------------------------

  lemma {:induction false} TouchFacts(s: Store, k: Key, e: Entry)
    requires Distinct(s)
    ensures Distinct(Touch(s, k, e)) && KeySet(Touch(s, k, e)) == KeySet(s) + {k}
    ensures |Touch(s, k, e)| == if k in KeySet(s) then |s| else |s| + 1
  {
    WithoutDropsKey(s, k);
    AppendAddsKey(Without(s, k), k, e);
  }

  lemma {:induction false} TouchOther(s: Store, k: Key, e: Entry, other: Key)
    requires Distinct(s)
    ensures Lookup(Touch(s, k, e), other) == if other == k then Some(e) else Lookup(s, other)
    ensures other == k ==> Behind(Touch(s, k, e), other) == {}
    ensures other != k && other in KeySet(s) ==> Behind(Touch(s, k, e), other) == Behind(s, other) + {k}
  {
    WithoutDropsKey(s, k);
    AppendKeepsOthers(Without(s, k), k, e, other);
    if other != k {
      WithoutKeepsOthers(s, k, other);
    }
  }

  predicate StoreSound(c: Config, s: Store) {
    Distinct(s) && |s| <= c.maxEntries
  }

  lemma {:induction false} NewestFacts(c: Config, s: Store, other: Key)
    requires ValidConfig(c) && Distinct(s) && |s| <= c.maxEntries + 1
    ensures StoreSound(c, Newest(s, c.maxEntries)) && KeySet(Newest(s, c.maxEntries)) <= KeySet(s)
    ensures other in KeySet(Newest(s, c.maxEntries)) ==>
              Lookup(Newest(s, c.maxEntries), other) == Lookup(s, other) &&
              Behind(Newest(s, c.maxEntries), other) == Behind(s, other)
    ensures other in KeySet(s) && other !in KeySet(Newest(s, c.maxEntries)) ==> |Behind(s, other)| == c.maxEntries
  {
    if |s| > c.maxEntries {
      assert Newest(s, c.maxEntries) == s[1..];
      PopKeepsOthers(s, other);
      KeysAreCounted(s[1..]);
    }
  }

  /** The size bound holds after any history. */
  lemma {:induction false} SizeIsBounded(c: Config, ops: seq<Op>)
    requires ValidConfig(c)
    ensures StoreSound(c, After(c, ops))
  {
    if ops != [] {
      var s, op := After(c, Front(ops)), Last(ops);
      SizeIsBounded(c, Front(ops));
      if op.Put? {
        TouchFacts(s, op.k, Entry(op.at, op.value));
        NewestFacts(c, Touch(s, op.k, Entry(op.at, op.value)), op.k);
      } else if op.Get? {
        WithoutDropsKey(s, op.k);
        LookupFindsKeys(s, op.k);
        if Lookup(s, op.k).Some? {
          TouchFacts(s, op.k, Lookup(s, op.k).value);
        }
      }
    }
  }

  /** What the store says of one key, against the history: a stored entry is the last one put, and the
      keys behind it are the crowd of keys touched since. */
  ghost predicate KeySound(c: Config, ops: seq<Op>, k: Key)
    requires ValidConfig(c)
  {
    var s := After(c, ops);
    k in KeySet(s) ==>
      Lookup(s, k) == LastPut(ops, k) && Behind(s, k) <= Recent(c, ops, k) && Crowd(c, ops, k) == Some(Behind(s, k))
  }

  /** A key whose last put is still fresh, and that was not crowded out or has few keys touched after it, is
      stored. */
  ghost predicate KeyKept(c: Config, ops: seq<Op>, k: Key, now: Time)
    requires ValidConfig(c)
  {
    var e := LastPut(ops, k);
    e.Some? && Fresh(c, e.value, now) && (Crowd(c, ops, k).Some? || |Recent(c, ops, k)| < c.maxEntries) ==>
      k in KeySet(After(c, ops))
  }

  lemma {:induction false} FewAreBehind(c: Config, ops: seq<Op>, k: Key)
    requires ValidConfig(c) && k in KeySet(After(c, ops))
    ensures |Behind(After(c, ops), k)| < c.maxEntries
  {
    var s := After(c, ops);
    SizeIsBounded(c, ops);
    KeysAreCounted(s);
    LookupFindsKeys(s, k);
    SubsetIsNoLarger(Behind(s, k) + {k}, KeySet(s));
  }

  lemma {:induction false} PutKeepsSound(c: Config, ops: seq<Op>, k: Key)
    requires ValidConfig(c) && ops != [] && Last(ops).Put? && KeySound(c, Front(ops), k)
    ensures KeySound(c, ops, k)
  {
    var s, op := After(c, Front(ops)), Last(ops);
    var e := Entry(op.at, op.value);
    SizeIsBounded(c, Front(ops));
    TouchFacts(s, op.k, e);
    TouchOther(s, op.k, e, k);
    NewestFacts(c, Touch(s, op.k, e), k);
    if k in KeySet(After(c, ops)) {
      FewAreBehind(c, ops, k);
    }
  }

  lemma {:induction false} PutKeepsKept(c: Config, ops: seq<Op>, k: Key, now: Time)
    requires ValidConfig(c) && ops != [] && Last(ops).Put? && KeySound(c, Front(ops), k)
    requires KeyKept(c, Front(ops), k, now)
    ensures KeyKept(c, ops, k, now)
  {
    var s, op := After(c, Front(ops)), Last(ops);
    var e := Entry(op.at, op.value);
    SizeIsBounded(c, Front(ops));
    TouchFacts(s, op.k, e);
    TouchOther(s, op.k, e, k);
    NewestFacts(c, Touch(s, op.k, e), k);
    if k != op.k {
      SubsetIsNoLarger(Recent(c, Front(ops), k), Recent(c, ops, k));
      if k in KeySet(s) {
        SubsetIsNoLarger(Behind(Touch(s, op.k, e), k), Recent(c, ops, k));
      }
    }
  }

  lemma {:induction false} HitKeeps(c: Config, ops: seq<Op>, k: Key, now: Time)
    requires ValidConfig(c) && ops != [] && Last(ops).Get? && KeySound(c, Front(ops), k)
    requires GetResult(c, After(c, Front(ops)), Last(ops).k, Last(ops).at).Some?
    ensures KeySound(c, ops, k)
    ensures KeyKept(c, Front(ops), k, now) ==> KeyKept(c, ops, k, now)
  {
    var s, op := After(c, Front(ops)), Last(ops);
    var e := Lookup(s, op.k).value;
    SizeIsBounded(c, Front(ops));
    LookupFindsKeys(s, op.k);
    TouchFacts(s, op.k, e);
    TouchOther(s, op.k, e, k);
    if k in KeySet(After(c, ops)) {
      FewAreBehind(c, ops, k);
    }
    if k != op.k {
      SubsetIsNoLarger(Recent(c, Front(ops), k), Recent(c, ops, k));
    }
  }

  lemma {:induction false} MissKeeps(c: Config, ops: seq<Op>, k: Key, now: Time)
    requires ValidConfig(c) && ops != [] && Last(ops).Get? && KeySound(c, Front(ops), k) && Last(ops).at <= now
    requires GetResult(c, After(c, Front(ops)), Last(ops).k, Last(ops).at).None?
    ensures KeySound(c, ops, k)
    ensures KeyKept(c, Front(ops), k, now) ==> KeyKept(c, ops, k, now)
  {
    var s, op := After(c, Front(ops)), Last(ops);
    SizeIsBounded(c, Front(ops));
    LookupFindsKeys(s, op.k);
    if Lookup(s, op.k).Some? {
      WithoutDropsKey(s, op.k);
      if k != op.k {
        WithoutKeepsOthers(s, op.k, k);
      }
    }
  }

  /** Both hold after every history, for every later moment. */
  lemma {:induction false} HistoryKeeps(c: Config, ops: seq<Op>, k: Key, now: Time)
    requires ValidConfig(c) && Ordered(ops) && (ops != [] ==> Last(ops).at <= now)
    ensures KeySound(c, ops, k) && KeyKept(c, ops, k, now)
  {
    if ops != [] {
      assert |ops| > 1 ==> ops[|ops| - 1 - 1].at <= ops[|ops| - 1].at;
      HistoryKeeps(c, Front(ops), k, now);
      match Last(ops) {
        case Put(_, _, _) =>
          PutKeepsSound(c, ops, k);
          PutKeepsKept(c, ops, k, now);
        case Get(key, at) =>
          if GetResult(c, After(c, Front(ops)), key, at).Some? {
            HitKeeps(c, ops, k, now);
          } else {
            MissKeeps(c, ops, k, now);
          }
        case Clear(_) =>
      }
    }
  }

  /** A get returns only the value of the last put since any clear, no older than the TTL. */
  lemma {:induction false} HitsAreFreshLastPuts(c: Config, ops: seq<Op>, k: Key, now: Time)
    requires ValidConfig(c) && Ordered(ops) && (ops != [] ==> Last(ops).at <= now)
    requires GetResult(c, After(c, ops), k, now).Some?
    ensures var e := LastPut(ops, k);
            e.Some? && now - e.value.storedAt <= c.ttl && GetResult(c, After(c, ops), k, now) == Some(e.value.value)
  {
    HistoryKeeps(c, ops, k, now);
    LookupFindsKeys(After(c, ops), k);
  }

  /** A get does hit when the last put is fresh and fewer than `maxEntries` other keys were put or hit
      since this key was. */
  lemma {:induction false} FreshRecentKeysHit(c: Config, ops: seq<Op>, k: Key, now: Time)
    requires ValidConfig(c) && Ordered(ops) && (ops != [] ==> Last(ops).at <= now)
    requires LastPut(ops, k).Some? && now - LastPut(ops, k).value.storedAt <= c.ttl
    requires |Recent(c, ops, k)| < c.maxEntries
    ensures GetResult(c, After(c, ops), k, now) == Some(LastPut(ops, k).value.value)
  {
    HistoryKeeps(c, ops, k, now);
    LookupFindsKeys(After(c, ops), k);
  }

  /** A get hits if and only if the last put is fresh and the key has not been crowded out since it was last
      put or hit. */
  lemma {:induction false} HitsExactly(c: Config, ops: seq<Op>, k: Key, now: Time)
    requires ValidConfig(c) && Ordered(ops) && (ops != [] ==> Last(ops).at <= now)
    ensures GetResult(c, After(c, ops), k, now).Some? <==>
            LastPut(ops, k).Some? && now - LastPut(ops, k).value.storedAt <= c.ttl && Crowd(c, ops, k).Some?
  {
    HistoryKeeps(c, ops, k, now);
    LookupFindsKeys(After(c, ops), k);
  }
}
