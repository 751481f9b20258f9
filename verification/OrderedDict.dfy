/** Insertion-ordered dictionaries as sequences of entries, oldest first. */
module OrderedDict {
  import opened Wrappers

  type Dict<K, V> = seq<(K, V)>

  function Lookup<K(==), V>(d: Dict<K, V>, k: K): Option<V> {
    if d == [] then None else if d[0].0 == k then Some(d[0].1) else Lookup(d[1..], k)
  }

  function Without<K(==), V>(d: Dict<K, V>, k: K): (r: Dict<K, V>)
    ensures |r| <= |d|
  {
    if d == [] then [] else if d[0].0 == k then d[1..] else [d[0]] + Without(d[1..], k)
  }

  function KeySet<K(==), V>(d: Dict<K, V>): set<K> {
    if d == [] then {} else {d[0].0} + KeySet(d[1..])
  }

  /** The keys after `k`. */
  function Behind<K(==), V>(d: Dict<K, V>, k: K): set<K> {
    if d == [] then {} else if d[0].0 == k then KeySet(d[1..]) else Behind(d[1..], k)
  }

  predicate Distinct<K(==), V>(d: Dict<K, V>) {
    d == [] || (d[0].0 !in KeySet(d[1..]) && Distinct(d[1..]))
  }

  lemma {:induction false} LookupFindsKeys<K, V>(d: Dict<K, V>, k: K)
    ensures Lookup(d, k).Some? <==> k in KeySet(d)
    ensures Behind(d, k) <= KeySet(d)
    ensures Distinct(d) ==> k !in Behind(d, k)
  {
    if d != [] {
      LookupFindsKeys(d[1..], k);
    }
  }

  lemma {:induction false} KeysAreCounted<K, V>(d: Dict<K, V>)
    requires Distinct(d)
    ensures |KeySet(d)| == |d|
  {
    if d != [] {
      KeysAreCounted(d[1..]);
    }
  }

  lemma {:induction false} WithoutAbsent<K, V>(d: Dict<K, V>, k: K)
    requires Lookup(d, k).None?
    ensures Without(d, k) == d
  {
    if d != [] {
      WithoutAbsent(d[1..], k);
    }
  }

  lemma {:induction false} WithoutDropsKey<K, V>(d: Dict<K, V>, k: K)
    requires Distinct(d)
    ensures KeySet(Without(d, k)) == KeySet(d) - {k} && Distinct(Without(d, k))
    ensures |Without(d, k)| == if k in KeySet(d) then |d| - 1 else |d|
  {
    if d != [] {
      WithoutDropsKey(d[1..], k);
      if d[0].0 != k {
        assert Without(d, k)[1..] == Without(d[1..], k);
      }
    }
  }

  lemma {:induction false} WithoutKeepsOthers<K, V>(d: Dict<K, V>, k: K, other: K)
    requires Distinct(d) && other != k
    ensures Lookup(Without(d, k), other) == Lookup(d, other)
    ensures Behind(Without(d, k), other) == Behind(d, other) - {k}
  {
    if d != [] {
      if d[0].0 == k {
        LookupFindsKeys(d[1..], other);
      } else {
        WithoutKeepsOthers(d[1..], k, other);
        WithoutDropsKey(d[1..], k);
        assert Without(d, k)[1..] == Without(d[1..], k);
      }
    }
  }

  lemma {:induction false} AppendAddsKey<K, V>(d: Dict<K, V>, k: K, v: V)
    requires Distinct(d) && k !in KeySet(d)
    ensures KeySet(d + [(k, v)]) == KeySet(d) + {k} && Distinct(d + [(k, v)])
  {
    if d == [] {
      assert d + [(k, v)] == [(k, v)] && [(k, v)][1..] == [];
    } else {
      AppendAddsKey(d[1..], k, v);
      assert (d + [(k, v)])[1..] == d[1..] + [(k, v)];
    }
  }

  lemma {:induction false} AppendKeepsOthers<K, V>(d: Dict<K, V>, k: K, v: V, other: K)
    requires Distinct(d) && k !in KeySet(d)
    ensures Lookup(d + [(k, v)], other) == if other == k then Some(v) else Lookup(d, other)
    ensures Behind(d + [(k, v)], other) ==
            if other == k || other !in KeySet(d) then {} else Behind(d, other) + {k}
  {
    if d == [] {
      assert d + [(k, v)] == [(k, v)] && [(k, v)][1..] == [];
    } else {
      AppendKeepsOthers(d[1..], k, v, other);
      AppendAddsKey(d[1..], k, v);
      assert (d + [(k, v)])[1..] == d[1..] + [(k, v)];
      LookupFindsKeys(d[1..], other);
    }
  }

  /** Dropping the oldest entry leaves every other key's value and followers. */
  lemma {:induction false} PopKeepsOthers<K, V>(d: Dict<K, V>, other: K)
    requires Distinct(d) && d != []
    ensures KeySet(d[1..]) == KeySet(d) - {d[0].0} && Distinct(d[1..])
    ensures other != d[0].0 ==> Lookup(d[1..], other) == Lookup(d, other) && Behind(d[1..], other) == Behind(d, other)
  {
  }
}
