/**
 An insertion-ordered dictionary as a list of entries with distinct keys.
 */
module OrderedMap {
  import opened Wrappers
  import opened Lists

  type Entries<K, V> = seq<(K, V)>

  function Lookup<K(==), V>(m: Entries<K, V>, k: K): Option<V> {
    if m == [] then None else if m[0].0 == k then Some(m[0].1) else Lookup(m[1..], k)
  }

  /** Replaces the entry in place, or appends a new one. */
  function Put<K(==), V>(m: Entries<K, V>, k: K, v: V): Entries<K, V> {
    if m == [] then [(k, v)]
    else if m[0].0 == k then [(k, v)] + m[1..]
    else [m[0]] + Put(m[1..], k, v)
  }

  /** Deletes the entries whose value is not kept. */
  function Prune<K, V>(keep: V -> bool, m: Entries<K, V>): Entries<K, V> {
    if m == [] then [] else (if keep(m[0].1) then [m[0]] else []) + Prune(keep, m[1..])
  }

  ghost predicate DistinctKeys<K, V>(m: Entries<K, V>) {
    forall i, j :: 0 <= i < j < |m| ==> m[i].0 != m[j].0
  }

  lemma {:induction false} LookupPut<K, V>(m: Entries<K, V>, k: K, v: V, x: K)
    ensures Lookup(Put(m, k, v), x) == if x == k then Some(v) else Lookup(m, x)
  {
    if m != [] {
      LookupPut(m[1..], k, v, x);
    }
  }

  lemma {:induction false} LookupIs<K, V>(m: Entries<K, V>, k: K, v: V)
    requires DistinctKeys(m)
    ensures (k, v) in m <==> Lookup(m, k) == Some(v)
  {
    if m != [] {
      assert m == [m[0]] + m[1..];
      LookupIs(m[1..], k, v);
      if m[0].0 == k {
        NotInTail(m, k, v);
      }
    }
  }

  lemma {:induction false} LookupMissing<K, V>(m: Entries<K, V>, k: K)
    requires forall i :: 0 <= i < |m| ==> m[i].0 != k
    ensures Lookup(m, k) == None
  {
    if m != [] {
      LookupMissing(m[1..], k);
    }
  }

  lemma NotInTail<K, V>(m: Entries<K, V>, k: K, v: V)
    requires DistinctKeys(m) && m != [] && m[0].0 == k
    ensures (k, v) !in m[1..]
  {
    forall i | 0 <= i < |m[1..]|
      ensures m[1..][i] != (k, v)
    {
      assert m[1..][i] == m[i + 1];
    }
  }

  lemma {:induction false} PutKeys<K, V>(m: Entries<K, V>, k: K, v: V)
    ensures forall i :: 0 <= i < |Put(m, k, v)| ==> Put(m, k, v)[i].0 == k || Put(m, k, v)[i] in m
  {
    if m != [] {
      PutKeys(m[1..], k, v);
    }
  }

  lemma {:induction false} DistinctPut<K, V>(m: Entries<K, V>, k: K, v: V)
    requires DistinctKeys(m)
    ensures DistinctKeys(Put(m, k, v))
  {
    if m != [] && m[0].0 != k {
      DistinctPut(m[1..], k, v);
      PutKeys(m[1..], k, v);
      var rest := Put(m[1..], k, v);
      forall j | 0 <= j < |rest|
        ensures rest[j].0 != m[0].0
      {
        if rest[j] in m[1..] {
          var i :| 0 <= i < |m[1..]| && m[1..][i] == rest[j];
        }
      }
    }
  }

  lemma {:induction false} PruneMember<K, V>(keep: V -> bool, m: Entries<K, V>, k: K, v: V)
    ensures (k, v) in Prune(keep, m) <==> (k, v) in m && keep(v)
  {
    if m != [] {
      PruneMember(keep, m[1..], k, v);
      assert m == [m[0]] + m[1..];
    }
  }

  lemma {:induction false} DistinctPrune<K, V>(keep: V -> bool, m: Entries<K, V>)
    requires DistinctKeys(m)
    ensures DistinctKeys(Prune(keep, m))
  {
    if m != [] {
      DistinctPrune(keep, m[1..]);
      var rest := Prune(keep, m[1..]);
      forall j | 0 <= j < |rest|
        ensures rest[j].0 != m[0].0
      {
        var e := rest[j];
        PruneMember(keep, m[1..], e.0, e.1);
        assert e == (e.0, e.1) && e in rest;
        var i :| 0 <= i < |m[1..]| && m[1..][i] == (e.0, e.1);
      }
    }
  }

  lemma LookupPrune<K, V>(keep: V -> bool, m: Entries<K, V>, k: K)
    requires DistinctKeys(m)
    ensures Lookup(Prune(keep, m), k) ==
            if Lookup(m, k).Some? && keep(Lookup(m, k).value) then Lookup(m, k) else None
  {
    DistinctPrune(keep, m);
    var before, after := Lookup(m, k), Lookup(Prune(keep, m), k);
    if before.Some? {
      LookupIs(m, k, before.value);
      LookupIs(Prune(keep, m), k, before.value);
      PruneMember(keep, m, k, before.value);
    }
    if after.Some? {
      LookupIs(Prune(keep, m), k, after.value);
      LookupIs(m, k, after.value);
      PruneMember(keep, m, k, after.value);
    }
  }

  /** Dictionaries with the same contents hold the same entries. */
  lemma SameLookups<K(!new), V(!new)>(m: Entries<K, V>, n: Entries<K, V>)
    requires DistinctKeys(m) && DistinctKeys(n) && forall k: K :: Lookup(m, k) == Lookup(n, k)
    ensures multiset(m) == multiset(n)
  {
    forall e: (K, V)
      ensures e in m <==> e in n
    {
      LookupIs(m, e.0, e.1);
      LookupIs(n, e.0, e.1);
    }
    assert SetOf(m) == SetOf(n);
    DistinctIsSet(m);
    DistinctIsSet(n);
  }
}
