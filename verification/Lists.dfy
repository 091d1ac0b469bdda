/**
 Mapping, filtering and summing lists, and what of these does not depend on order.
 */
module Lists {
  function Map<T, U>(f: T -> U, s: seq<T>): seq<U> {
    seq(|s|, i requires 0 <= i < |s| => f(s[i]))
  }

  function Filter<T>(p: T -> bool, s: seq<T>): seq<T> {
    if s == [] then [] else (if p(s[0]) then [s[0]] else []) + Filter(p, s[1..])
  }

  function Sum(s: seq<real>): real {
    if s == [] then 0.0 else s[0] + Sum(s[1..])
  }

  lemma Joined<T>(a: seq<T>, b: seq<T>, c: seq<T>)
    ensures a + (b + c) == (a + b) + c
  {
  }

  lemma {:induction false} FilterConcat<T>(p: T -> bool, a: seq<T>, b: seq<T>)
    ensures Filter(p, a + b) == Filter(p, a) + Filter(p, b)
  {
    if a == [] {
      assert a + b == b;
    } else {
      var all, head := a + b, if p(a[0]) then [a[0]] else [];
      assert all[0] == a[0] && all[1..] == a[1..] + b;
      assert Filter(p, all) == head + Filter(p, a[1..] + b);
      FilterConcat(p, a[1..], b);
      Joined(head, Filter(p, a[1..]), Filter(p, b));
    }
  }

  lemma {:induction false} FilterNone<T>(p: T -> bool, s: seq<T>)
    requires forall i :: 0 <= i < |s| ==> !p(s[i])
    ensures Filter(p, s) == []
  {
    if s != [] {
      FilterNone(p, s[1..]);
    }
  }

  lemma {:induction false} FilterAll<T>(p: T -> bool, s: seq<T>)
    requires forall i :: 0 <= i < |s| ==> p(s[i])
    ensures Filter(p, s) == s
  {
    if s != [] {
      FilterAll(p, s[1..]);
    }
  }

  lemma FilterLast<T>(p: T -> bool, s: seq<T>, x: T)
    ensures Filter(p, s + [x]) == if p(x) then Filter(p, s) + [x] else Filter(p, s)
  {
    FilterConcat(p, s, [x]);
  }

  /** A filter that splits into two goes on splitting over a last element that either
      belongs to the second or finds it empty. */
  lemma SplitsOverLast<T>(p: T -> bool, q: T -> bool, r: T -> bool, s: seq<T>, x: T)
    requires Filter(p, s) == Filter(q, s) + Filter(r, s)
    requires p(x) == (q(x) || r(x)) && !(q(x) && r(x)) && (q(x) ==> Filter(r, s) == [])
    ensures Filter(p, s + [x]) == Filter(q, s + [x]) + Filter(r, s + [x])
  {
    FilterLast(p, s, x);
    FilterLast(q, s, x);
    FilterLast(r, s, x);
    Joined(Filter(q, s), Filter(r, s), [x]);
  }

  lemma {:induction false} FilterCounts<T>(p: T -> bool, s: seq<T>, x: T)
    ensures multiset(Filter(p, s))[x] == if p(x) then multiset(s)[x] else 0
  {
    if s != [] {
      FilterCounts(p, s[1..], x);
      assert s == [s[0]] + s[1..];
    }
  }

  lemma FilterMember<T>(p: T -> bool, s: seq<T>, x: T)
    ensures x in Filter(p, s) <==> x in s && p(x)
  {
    FilterCounts(p, s, x);
    assert x in Filter(p, s) <==> x in multiset(Filter(p, s));
    assert x in s <==> x in multiset(s);
  }

  lemma FilterMembers<T>(p: T -> bool, s: seq<T>)
    ensures forall x :: x in Filter(p, s) <==> x in s && p(x)
  {
    forall x
      ensures x in Filter(p, s) <==> x in s && p(x)
    {
      FilterMember(p, s, x);
    }
  }

  lemma FilterSame<T>(p: T -> bool, q: T -> bool, s: seq<T>)
    requires forall x :: x in s ==> p(x) == q(x)
    ensures Filter(p, s) == Filter(q, s)
  {
    if s != [] {
      FilterSame(p, q, s[1..]);
    }
  }

  /** `a` and `b` hold the same values: the first of `a` sits somewhere in `b`. */
  lemma TakeOut<T>(a: seq<T>, b: seq<T>) returns (j: nat)
    requires a != [] && multiset(a) == multiset(b)
    ensures j < |b| && b[j] == a[0]
    ensures multiset(a[1..]) == multiset(b[..j] + b[j + 1..])
  {
    assert a[0] in multiset(a);
    assert a[0] in b;
    j :| 0 <= j < |b| && b[j] == a[0];
    assert a == [a[0]] + a[1..];
    assert b == b[..j] + ([b[j]] + b[j + 1..]);
    assert multiset(b) == multiset(b[..j]) + (multiset{b[j]} + multiset(b[j + 1..]));
    assert multiset(a) - multiset{a[0]} == multiset(a[1..]);
    assert multiset(b) - multiset{b[j]} == multiset(b[..j]) + multiset(b[j + 1..]);
  }

  /** Filtering counts an element once, wherever it stands. */
  lemma FilterAround<T>(p: T -> bool, x: seq<T>, e: T, y: seq<T>)
    ensures multiset(Filter(p, x + ([e] + y))) == multiset(Filter(p, [e])) + multiset(Filter(p, x + y))
  {
    FilterConcat(p, x, [e] + y);
    FilterConcat(p, [e], y);
    FilterConcat(p, x, y);
  }

  lemma {:induction false} FilterPermutes<T>(p: T -> bool, a: seq<T>, b: seq<T>)
    requires multiset(a) == multiset(b)
    ensures multiset(Filter(p, a)) == multiset(Filter(p, b))
    decreases |a|
  {
    assert |multiset(a)| == |a| && |multiset(b)| == |b|;
    if a != [] {
      var j := TakeOut(a, b);
      FilterPermutes(p, a[1..], b[..j] + b[j + 1..]);
      assert a == [a[0]] + a[1..] && b == b[..j] + ([a[0]] + b[j + 1..]);
      FilterConcat(p, [a[0]], a[1..]);
      FilterAround(p, b[..j], a[0], b[j + 1..]);
    }
  }

  lemma {:induction false} MapPermutes<T, U>(f: T -> U, a: seq<T>, b: seq<T>)
    requires multiset(a) == multiset(b)
    ensures multiset(Map(f, a)) == multiset(Map(f, b))
    decreases |a|
  {
    assert |multiset(a)| == |a| && |multiset(b)| == |b|;
    if a != [] {
      var j := TakeOut(a, b);
      MapPermutes(f, a[1..], b[..j] + b[j + 1..]);
      assert Map(f, a) == [f(a[0])] + Map(f, a[1..]);
      assert Map(f, b) == Map(f, b[..j]) + [f(b[j])] + Map(f, b[j + 1..]);
      assert Map(f, b[..j] + b[j + 1..]) == Map(f, b[..j]) + Map(f, b[j + 1..]);
    }
  }

  lemma MapSame<T, U>(f: T -> U, g: T -> U, s: seq<T>)
    requires forall i :: 0 <= i < |s| ==> f(s[i]) == g(s[i])
    ensures Map(f, s) == Map(g, s)
  {
  }

  /** Filtering mapped values is mapping the filtered ones. */
  lemma {:induction false} FilterMap<T, U>(f: T -> U, p: T -> bool, q: U -> bool, s: seq<T>)
    requires forall i :: 0 <= i < |s| ==> p(s[i]) == q(f(s[i]))
    ensures Filter(q, Map(f, s)) == Map(f, Filter(p, s))
  {
    if s != [] {
      FilterMap(f, p, q, s[1..]);
      assert Map(f, s)[1..] == Map(f, s[1..]);
    }
  }

  lemma MapLast<T, U>(f: T -> U, s: seq<T>, x: T)
    ensures Map(f, s + [x]) == Map(f, s) + [f(x)]
  {
  }

  lemma MapNext<T, U>(f: T -> U, s: seq<T>, k: nat)
    requires k < |s|
    ensures Map(f, s[..k + 1]) == Map(f, s[..k]) + [f(s[k])]
  {
  }

  lemma {:induction false} SumConcat(a: seq<real>, b: seq<real>)
    ensures Sum(a + b) == Sum(a) + Sum(b)
  {
    if a == [] {
      assert a + b == b;
    } else {
      assert (a + b)[1..] == a[1..] + b;
      SumConcat(a[1..], b);
    }
  }

  lemma {:induction false} SumPermutes(a: seq<real>, b: seq<real>)
    requires multiset(a) == multiset(b)
    ensures Sum(a) == Sum(b)
    decreases |a|
  {
    assert |multiset(a)| == |a| && |multiset(b)| == |b|;
    if a != [] {
      var j := TakeOut(a, b);
      SumPermutes(a[1..], b[..j] + b[j + 1..]);
      SumConcat(b[..j], b[j + 1..]);
      SumConcat(b[..j], b[j..]);
      assert b == b[..j] + b[j..];
    }
  }

  /** Each value once, in order of first appearance. */
  function Dedup<T(==)>(s: seq<T>): seq<T> {
    if s == [] then []
    else
      var before, x := Dedup(s[..|s| - 1]), s[|s| - 1];
      if x in before then before else before + [x]
  }

  ghost predicate Distinct<T>(s: seq<T>) {
    forall i, j :: 0 <= i < j < |s| ==> s[i] != s[j]
  }

  lemma {:induction false} DedupIs<T>(s: seq<T>)
    ensures Distinct(Dedup(s))
    ensures forall x :: x in Dedup(s) <==> x in s
    ensures Dedup(s) == [] <==> s == []
  {
    if s != [] {
      DedupIs(s[..|s| - 1]);
      assert s == s[..|s| - 1] + [s[|s| - 1]];
    }
  }

  lemma DedupNext<T>(s: seq<T>, k: nat)
    requires k < |s|
    ensures Dedup(s[..k + 1]) == if s[k] in Dedup(s[..k]) then Dedup(s[..k]) else Dedup(s[..k]) + [s[k]]
  {
    assert s[..k + 1][..k] == s[..k];
  }

  function SetOf<T>(s: seq<T>): set<T> {
    set x | x in s
  }

  lemma {:induction false} DistinctIsSet<T>(s: seq<T>)
    requires Distinct(s)
    ensures multiset(s) == multiset(SetOf(s))
  {
    if s != [] {
      var front, last := s[..|s| - 1], s[|s| - 1];
      assert s == front + [last];
      DistinctIsSet(front);
      assert SetOf(s) == SetOf(front) + {last};
      assert last !in front;
    }
  }

  lemma {:induction false} DistinctSize<T>(s: seq<T>)
    requires Distinct(s)
    ensures |SetOf(s)| == |s|
  {
    if s != [] {
      var front, last := s[..|s| - 1], s[|s| - 1];
      assert s == front + [last];
      DistinctSize(front);
      assert SetOf(s) == SetOf(front) + {last};
      assert last !in front;
    }
  }

  lemma SameMembers<T>(a: seq<T>, b: seq<T>)
    requires multiset(a) == multiset(b)
    ensures forall x :: x in a <==> x in b
  {
    assert forall x :: x in a <==> x in multiset(a);
    assert forall x :: x in b <==> x in multiset(b);
  }

  lemma {:induction false} DistinctFilter<T>(p: T -> bool, s: seq<T>)
    requires Distinct(s)
    ensures Distinct(Filter(p, s))
  {
    if s != [] {
      var rest := Filter(p, s[1..]);
      DistinctFilter(p, s[1..]);
      forall j | 0 <= j < |rest|
        ensures rest[j] != s[0]
      {
        FilterMember(p, s[1..], rest[j]);
        assert rest[j] in rest;
        var i :| 0 <= i < |s[1..]| && s[1..][i] == rest[j];
        assert s[i + 1] == rest[j];
      }
    }
  }

  lemma TwiceCounted<T>(s: seq<T>, i: nat, j: nat)
    requires i < j < |s| && s[i] == s[j]
    ensures multiset(s)[s[i]] >= 2
  {
    assert s == s[..j] + s[j..];
    assert s[..j][i] in s[..j] && s[j..][0] in s[j..];
    assert s[i] in multiset(s[..j]) && s[i] in multiset(s[j..]);
  }

  lemma OnceCounted<T>(s: seq<T>, i: nat, j: nat)
    requires i < j < |s| && multiset(s)[s[i]] <= 1
    ensures s[i] != s[j]
  {
    if s[i] == s[j] {
      TwiceCounted(s, i, j);
    }
  }

  lemma DistinctPermutes<T>(a: seq<T>, b: seq<T>)
    requires Distinct(a) && multiset(a) == multiset(b)
    ensures Distinct(b)
  {
    DistinctIsSet(a);
    forall i, j | 0 <= i < j < |b|
      ensures b[i] != b[j]
    {
      assert multiset(b)[b[i]] == multiset(SetOf(a))[b[i]] <= 1;
      OnceCounted(b, i, j);
    }
  }

  lemma DedupPermutes<T>(a: seq<T>, b: seq<T>)
    requires multiset(a) == multiset(b)
    ensures multiset(Dedup(a)) == multiset(Dedup(b))
  {
    SameMembers(a, b);
    DedupIs(a);
    DedupIs(b);
    assert SetOf(Dedup(a)) == SetOf(Dedup(b));
    DistinctIsSet(Dedup(a));
    DistinctIsSet(Dedup(b));
  }

  lemma {:induction false} DedupAppended<T>(s: seq<T>, extra: seq<T>)
    requires forall x :: x in extra ==> x in s
    ensures Dedup(s + extra) == Dedup(s)
    decreases |extra|
  {
    if extra == [] {
      assert s + extra == s;
    } else {
      var front, last := extra[..|extra| - 1], extra[|extra| - 1];
      assert last in extra;
      assert (s + extra)[..|s + extra| - 1] == s + front;
      DedupAppended(s, front);
      DedupIs(s);
    }
  }

  function Having<T, K(==)>(key: T -> K, k: K): T -> bool {
    (x: T) => key(x) == k
  }

  lemma NoneHaving<T, K>(key: T -> K, k: K, s: seq<T>)
    requires k !in Map(key, s)
    ensures Filter(Having(key, k), s) == []
  {
    var ks := Map(key, s);
    forall i | 0 <= i < |s|
      ensures !Having(key, k)(s[i])
    {
      assert ks[i] in ks;
    }
    FilterNone(Having(key, k), s);
  }

  predicate HoldsGroup<T(==), K(==)>(key: T -> K, s: seq<T>, groups: map<K, seq<T>>, k: K) {
    k in groups ==> groups[k] == Filter(Having(key, k), s)
  }

  /** `groups` holds the values of `s` by key, with the keys in order of first appearance. */
  ghost predicate Grouped<T, K(!new)>(key: T -> K, s: seq<T>, order: seq<K>, groups: map<K, seq<T>>) {
    && order == Dedup(Map(key, s))
    && (forall k: K :: k in groups <==> k in order)
    && (forall k: K :: HoldsGroup(key, s, groups, k))
  }

  lemma OrderNext<T, K>(key: T -> K, s: seq<T>, x: T)
    ensures var before := Dedup(Map(key, s));
      Dedup(Map(key, s + [x])) == if key(x) in before then before else before + [key(x)]
  {
    var ks := Map(key, s + [x]);
    DedupNext(ks, |s|);
    MapLast(key, s, x);
    assert ks[..|s|] == Map(key, s) && ks[..|s| + 1] == ks;
  }

  /** The group of `x` with `x` added to it. */
  function Joining<T, K>(key: T -> K, x: T, groups: map<K, seq<T>>): seq<T> {
    if key(x) in groups then groups[key(x)] + [x] else [x]
  }

  lemma GroupHolds<T, K>(key: T -> K, s: seq<T>, x: T, groups: map<K, seq<T>>, k: K)
    requires HoldsGroup(key, s, groups, k) && (key(x) !in groups ==> Filter(Having(key, key(x)), s) == [])
    ensures HoldsGroup(key, s + [x], groups[key(x) := Joining(key, x, groups)], k)
  {
    FilterLast(Having(key, k), s, x);
  }

  lemma GroupNext<T, K(!new)>(key: T -> K, s: seq<T>, x: T, order: seq<K>, groups: map<K, seq<T>>)
    requires Grouped(key, s, order, groups)
    ensures Grouped(key, s + [x], if key(x) in groups then order else order + [key(x)],
                    groups[key(x) := Joining(key, x, groups)])
  {
    OrderNext(key, s, x);
    if key(x) !in groups {
      DedupIs(Map(key, s));
      NoneHaving(key, key(x), s);
    }
    var all, joined := s + [x], groups[key(x) := Joining(key, x, groups)];
    forall k: K
      ensures HoldsGroup(key, all, joined, k)
    {
      GroupHolds(key, s, x, groups, k);
    }
  }

  method GroupBy<T, K(!new, ==)>(key: T -> K, s: seq<T>) returns (order: seq<K>, groups: map<K, seq<T>>)
    ensures Grouped(key, s, order, groups)
  {
    order, groups := [], map[];
    for i := 0 to |s|
      invariant Grouped(key, s[..i], order, groups)
    {
      var x := s[i];
      var k := key(x);
      GroupNext(key, s[..i], x, order, groups);
      assert s[..i + 1] == s[..i] + [x];
      if k in groups {
        groups := groups[k := groups[k] + [x]];
      } else {
        groups := groups[k := [x]];
        order := order + [k];
      }
    }
    assert s[..|s|] == s;
  }
}
