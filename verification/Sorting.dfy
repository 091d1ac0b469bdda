/**
 Stable sorting by a comparison, as an insertion sort on values.
 */
module Sorting {
  import opened Lists

  ghost predicate TotalPreorder<T(!new)>(le: (T, T) -> bool) {
    && (forall a, b :: le(a, b) || le(b, a))
    && (forall a, b, c :: le(a, b) && le(b, c) ==> le(a, c))
  }

  ghost predicate Ascending<T(!new)>(le: (T, T) -> bool, s: seq<T>) {
    forall i, j :: 0 <= i < j < |s| ==> le(s[i], s[j])
  }

  function Insert<T>(le: (T, T) -> bool, x: T, s: seq<T>): seq<T> {
    if s == [] || le(x, s[0]) then [x] + s else [s[0]] + Insert(le, x, s[1..])
  }

  function Sort<T>(le: (T, T) -> bool, s: seq<T>): seq<T> {
    if s == [] then [] else Insert(le, s[0], Sort(le, s[1..]))
  }

  lemma {:induction false} InsertAdds<T>(le: (T, T) -> bool, x: T, s: seq<T>)
    ensures multiset(Insert(le, x, s)) == multiset{x} + multiset(s)
  {
    if s != [] && !le(x, s[0]) {
      InsertAdds(le, x, s[1..]);
      assert s == [s[0]] + s[1..];
    }
  }

  lemma {:induction false} SortPermutes<T>(le: (T, T) -> bool, s: seq<T>)
    ensures multiset(Sort(le, s)) == multiset(s)
  {
    if s != [] {
      SortPermutes(le, s[1..]);
      InsertAdds(le, s[0], Sort(le, s[1..]));
      assert s == [s[0]] + s[1..];
    }
  }

  lemma {:induction false} InsertAscends<T(!new)>(le: (T, T) -> bool, x: T, s: seq<T>)
    requires TotalPreorder(le) && Ascending(le, s)
    ensures Ascending(le, Insert(le, x, s))
  {
    if s != [] && !le(x, s[0]) {
      InsertAscends(le, x, s[1..]);
      InsertAdds(le, x, s[1..]);
      var t := Insert(le, x, s[1..]);
      forall j | 0 <= j < |t|
        ensures le(s[0], t[j])
      {
        assert t[j] in multiset(t);
        assert t[j] == x || t[j] in s[1..];
      }
    }
  }

  lemma {:induction false} SortAscends<T(!new)>(le: (T, T) -> bool, s: seq<T>)
    requires TotalPreorder(le)
    ensures Ascending(le, Sort(le, s))
  {
    if s != [] {
      SortAscends(le, s[1..]);
      InsertAscends(le, s[0], Sort(le, s[1..]));
    }
  }

  lemma {:induction false} InsertIsStable<T>(le: (T, T) -> bool, p: T -> bool, x: T, s: seq<T>)
    requires forall y :: y in s && p(x) && p(y) ==> le(x, y)
    ensures Filter(p, Insert(le, x, s)) == Filter(p, [x]) + Filter(p, s)
  {
    if s == [] || le(x, s[0]) {
      FilterConcat(p, [x], s);
    } else {
      InsertIsStable(le, p, x, s[1..]);
      FilterConcat(p, [s[0]], Insert(le, x, s[1..]));
      FilterConcat(p, [s[0]], s[1..]);
      assert s == [s[0]] + s[1..] && s[0] in s;
    }
  }

  /** Elements that compare as equal keep their order. */
  lemma {:induction false} SortIsStable<T>(le: (T, T) -> bool, p: T -> bool, s: seq<T>)
    requires forall x, y :: x in s && y in s && p(x) && p(y) ==> le(x, y)
    ensures Filter(p, Sort(le, s)) == Filter(p, s)
  {
    if s != [] {
      SortIsStable(le, p, s[1..]);
      SortPermutes(le, s[1..]);
      var t := Sort(le, s[1..]);
      forall y | y in t && p(s[0]) && p(y)
        ensures le(s[0], y)
      {
        assert y in multiset(t);
        assert y in s[1..];
      }
      InsertIsStable(le, p, s[0], t);
      FilterConcat(p, [s[0]], s[1..]);
      assert s == [s[0]] + s[1..];
    }
  }

  lemma SortKeepsMembers<T>(le: (T, T) -> bool, s: seq<T>)
    ensures |Sort(le, s)| == |s|
    ensures forall x :: x in Sort(le, s) <==> x in s
  {
    SortPermutes(le, s);
    var t := Sort(le, s);
    assert |multiset(t)| == |t| && |multiset(s)| == |s|;
    assert forall x :: x in t <==> x in multiset(t);
    assert forall x :: x in s <==> x in multiset(s);
  }

  ghost predicate Antisymmetric<T(!new)>(le: (T, T) -> bool, s: seq<T>) {
    forall x, y :: x in s && y in s && le(x, y) && le(y, x) ==> x == y
  }

  lemma SameHead<T(!new)>(le: (T, T) -> bool, a: seq<T>, b: seq<T>)
    requires Ascending(le, a) && Ascending(le, b) && multiset(a) == multiset(b) && a != [] && b != []
    requires Antisymmetric(le, a)
    ensures a[0] == b[0]
  {
    assert a[0] in multiset(a) && b[0] in multiset(b);
    var i :| 0 <= i < |b| && b[i] == a[0];
    var j :| 0 <= j < |a| && a[j] == b[0];
    if i > 0 && j > 0 {
      assert le(b[0], b[i]) && le(a[0], a[j]);
    }
  }

  lemma MultisetOfTail<T>(s: seq<T>)
    requires s != []
    ensures multiset(s[1..]) == multiset(s) - multiset{s[0]}
  {
    assert s == [s[0]] + s[1..];
  }

  /** A collection has only one ascending arrangement under an antisymmetric order. */
  lemma {:induction false} AscendingUnique<T(!new)>(le: (T, T) -> bool, a: seq<T>, b: seq<T>)
    requires Ascending(le, a) && Ascending(le, b) && multiset(a) == multiset(b) && Antisymmetric(le, a)
    ensures a == b
    decreases |a|
  {
    assert |multiset(a)| == |a| && |multiset(b)| == |b|;
    if a != [] {
      SameHead(le, a, b);
      MultisetOfTail(a);
      MultisetOfTail(b);
      AscendingUnique(le, a[1..], b[1..]);
      assert a == [a[0]] + a[1..] && b == [b[0]] + b[1..];
    }
  }

  /** Sorting does not depend on the arrangement it starts from. */
  lemma SortForgetsOrder<T(!new)>(le: (T, T) -> bool, a: seq<T>, b: seq<T>)
    requires TotalPreorder(le) && multiset(a) == multiset(b)
    requires Antisymmetric(le, a)
    ensures Sort(le, a) == Sort(le, b)
  {
    SortPermutes(le, a);
    SortPermutes(le, b);
    SortAscends(le, a);
    SortAscends(le, b);
    SortKeepsMembers(le, a);
    AscendingUnique(le, Sort(le, a), Sort(le, b));
  }
}
