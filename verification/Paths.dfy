/**
 Chains of related values.
 */
module Paths {
  ghost predicate IsPath<T(!new)>(r: (T, T) -> bool, p: seq<T>, a: T, b: T) {
    && p != [] && p[0] == a && p[|p| - 1] == b
    && forall k :: 0 <= k < |p| - 1 ==> r(p[k], p[k + 1])
  }

  /** A finite chain of `r`-steps leads from `a` to `b`. */
  ghost predicate Linked<T(!new)>(r: (T, T) -> bool, a: T, b: T) {
    exists p: seq<T> :: IsPath(r, p, a, b)
  }

  ghost predicate Symmetric<T(!new)>(r: (T, T) -> bool) {
    forall a, b :: r(a, b) ==> r(b, a)
  }

  ghost predicate Within<T(!new)>(r: (T, T) -> bool, q: (T, T) -> bool) {
    forall a, b :: r(a, b) ==> q(a, b)
  }

  lemma LinkedToItself<T(!new)>(r: (T, T) -> bool, a: T)
    ensures Linked(r, a, a)
  {
    assert IsPath(r, [a], a, a);
  }

  lemma LinkedByStep<T(!new)>(r: (T, T) -> bool, a: T, b: T)
    requires r(a, b)
    ensures Linked(r, a, b)
  {
    assert IsPath(r, [a, b], a, b);
  }

  lemma LinkedTrans<T(!new)>(r: (T, T) -> bool, a: T, b: T, c: T)
    requires Linked(r, a, b) && Linked(r, b, c)
    ensures Linked(r, a, c)
  {
    var p :| IsPath(r, p, a, b);
    var q :| IsPath(r, q, b, c);
    var pq := p + q[1..];
    forall k | 0 <= k < |pq| - 1
      ensures r(pq[k], pq[k + 1])
    {
      if k < |p| - 1 {
        assert r(p[k], p[k + 1]);
      } else {
        assert r(q[k - |p| + 1], q[k - |p| + 2]);
      }
    }
    assert IsPath(r, pq, a, c);
  }

  function Reversed<T>(p: seq<T>): seq<T> {
    seq(|p|, k requires 0 <= k < |p| => p[|p| - 1 - k])
  }

  lemma LinkedSym<T(!new)>(r: (T, T) -> bool, a: T, b: T)
    requires Symmetric(r) && Linked(r, a, b)
    ensures Linked(r, b, a)
  {
    var p :| IsPath(r, p, a, b);
    var q := Reversed(p);
    forall k | 0 <= k < |q| - 1
      ensures r(q[k], q[k + 1])
    {
      assert r(p[|p| - 2 - k], p[|p| - 2 - k + 1]);
    }
    assert IsPath(r, q, b, a);
  }

  lemma LinkedMono<T(!new)>(r: (T, T) -> bool, q: (T, T) -> bool, a: T, b: T)
    requires Within(r, q) && Linked(r, a, b)
    ensures Linked(q, a, b)
  {
    var p :| IsPath(r, p, a, b);
    assert IsPath(q, p, a, b);
  }

  /** What each step keeps, a chain keeps. */
  lemma {:induction false} PathKeeps<T(!new), K>(r: (T, T) -> bool, p: seq<T>, a: T, b: T, f: T -> K)
    requires IsPath(r, p, a, b)
    requires forall x, y :: r(x, y) ==> f(x) == f(y)
    ensures f(a) == f(b)
    decreases |p|
  {
    if |p| > 1 {
      var q := p[..|p| - 1];
      assert IsPath(r, q, a, p[|p| - 2]);
      PathKeeps(r, q, a, p[|p| - 2], f);
      assert r(p[|p| - 2], p[|p| - 2 + 1]);
    }
  }
}
