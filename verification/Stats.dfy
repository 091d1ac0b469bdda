/**
 Medians.
 */
module Stats {
  import opened Lists
  import opened Sorting

  function Abs(x: real): real {
    if x < 0.0 then -x else x
  }

  function AtMost(): (real, real) -> bool {
    (a: real, b: real) => a <= b
  }

  function Sorted(s: seq<real>): seq<real> {
    Sort(AtMost(), s)
  }

  lemma SortedFacts(s: seq<real>)
    ensures |Sorted(s)| == |s| && multiset(Sorted(s)) == multiset(s)
    ensures forall i, j :: 0 <= i < j < |s| ==> Sorted(s)[i] <= Sorted(s)[j]
  {
    SortKeepsMembers(AtMost(), s);
    SortPermutes(AtMost(), s);
    SortAscends(AtMost(), s);
    forall i, j | 0 <= i < j < |s|
      ensures Sorted(s)[i] <= Sorted(s)[j]
    {
      assert AtMost()(Sorted(s)[i], Sorted(s)[j]);
    }
  }

  /** The middle value, or the mean of the two middle values. */
  function Median(s: seq<real>): real
    requires s != []
  {
    SortedFacts(s);
    var t, mid := Sorted(s), |s| / 2;
    if |s| % 2 == 0 then (t[mid - 1] + t[mid]) / 2.0 else t[mid]
  }

  lemma MedianForgetsOrder(a: seq<real>, b: seq<real>)
    requires a != [] && b != [] && multiset(a) == multiset(b)
    ensures Median(a) == Median(b)
  {
    assert |multiset(a)| == |a| && |multiset(b)| == |b|;
    SortForgetsOrder(AtMost(), a, b);
  }

  predicate Inside(x: real, lo: real, hi: real) {
    lo <= x <= hi
  }

  /** How many of the first `k` values lie in `[lo, hi]`. */
  function Count(s: seq<real>, lo: real, hi: real, k: nat): nat
    requires k <= |s|
  {
    if k == 0 then 0 else Count(s, lo, hi, k - 1) + if Inside(s[k - 1], lo, hi) then 1 else 0
  }

  function CountIn(s: seq<real>, lo: real, hi: real): nat {
    Count(s, lo, hi, |s|)
  }

  lemma {:induction false} CountTail(x: real, s: seq<real>, lo: real, hi: real, k: nat)
    requires k <= |s|
    ensures Count([x] + s, lo, hi, k + 1) == Count(s, lo, hi, k) + if Inside(x, lo, hi) then 1 else 0
  {
    if k > 0 {
      CountTail(x, s, lo, hi, k - 1);
    }
  }

  lemma CountCons(x: real, s: seq<real>, lo: real, hi: real)
    ensures CountIn([x] + s, lo, hi) == CountIn(s, lo, hi) + if Inside(x, lo, hi) then 1 else 0
  {
    CountTail(x, s, lo, hi, |s|);
  }

  lemma {:induction false} CountInsert(x: real, s: seq<real>, lo: real, hi: real)
    ensures CountIn(Insert(AtMost(), x, s), lo, hi) == CountIn(s, lo, hi) + if Inside(x, lo, hi) then 1 else 0
    decreases |s|
  {
    if s == [] || AtMost()(x, s[0]) {
      CountCons(x, s, lo, hi);
    } else {
      CountInsert(x, s[1..], lo, hi);
      CountCons(s[0], Insert(AtMost(), x, s[1..]), lo, hi);
      CountCons(s[0], s[1..], lo, hi);
      assert s == [s[0]] + s[1..];
    }
  }

  lemma {:induction false} CountSorted(s: seq<real>, lo: real, hi: real)
    ensures CountIn(Sorted(s), lo, hi) == CountIn(s, lo, hi)
    decreases |s|
  {
    if s != [] {
      CountSorted(s[1..], lo, hi);
      CountInsert(s[0], Sorted(s[1..]), lo, hi);
      CountCons(s[0], s[1..], lo, hi);
      assert s == [s[0]] + s[1..];
    }
  }

  /** At most `m` values are inside if all from index `m` on are above, ... */
  lemma {:induction false} CountAbove(t: seq<real>, lo: real, hi: real, m: nat, k: nat)
    requires m <= k <= |t| && forall i :: m <= i < k ==> t[i] > hi
    ensures Count(t, lo, hi, k) <= m
  {
    if k > m {
      CountAbove(t, lo, hi, m, k - 1);
    } else {
      CountAtMost(t, lo, hi, k);
    }
  }

  lemma {:induction false} CountAtMost(t: seq<real>, lo: real, hi: real, k: nat)
    requires k <= |t|
    ensures Count(t, lo, hi, k) <= k
  {
    if k > 0 {
      CountAtMost(t, lo, hi, k - 1);
    }
  }

  /** ... or if all before the last `m` are below. */
  lemma {:induction false} CountBelow(t: seq<real>, lo: real, hi: real, m: nat, k: nat)
    requires m <= k <= |t| && forall i :: 0 <= i < m ==> t[i] < lo
    ensures Count(t, lo, hi, k) <= k - m
  {
    if k > m {
      CountBelow(t, lo, hi, m, k - 1);
    } else if k > 0 {
      CountBelow(t, lo, hi, m - 1, k - 1);
    }
  }

  lemma {:induction false} CountAll(t: seq<real>, lo: real, hi: real, k: nat)
    requires k <= |t| && forall i :: 0 <= i < k ==> Inside(t[i], lo, hi)
    ensures Count(t, lo, hi, k) == k
  {
    if k > 0 {
      CountAll(t, lo, hi, k - 1);
    }
  }

  /** If strictly more than half of the values lie in `[lo, hi]`, so does the median,
      whatever the others are. */
  lemma MajorityHoldsMedian(s: seq<real>, lo: real, hi: real)
    requires s != [] && 2 * CountIn(s, lo, hi) > |s|
    ensures Inside(Median(s), lo, hi)
  {
    SortedFacts(s);
    CountSorted(s, lo, hi);
    var t, mid := Sorted(s), |s| / 2;
    if t[mid] > hi {
      CountAbove(t, lo, hi, mid, |t|);
    }
    var low := if |s| % 2 == 0 then mid - 1 else mid;
    if t[low] < lo {
      CountBelow(t, lo, hi, low + 1, |t|);
    }
    assert t[low] <= t[mid];
  }

  /** The median lies between any bounds of all the values. */
  lemma MedianWithin(s: seq<real>, lo: real, hi: real)
    requires s != [] && forall i :: 0 <= i < |s| ==> Inside(s[i], lo, hi)
    ensures Inside(Median(s), lo, hi)
  {
    CountAll(s, lo, hi, |s|);
    MajorityHoldsMedian(s, lo, hi);
  }

  lemma Extremes(s: seq<real>) returns (a: nat, b: nat)
    requires s != []
    ensures a < |s| && b < |s| && forall i :: 0 <= i < |s| ==> s[a] <= s[i] <= s[b]
  {
    a, b := 0, 0;
    for k := 0 to |s|
      invariant a < |s| && b < |s|
      invariant forall i :: 0 <= i < k ==> s[a] <= s[i] <= s[b]
      invariant s[a] <= s[b]
    {
      a, b := if s[k] < s[a] then k else a, if s[k] > s[b] then k else b;
    }
  }

  // ---------------------------------------------------------------------------
  // What a median is
  // ---------------------------------------------------------------------------

  function NotAbove(x: real): real -> bool {
    (y: real) => y <= x
  }

  function NotBelow(x: real): real -> bool {
    (y: real) => y >= x
  }

  /** How many values are at most `x`. */
  function CountUpTo(s: seq<real>, x: real): nat {
    |Filter(NotAbove(x), s)|
  }

  /** How many values are at least `x`. */
  function CountFrom(s: seq<real>, x: real): nat {
    |Filter(NotBelow(x), s)|
  }

  /** `a` is a value with at least `low` values at or below it and `high` at or above it. */
  predicate Splits(s: seq<real>, a: real, low: int, high: int) {
    a in s && CountUpTo(s, a) >= low && CountFrom(s, a) >= high
  }

  predicate Middle(s: seq<real>, m: real) {
    Splits(s, m, (|s| + 1) / 2, (|s| + 1) / 2)
  }

  predicate LowerMiddle(s: seq<real>, a: real) {
    Splits(s, a, |s| / 2, |s| / 2 + 1)
  }

  predicate UpperMiddle(s: seq<real>, b: real) {
    Splits(s, b, |s| / 2 + 1, |s| / 2)
  }

  /** The value in the middle of an odd number of values; of an even number the mean of the
      two in the middle, the lower with half of all at or below it and more than half at or
      above it, the higher the other way round. */
  ghost predicate IsMedian(s: seq<real>, m: real) {
    if |s| % 2 == 1 then Middle(s, m)
    else exists a: real, b: real :: LowerMiddle(s, a) && UpperMiddle(s, b) && m == (a + b) / 2.0
  }

  lemma SameCounts(s: seq<real>, t: seq<real>, x: real)
    requires multiset(s) == multiset(t)
    ensures CountUpTo(s, x) == CountUpTo(t, x) && CountFrom(s, x) == CountFrom(t, x)
  {
    FilterPermutes(NotAbove(x), s, t);
    FilterPermutes(NotBelow(x), s, t);
    assert |multiset(Filter(NotAbove(x), s))| == |multiset(Filter(NotAbove(x), t))|;
    assert |multiset(Filter(NotBelow(x), s))| == |multiset(Filter(NotBelow(x), t))|;
  }

  /** In ascending order those up to an index are at or below it, those from it at or above. */
  lemma CountsAt(t: seq<real>, k: nat)
    requires k < |t| && forall i, j :: 0 <= i < j < |t| ==> t[i] <= t[j]
    ensures CountUpTo(t, t[k]) >= k + 1 && CountFrom(t, t[k]) >= |t| - k
  {
    var x := t[k];
    assert t == t[..k + 1] + t[k + 1..] && t == t[..k] + t[k..];
    FilterConcat(NotAbove(x), t[..k + 1], t[k + 1..]);
    FilterAll(NotAbove(x), t[..k + 1]);
    FilterConcat(NotBelow(x), t[..k], t[k..]);
    FilterAll(NotBelow(x), t[k..]);
  }

  lemma MiddleSplits(s: seq<real>, k: nat, low: int, high: int)
    requires k < |s| && low == k + 1 && high == |s| - k
    ensures |Sorted(s)| == |s| && Splits(s, Sorted(s)[k], low, high)
  {
    var t := Sorted(s);
    SortedFacts(s);
    SortKeepsMembers(AtMost(), s);
    CountsAt(t, k);
    SameCounts(s, t, t[k]);
    assert t[k] in t;
  }

  lemma OddMiddle(s: seq<real>)
    requires |s| % 2 == 1
    ensures Middle(s, Median(s))
  {
    MiddleSplits(s, |s| / 2, (|s| + 1) / 2, (|s| + 1) / 2);
  }

  lemma EvenMiddle(s: seq<real>) returns (a: real, b: real)
    requires s != [] && |s| % 2 == 0
    ensures LowerMiddle(s, a) && UpperMiddle(s, b) && Median(s) == (a + b) / 2.0
  {
    var half := |s| / 2;
    MiddleSplits(s, half - 1, half, half + 1);
    MiddleSplits(s, half, half + 1, half);
    a, b := Sorted(s)[half - 1], Sorted(s)[half];
  }

  lemma {:induction false} CountsDisjoint(s: seq<real>, x: real, y: real)
    requires x < y
    ensures CountUpTo(s, x) + CountFrom(s, y) <= |s|
  {
    if s != [] {
      CountsDisjoint(s[1..], x, y);
    }
  }

  lemma SplitsOnce(s: seq<real>, a: real, b: real, low: int, high: int)
    requires Splits(s, a, low, high) && Splits(s, b, low, high) && low + high > |s|
    ensures a == b
  {
    if a < b {
      CountsDisjoint(s, a, b);
    } else if b < a {
      CountsDisjoint(s, b, a);
    }
  }

  lemma MiddlesOnce(s: seq<real>, a: real, b: real, c: real, d: real)
    requires LowerMiddle(s, a) && UpperMiddle(s, b) && LowerMiddle(s, c) && UpperMiddle(s, d) && |s| % 2 == 0
    ensures a == c && b == d
  {
    SplitsOnce(s, a, c, |s| / 2, |s| / 2 + 1);
    SplitsOnce(s, b, d, |s| / 2 + 1, |s| / 2);
  }

  lemma MedianIsOne(s: seq<real>)
    requires s != []
    ensures IsMedian(s, Median(s))
  {
    if |s| % 2 == 1 {
      OddMiddle(s);
    } else {
      var a, b := EvenMiddle(s);
    }
  }

  lemma MediansAgree(s: seq<real>, m: real, n: real)
    requires IsMedian(s, m) && IsMedian(s, n)
    ensures m == n
  {
    if |s| % 2 == 1 {
      SplitsOnce(s, m, n, (|s| + 1) / 2, (|s| + 1) / 2);
    } else {
      var a: real, b: real :| LowerMiddle(s, a) && UpperMiddle(s, b) && m == (a + b) / 2.0;
      var c: real, d: real :| LowerMiddle(s, c) && UpperMiddle(s, d) && n == (c + d) / 2.0;
      MiddlesOnce(s, a, b, c, d);
    }
  }

  /** Only one value is a median, and it is the one computed. */
  lemma MedianIff(s: seq<real>, m: real)
    requires s != []
    ensures m == Median(s) <==> IsMedian(s, m)
  {
    MedianIsOne(s);
    if IsMedian(s, m) {
      MediansAgree(s, m, Median(s));
    }
  }
}
