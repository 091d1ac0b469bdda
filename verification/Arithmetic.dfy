/**
 Division and powers.
 */
module Arithmetic {
  const TWO_64: nat := 0x1_0000_0000_0000_0000
  const TWO_128: nat := 0x1_0000_0000_0000_0000_0000_0000_0000_0000

  lemma NextMultiple(p: int, q: int, d: nat)
    ensures p < q ==> p * d + d <= q * d
  {
    var n := q - p;
    assert q * d == p * d + n * d;
    assert n >= 1 ==> n * d >= d;
  }

  /** Quotient and remainder are unique. */
  lemma DivUnique(a: int, d: nat, q: int, r: nat)
    requires d >= 1 && a == q * d + r && r < d
    ensures a / d == q && a % d == r
  {
    var p := a / d;
    assert a == p * d + a % d;
    NextMultiple(p, q, d);
    NextMultiple(q, p, d);
  }

  /** Dividing up gives the least integer that covers the numerator. */
  lemma CeilingIsLeast(n: nat, d: nat, q: int)
    requires d >= 1
    ensures q >= (n + d - 1) / d <==> q * d >= n
  {
    var x := (n + d - 1) / d;
    DivMod(n + d - 1, d);
    NextMultiple(q, x, d);
    NextMultiple(x - 1, q, d);
    assert (x - 1) * d == x * d - d;
  }

  lemma DivMod(n: nat, d: nat)
    requires d >= 1
    ensures n == n / d * d + n % d && 0 <= n % d < d && 0 <= n / d <= n
  {
    var q := n / d;
    AtLeastOnce(d, q);
  }

  lemma DivShrinks(n: nat, d: nat)
    requires n >= d >= 2
    ensures n / d < n
  {
    var q := n / d;
    DivMod(n, d);
    AtLeastTwice(q, d);
  }

  lemma AtLeastTwice(q: nat, d: nat)
    requires d >= 2
    ensures q * d >= q + q
  {
  }

  lemma AtLeastOnce(h: nat, p: nat)
    requires h >= 1
    ensures h * p >= p
  {
  }

  lemma OneMore(k: int, x: int)
    ensures k * x == (k - 1) * x + x
  {
  }

  function Pow(base: nat, k: nat): nat {
    if k == 0 then 1 else base * Pow(base, k - 1)
  }

  lemma {:induction false} PowPositive(base: nat, k: nat)
    requires base >= 1
    ensures Pow(base, k) >= 1
  {
    if k > 0 {
      PowPositive(base, k - 1);
      assert base * Pow(base, k - 1) >= 1 * Pow(base, k - 1);
    }
  }
}
