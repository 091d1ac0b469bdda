/**
 Numerals: strings of digits in a base up to 16, as printed by `toString` and read
 by `BigInt`, and padding with zeros.
 */
module Digits {
  import opened Arithmetic

  function DigitChar(d: nat): char
    requires d < 16
  {
    "0123456789abcdef"[d]
  }

  /** The value of a digit; 16 for any other character. */
  function DigitValue(c: char): nat {
    if '0' <= c <= '9' then c as int - '0' as int
    else if 'a' <= c <= 'f' then 10 + (c as int - 'a' as int)
    else 16
  }

  predicate AllDigits(s: string, base: nat) {
    forall i :: 0 <= i < |s| ==> DigitValue(s[i]) < base
  }

  predicate IsBase(base: nat) {
    2 <= base <= 16
  }

  lemma CharValue(d: nat)
    requires d < 16
    ensures DigitValue(DigitChar(d)) == d
  {
  }

  lemma ValueChar(c: char)
    requires DigitValue(c) < 16
    ensures DigitChar(DigitValue(c)) == c
  {
  }

  /** The numeral of `n`, without leading zeros. */
  function Show(n: nat, base: nat): string
    requires IsBase(base)
  {
    if n < base then [DigitChar(n)]
    else
      DivShrinks(n, base);
      Show(n / base, base) + [DigitChar(n % base)]
  }

  function Read(s: string, base: nat): nat {
    if s == [] then 0 else Read(s[..|s| - 1], base) * base + DigitValue(s[|s| - 1])
  }

  function Zeros(k: nat): string {
    seq(k, _ => '0')
  }

  function PadStart(s: string, k: nat): string {
    if |s| < k then Zeros(k - |s|) + s else s
  }

  function PadEnd(s: string, k: nat): string {
    if |s| < k then s + Zeros(k - |s|) else s
  }

  lemma ReadLast(s: string, c: char, base: nat)
    ensures Read(s + [c], base) == Read(s, base) * base + DigitValue(c)
  {
    assert (s + [c])[..|s|] == s;
  }

  lemma AppendDigit(s: string, n: nat, q: nat, r: nat, base: nat)
    requires r < base <= 16 && n == q * base + r && Read(s, base) == q && AllDigits(s, base)
    ensures Read(s + [DigitChar(r)], base) == n && AllDigits(s + [DigitChar(r)], base)
  {
    CharValue(r);
    ReadLast(s, DigitChar(r), base);
  }

  /** Reading a numeral gives the number back. */
  lemma {:induction false} ReadShow(n: nat, base: nat)
    requires IsBase(base)
    ensures Read(Show(n, base), base) == n && AllDigits(Show(n, base), base) && Show(n, base) != []
  {
    if n < base {
      CharValue(n);
      ReadLast("", DigitChar(n), base);
      assert [] + [DigitChar(n)] == [DigitChar(n)];
    } else {
      var q, r := n / base, n % base;
      DivMod(n, base);
      DivShrinks(n, base);
      ReadShow(q, base);
      assert Show(n, base) == Show(q, base) + [DigitChar(r)];
      AppendDigit(Show(q, base), n, q, r, base);
    }
  }

  lemma {:induction false} ReadConcat(a: string, b: string, base: nat)
    ensures Read(a + b, base) == Read(a, base) * Pow(base, |b|) + Read(b, base)
    decreases |b|
  {
    if b == [] {
      assert a + b == a;
    } else {
      var front, last := b[..|b| - 1], b[|b| - 1];
      assert a + b == (a + front) + [last] && b == front + [last];
      ReadConcat(a, front, base);
      ReadLast(a + front, last, base);
      ReadLast(front, last, base);
      Distributes(Read(a, base), Pow(base, |front|), Read(front, base), base);
    }
  }

  lemma Distributes(x: nat, p: nat, y: nat, base: nat)
    ensures (x * p + y) * base == x * (base * p) + y * base
  {
  }

  lemma {:induction false} ReadZeros(k: nat, base: nat)
    ensures Read(Zeros(k), base) == 0
  {
    if k > 0 {
      ReadZeros(k - 1, base);
      assert Zeros(k) == Zeros(k - 1) + ['0'];
      ReadLast(Zeros(k - 1), '0', base);
    }
  }

  lemma ReadPadStart(s: string, k: nat, base: nat)
    ensures Read(PadStart(s, k), base) == Read(s, base)
    ensures AllDigits(s, base) && base >= 1 ==> AllDigits(PadStart(s, k), base)
    ensures |PadStart(s, k)| == if |s| < k then k else |s|
  {
    if |s| < k {
      ReadConcat(Zeros(k - |s|), s, base);
      ReadZeros(k - |s|, base);
    }
  }

  lemma ReadPadEnd(s: string, k: nat, base: nat)
    requires |s| <= k
    ensures Read(PadEnd(s, k), base) == Read(s, base) * Pow(base, k - |s|)
    ensures AllDigits(s, base) && base >= 1 ==> AllDigits(PadEnd(s, k), base)
    ensures |PadEnd(s, k)| == k
  {
    if |s| < k {
      ReadConcat(s, Zeros(k - |s|), base);
      ReadZeros(k - |s|, base);
    }
  }

  /** A numeral of `k` digits is less than the `k`-th power. */
  lemma {:induction false} ReadBound(s: string, base: nat)
    requires base >= 1 && AllDigits(s, base)
    ensures Read(s, base) < Pow(base, |s|)
  {
    if s != [] {
      var front := s[..|s| - 1];
      ReadBound(front, base);
      NextMultiple(Read(front, base), Pow(base, |front|), base);
    }
  }

  lemma ShortPower(base: nat, k: nat)
    requires base >= 1
    ensures k <= 1 ==> Pow(base, k) <= base
  {
    if k == 1 {
      assert Pow(base, 1) == base * Pow(base, 0);
    }
  }

  lemma ShowNext(n: nat, base: nat)
    requires IsBase(base) && n >= base
    ensures n / base < n && |Show(n, base)| == |Show(n / base, base)| + 1
  {
    DivShrinks(n, base);
  }

  lemma {:induction false} ShowLength(n: nat, base: nat, k: nat)
    requires IsBase(base) && k >= 1 && n < Pow(base, k)
    ensures |Show(n, base)| <= k
    decreases k
  {
    if n >= base {
      ShortPower(base, k);
      ShowNext(n, base);
      Quotient(n, base, Pow(base, k - 1));
      ShowLength(n / base, base, k - 1);
    }
  }

  lemma Quotient(n: nat, base: nat, p: nat)
    requires base >= 1 && n < base * p
    ensures n / base < p
  {
    var q := n / base;
    assert n == q * base + n % base;
    NextMultiple(p - 1, q, base);
    assert (p - 1) * base + base == p * base;
  }

  /** Numerals of one length are told apart by their values. */
  lemma {:induction false} ReadInjective(a: string, b: string, base: nat)
    requires IsBase(base) && AllDigits(a, base) && AllDigits(b, base) && |a| == |b| && Read(a, base) == Read(b, base)
    ensures a == b
  {
    if a != [] {
      var x, y := a[..|a| - 1], b[..|b| - 1];
      var c, d := DigitValue(a[|a| - 1]), DigitValue(b[|b| - 1]);
      DivUnique(Read(a, base), base, Read(x, base), c);
      DivUnique(Read(b, base), base, Read(y, base), d);
      ReadInjective(x, y, base);
      ValueChar(a[|a| - 1]);
      ValueChar(b[|b| - 1]);
      assert a == x + [a[|a| - 1]] && b == y + [b[|b| - 1]];
    }
  }

  /** Printing with padding inverts reading for a fixed length. */
  lemma ShowRead(s: string, base: nat)
    requires IsBase(base) && AllDigits(s, base) && s != []
    ensures PadStart(Show(Read(s, base), base), |s|) == s
  {
    var n := Read(s, base);
    ReadBound(s, base);
    ShowLength(n, base, |s|);
    ReadShow(n, base);
    ReadPadStart(Show(n, base), |s|, base);
    ReadInjective(PadStart(Show(n, base), |s|), s, base);
  }
}
