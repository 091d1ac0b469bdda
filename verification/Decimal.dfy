/**
 Exact decimal strings: the scaled printer and parser of the oracle encoding, the
 1e7 fixed-point printer and parser of monetary values, and rounding division.
 */
module Decimal {
  import opened Wrappers
  import opened Arithmetic
  import opened Digits

  datatype Error = InvalidScale | InvalidDecimal | TooManyDigits | NotPositive | Negative

  // ---------------------------------------------------------------------------
  // The shape of decimal strings
  // ---------------------------------------------------------------------------

  /** Sign, integer digits and fraction digits of a decimal string. */
  datatype Parts = Parts(negative: bool, whole: string, fraction: string)

  /** The position of the first dot, or the length if there is none. */
  function DotAt(s: string): nat {
    if s == [] || s[0] == '.' then 0 else 1 + DotAt(s[1..])
  }

  lemma {:induction false} DotIs(s: string)
    ensures DotAt(s) <= |s| && (forall i :: 0 <= i < DotAt(s) ==> s[i] != '.')
    ensures DotAt(s) < |s| ==> s[DotAt(s)] == '.'
  {
    if s != [] && s[0] != '.' {
      DotIs(s[1..]);
    }
  }

  predicate IsNumeral(s: string) {
    s != [] && AllDigits(s, 10)
  }

  /** `\d+(\.\d+)?`, taken apart. */
  function SplitUnsigned(unsigned: string, negative: bool): Option<Parts> {
    DotIs(unsigned);
    var dot := DotAt(unsigned);
    if !IsNumeral(unsigned[..dot]) then None
    else if dot == |unsigned| then Some(Parts(negative, unsigned[..dot], ""))
    else if IsNumeral(unsigned[dot + 1..]) then Some(Parts(negative, unsigned[..dot], unsigned[dot + 1..]))
    else None
  }

  /** `-?\d+(\.\d+)?`, taken apart. */
  function Split(value: string): Option<Parts> {
    if value != [] && value[0] == '-' then SplitUnsigned(value[1..], true) else SplitUnsigned(value, false)
  }

  function Body(p: Parts, dotted: bool): string {
    p.whole + if dotted then "." + p.fraction else ""
  }

  /** The decimal string with these parts; `dotted` says whether a fraction is written. */
  function Join(p: Parts, dotted: bool): string {
    if p.negative then "-" + Body(p, dotted) else Body(p, dotted)
  }

  lemma {:induction false} DotAfterDigits(s: string, tail: string)
    requires AllDigits(s, 10) && (tail == [] || tail[0] == '.')
    ensures DotAt(s + tail) == |s|
  {
    if s == [] {
      assert s + tail == tail;
    } else {
      assert (s + tail)[1..] == s[1..] + tail;
      DotAfterDigits(s[1..], tail);
    }
  }

  predicate IsWritten(p: Parts, dotted: bool) {
    IsNumeral(p.whole) && if dotted then IsNumeral(p.fraction) else p.fraction == ""
  }

  lemma SplitBody(p: Parts, dotted: bool)
    requires IsWritten(p, dotted)
    ensures SplitUnsigned(Body(p, dotted), p.negative) == Some(p) && Body(p, dotted)[0] != '-'
  {
    var tail := if dotted then "." + p.fraction else "";
    var unsigned := p.whole + tail;
    DotAfterDigits(p.whole, tail);
    assert unsigned[..|p.whole|] == p.whole;
    if dotted {
      assert unsigned[|p.whole| + 1..] == p.fraction;
    }
  }

  /** Taking apart inverts putting together. */
  lemma SplitJoin(p: Parts, dotted: bool)
    requires IsWritten(p, dotted)
    ensures Split(Join(p, dotted)) == Some(p)
  {
    SplitBody(p, dotted);
    if p.negative {
      assert ("-" + Body(p, dotted))[1..] == Body(p, dotted);
    }
  }

  // ---------------------------------------------------------------------------
  // Scaled decimals
  // ---------------------------------------------------------------------------

  function Signed(negative: bool, n: int): int {
    if negative then -n else n
  }

  function AbsOf(x: int): nat {
    if x < 0 then -x else x
  }

  predicate IsScale(scale: int) {
    0 <= scale <= 38
  }

  /** The number with these parts, times ten to the `scale`. */
  function Magnitude(p: Parts, scale: nat): nat {
    Read(p.whole, 10) * Pow(10, scale) + Read(PadEnd(p.fraction, scale), 10)
  }

  /** The parts of `q + r / 10^scale`. */
  function MakeParts(negative: bool, q: nat, r: nat, scale: nat): Parts {
    Parts(negative, Show(q, 10), if scale == 0 then "" else PadStart(Show(r, 10), scale))
  }

  function PartsOf(scaled: int, scale: nat): Parts {
    PowPositive(10, scale);
    var n, divisor := AbsOf(scaled), Pow(10, scale);
    MakeParts(scaled < 0, n / divisor, n % divisor, scale)
  }

  function ParseFixedDecimal(value: string, scale: int): Result<int, Error> {
    if !IsScale(scale) then Failure(InvalidScale)
    else
      match Split(value)
      case None => Failure(InvalidDecimal)
      case Some(p) =>
        if |p.fraction| > scale then Failure(TooManyDigits)
        else Success(Signed(p.negative, Magnitude(p, scale)))
  }

  function FormatFixedDecimal(scaled: int, scale: int): Result<string, Error> {
    if !IsScale(scale) then Failure(InvalidScale) else Success(Join(PartsOf(scaled, scale), scale != 0))
  }

  /** A remainder printed with padding has exactly `scale` digits. */
  lemma FractionDigits(r: nat, scale: nat)
    requires scale >= 1 && r < Pow(10, scale)
    ensures var f := PadStart(Show(r, 10), scale);
      |f| == scale && IsNumeral(f) && Read(f, 10) == r && PadEnd(f, scale) == f
  {
    ReadShow(r, 10);
    ShowLength(r, 10, scale);
    ReadPadStart(Show(r, 10), scale, 10);
  }

  lemma MadeParts(negative: bool, q: nat, r: nat, scale: nat)
    requires r < Pow(10, scale)
    ensures var p := MakeParts(negative, q, r, scale);
      Magnitude(p, scale) == q * Pow(10, scale) + r && IsWritten(p, scale != 0) && |p.fraction| == scale
  {
    ReadShow(q, 10);
    if scale == 0 {
      assert PadEnd("", 0) == "";
    } else {
      FractionDigits(r, scale);
    }
  }

  /** The parts of a number are well formed and stand for it. */
  lemma PartsStandFor(scaled: int, scale: nat)
    ensures var p := PartsOf(scaled, scale);
      && p.negative == (scaled < 0) && Magnitude(p, scale) == AbsOf(scaled)
      && IsWritten(p, scale != 0) && |p.fraction| == scale
  {
    PowPositive(10, scale);
    var n, divisor := AbsOf(scaled), Pow(10, scale);
    DivMod(n, divisor);
    MadeParts(scaled < 0, n / divisor, n % divisor, scale);
  }

  lemma ParseJoined(p: Parts, scale: nat)
    requires IsScale(scale) && IsWritten(p, scale != 0) && |p.fraction| == scale
    ensures ParseFixedDecimal(Join(p, scale != 0), scale) == Success(Signed(p.negative, Magnitude(p, scale)))
  {
    SplitJoin(p, scale != 0);
  }

  lemma ParseBack(p: Parts, scaled: int, scale: nat)
    requires IsScale(scale) && IsWritten(p, scale != 0) && |p.fraction| == scale
    requires p.negative == (scaled < 0) && Magnitude(p, scale) == AbsOf(scaled)
    ensures ParseFixedDecimal(Join(p, scale != 0), scale) == Success(scaled)
  {
    ParseJoined(p, scale);
  }

  /** Every integer survives printing and parsing, at every scale. */
  lemma ParseFormat(scaled: int, scale: int)
    requires 0 <= scale <= 38
    ensures var s := FormatFixedDecimal(scaled, scale);
      s.Success? && ParseFixedDecimal(s.value, scale) == Success(scaled)
  {
    PartsStandFor(scaled, scale);
    ParseBack(PartsOf(scaled, scale), scaled, scale);
  }

  lemma NoLeadingZeros(s: string)
    requires IsNumeral(s) && (|s| > 1 ==> s[0] != '0')
    ensures Show(Read(s, 10), 10) == s
  {
    ShowRead(s, 10);
    ReadShow(Read(s, 10), 10);
    if |s| > 1 {
      ReadHead(s);
      ShowNotShorter(Read(s, 10), |s|);
    }
  }

  /** A numeral whose first digit is not zero is at least a power of ten. */
  lemma ReadHead(s: string)
    requires IsNumeral(s) && s[0] != '0'
    ensures Read(s, 10) >= Pow(10, |s| - 1)
  {
    var head, tail := [s[0]], s[1..];
    assert s == head + tail;
    ReadConcat(head, tail, 10);
    OneDigit(s[0]);
    AtLeastOnce(Read(head, 10), Pow(10, |tail|));
  }

  lemma OneDigit(c: char)
    requires DigitValue(c) < 10 && c != '0'
    ensures Read([c], 10) >= 1
  {
    ReadLast("", c, 10);
    assert "" + [c] == [c];
  }

  lemma ShowNotShorter(n: nat, k: nat)
    requires k >= 2 && n >= Pow(10, k - 1)
    ensures |Show(n, 10)| >= k
  {
    ReadShow(n, 10);
    ReadBound(Show(n, 10), 10);
    if |Show(n, 10)| < k {
      PowMonotone(|Show(n, 10)|, k - 1);
    }
  }

  lemma {:induction false} PowMonotone(a: nat, b: nat)
    requires a <= b
    ensures Pow(10, a) <= Pow(10, b)
  {
    if a < b {
      PowMonotone(a, b - 1);
    }
  }

  /** What the printer produces: no superfluous zeros, exactly `scale` fraction digits,
      and no sign on zero. */
  predicate IsCanonical(p: Parts, scale: nat) {
    && IsNumeral(p.whole) && (|p.whole| > 1 ==> p.whole[0] != '0')
    && |p.fraction| == scale && AllDigits(p.fraction, 10)
    && (p.negative ==> Magnitude(p, scale) > 0)
  }

  lemma CanonicalParts(p: Parts, scale: nat)
    requires IsCanonical(p, scale)
    ensures PartsOf(Signed(p.negative, Magnitude(p, scale)), scale) == p
  {
    var divisor, q, r := Pow(10, scale), Read(p.whole, 10), Read(p.fraction, 10);
    ReadBound(p.fraction, 10);
    PowPositive(10, scale);
    assert PadEnd(p.fraction, scale) == p.fraction;
    DivUnique(Magnitude(p, scale), divisor, q, r);
    NoLeadingZeros(p.whole);
    if scale > 0 {
      ShowRead(p.fraction, 10);
    }
  }

  /** Every canonical string survives parsing and printing. */
  lemma FormatParse(p: Parts, scale: nat)
    requires IsScale(scale) && IsCanonical(p, scale)
    ensures var value := Join(p, scale != 0);
      var x := ParseFixedDecimal(value, scale);
      x.Success? && FormatFixedDecimal(x.value, scale) == Success(value)
  {
    ParseJoined(p, scale);
    CanonicalParts(p, scale);
  }

  lemma CutAtDot(s: string, dot: nat)
    requires dot < |s| && s[dot] == '.'
    ensures s[..dot] + ("." + s[dot + 1..]) == s
  {
  }

  lemma CutAtEnd(s: string)
    ensures s[..|s|] + "" == s
  {
  }

  /** Putting together inverts taking apart. */
  lemma JoinSplit(unsigned: string, negative: bool)
    requires SplitUnsigned(unsigned, negative).Some?
    ensures var p := SplitUnsigned(unsigned, negative).value;
      var dotted := DotAt(unsigned) < |unsigned|;
      p.negative == negative && IsWritten(p, dotted) && Body(p, dotted) == unsigned
  {
    DotIs(unsigned);
    var dot := DotAt(unsigned);
    if dot < |unsigned| {
      CutAtDot(unsigned, dot);
    } else {
      CutAtEnd(unsigned);
    }
  }

  /** `value` is written with at most `scale` fraction digits: an optional minus sign,
      digits, and optionally a dot followed by digits. */
  ghost predicate IsPlainDecimal(value: string, scale: int) {
    exists p: Parts, dotted: bool :: IsWritten(p, dotted) && value == Join(p, dotted) && |p.fraction| <= scale
  }

  lemma SplitIsPlain(value: string, scale: int)
    requires Split(value).Some? && |Split(value).value.fraction| <= scale
    ensures IsPlainDecimal(value, scale)
  {
    var negative := value != [] && value[0] == '-';
    var unsigned := if negative then value[1..] else value;
    JoinSplit(unsigned, negative);
    if negative {
      assert "-" + value[1..] == value;
    }
    assert value == Join(Split(value).value, DotAt(unsigned) < |unsigned|);
  }

  lemma PlainSplits(value: string, scale: int)
    requires IsPlainDecimal(value, scale)
    ensures Split(value).Some? && |Split(value).value.fraction| <= scale
  {
    var p: Parts, dotted: bool :| IsWritten(p, dotted) && value == Join(p, dotted) && |p.fraction| <= scale;
    SplitJoin(p, dotted);
  }

  /** Exactly plain decimal strings with few enough fraction digits parse. */
  lemma ParseAccepts(value: string, scale: int)
    ensures ParseFixedDecimal(value, scale).Success? <==> 0 <= scale <= 38 && IsPlainDecimal(value, scale)
  {
    if IsPlainDecimal(value, scale) {
      PlainSplits(value, scale);
    }
    if Split(value).Some? && |Split(value).value.fraction| <= scale {
      SplitIsPlain(value, scale);
    }
  }

  // ---------------------------------------------------------------------------
  // 1e7 fixed point
  // ---------------------------------------------------------------------------

  const FIXED_POINT_DECIMALS: nat := 7

  predicate IsSpace(c: char) {
    || c == ' ' || '\t' <= c <= '\r' || c == '\U{00A0}' || c == '\U{1680}' || '\U{2000}' <= c <= '\U{200A}'
    || c == '\U{2028}' || c == '\U{2029}' || c == '\U{202F}' || c == '\U{205F}' || c == '\U{3000}' || c == '\U{FEFF}'
  }

  function TrimStart(s: string): string {
    if s != [] && IsSpace(s[0]) then TrimStart(s[1..]) else s
  }

  function TrimEnd(s: string): string {
    if s != [] && IsSpace(s[|s| - 1]) then TrimEnd(s[..|s| - 1]) else s
  }

  function Trim(s: string): string {
    TrimEnd(TrimStart(s))
  }

  function FormatFixed(value: int, decimals: int): string {
    var p := PartsOf(value, FIXED_POINT_DECIMALS);
    PartsStandFor(value, FIXED_POINT_DECIMALS);
    var trimmed := if decimals >= FIXED_POINT_DECIMALS then p.fraction else if decimals > 0 then p.fraction[..decimals] else "";
    Join(p.(fraction := trimmed), decimals > 0)
  }

  /** The whole part and the first seven fraction digits. */
  function FixedMagnitude(p: Parts): nat {
    Read(p.whole, 10) * Pow(10, FIXED_POINT_DECIMALS)
    + Read(PadEnd(p.fraction, FIXED_POINT_DECIMALS)[..FIXED_POINT_DECIMALS], 10)
  }

  function ParseFixed(value: string): Result<int, Error> {
    match Split(Trim(value))
    case None => Failure(InvalidDecimal)
    case Some(p) => Success(Signed(p.negative, FixedMagnitude(p)))
  }

  lemma NothingToTrim(s: string)
    requires s != [] && !IsSpace(s[0]) && !IsSpace(s[|s| - 1])
    ensures Trim(s) == s
  {
  }

  lemma JoinHasNoSpace(p: Parts, dotted: bool)
    requires IsWritten(p, dotted)
    ensures Trim(Join(p, dotted)) == Join(p, dotted)
  {
    var s := Join(p, dotted);
    assert s[0] == if p.negative then '-' else p.whole[0];
    assert s[|s| - 1] == if dotted then p.fraction[|p.fraction| - 1] else p.whole[|p.whole| - 1];
    NothingToTrim(s);
  }

  /** `7 - decimals`, within 0 to 7: how many digits printing drops. */
  function Dropped(decimals: int): nat {
    if decimals >= FIXED_POINT_DECIMALS then 0
    else if decimals > 0 then FIXED_POINT_DECIMALS - decimals
    else FIXED_POINT_DECIMALS
  }

  /** The printed digits, padded again. */
  lemma KeptDigits(fraction: string, decimals: int)
    requires AllDigits(fraction, 10) && |fraction| == FIXED_POINT_DECIMALS
    ensures var d := Dropped(decimals); var kept := fraction[..FIXED_POINT_DECIMALS - d];
      && PadEnd(kept, FIXED_POINT_DECIMALS)[..FIXED_POINT_DECIMALS] == PadEnd(kept, FIXED_POINT_DECIMALS)
      && Read(PadEnd(kept, FIXED_POINT_DECIMALS), 10) == Read(kept, 10) * Pow(10, d)
      && Read(fraction, 10) == Read(kept, 10) * Pow(10, d) + Read(fraction[FIXED_POINT_DECIMALS - d..], 10)
      && Read(fraction[FIXED_POINT_DECIMALS - d..], 10) < Pow(10, d)
  {
    var d := Dropped(decimals);
    var kept, rest := fraction[..FIXED_POINT_DECIMALS - d], fraction[FIXED_POINT_DECIMALS - d..];
    ReadPadEnd(kept, FIXED_POINT_DECIMALS, 10);
    assert fraction == kept + rest;
    ReadConcat(kept, rest, 10);
    ReadBound(rest, 10);
  }

  lemma PrintedParts(value: int, decimals: int)
    ensures Split(Trim(FormatFixed(value, decimals))) == Some(Printed(value, decimals))
  {
    PartsStandFor(value, FIXED_POINT_DECIMALS);
    var kept := Printed(value, decimals);
    assert FormatFixed(value, decimals) == Join(kept, decimals > 0);
    JoinHasNoSpace(kept, decimals > 0);
    SplitJoin(kept, decimals > 0);
  }

  /** What is left of a value after printing. */
  function Printed(value: int, decimals: int): Parts {
    PartsStandFor(value, FIXED_POINT_DECIMALS);
    var p := PartsOf(value, FIXED_POINT_DECIMALS);
    p.(fraction := p.fraction[..FIXED_POINT_DECIMALS - Dropped(decimals)])
  }

  lemma ParseReads(value: int, decimals: int)
    ensures ParseFixed(FormatFixed(value, decimals)) == Success(Signed(value < 0, FixedMagnitude(Printed(value, decimals))))
  {
    PrintedParts(value, decimals);
  }

  lemma PrintingTruncates(value: int, decimals: int) returns (r: nat)
    ensures AbsOf(value) == FixedMagnitude(Printed(value, decimals)) + r && r < Pow(10, Dropped(decimals))
  {
    var p, d := PartsOf(value, FIXED_POINT_DECIMALS), Dropped(decimals);
    PartsStandFor(value, FIXED_POINT_DECIMALS);
    KeptDigits(p.fraction, decimals);
    assert PadEnd(p.fraction, FIXED_POINT_DECIMALS) == p.fraction;
    r := Read(p.fraction[FIXED_POINT_DECIMALS - d..], 10);
  }

  /** Printing drops digits toward zero: parsing gives back the sign and the magnitude
      less a remainder smaller than one unit of the last digit printed. */
  lemma ParseFixedTruncates(value: int, decimals: int) returns (x: int, r: nat)
    ensures ParseFixed(FormatFixed(value, decimals)) == Success(x)
    ensures AbsOf(value) == AbsOf(x) + r && r < Pow(10, Dropped(decimals))
    ensures value >= 0 ==> x >= 0
    ensures value <= 0 ==> x <= 0
  {
    ParseReads(value, decimals);
    r := PrintingTruncates(value, decimals);
    x := Signed(value < 0, FixedMagnitude(Printed(value, decimals)));
  }

  lemma NoRemainder(value: int, decimals: int)
    requires decimals >= FIXED_POINT_DECIMALS
    ensures ParseFixed(FormatFixed(value, decimals)) == Success(value)
  {
    var x, r := ParseFixedTruncates(value, decimals);
    assert Dropped(decimals) == 0;
    SameNumber(value, x, r);
  }

  lemma SameNumber(value: int, x: int, r: nat)
    requires AbsOf(value) == AbsOf(x) + r && r < Pow(10, 0) && (value >= 0 ==> x >= 0) && (value <= 0 ==> x <= 0)
    ensures x == value
  {
  }

  /** Every fixed-point value survives printing with all its digits and parsing. */
  lemma ParseFormatFixed(value: int)
    ensures ParseFixed(FormatFixed(value, FIXED_POINT_DECIMALS)) == Success(value)
  {
    NoRemainder(value, FIXED_POINT_DECIMALS);
  }

  ghost predicate AllSpaces(s: string) {
    forall i :: 0 <= i < |s| ==> IsSpace(s[i])
  }

  lemma {:induction false} TrimStartIs(a: string, s: string)
    requires AllSpaces(a) && s != [] && !IsSpace(s[0])
    ensures TrimStart(a + s) == s
  {
    if a == [] {
      assert a + s == s;
    } else {
      assert (a + s)[1..] == a[1..] + s;
      TrimStartIs(a[1..], s);
    }
  }

  lemma {:induction false} TrimEndIs(s: string, b: string)
    requires AllSpaces(b) && s != [] && !IsSpace(s[|s| - 1])
    ensures TrimEnd(s + b) == s
  {
    if b == [] {
      assert s + b == s;
    } else {
      assert (s + b)[..|s + b| - 1] == s + b[..|b| - 1];
      TrimEndIs(s, b[..|b| - 1]);
    }
  }

  lemma {:induction false} TrimStartCuts(s: string) returns (a: string)
    ensures AllSpaces(a) && s == a + TrimStart(s)
  {
    if s != [] && IsSpace(s[0]) {
      var rest := TrimStartCuts(s[1..]);
      a := [s[0]] + rest;
    } else {
      a := "";
    }
  }

  lemma {:induction false} TrimEndCuts(s: string) returns (b: string)
    ensures AllSpaces(b) && s == TrimEnd(s) + b
  {
    if s != [] && IsSpace(s[|s| - 1]) {
      var rest := TrimEndCuts(s[..|s| - 1]);
      b := rest + [s[|s| - 1]];
      assert s == s[..|s| - 1] + [s[|s| - 1]];
    } else {
      b := "";
    }
  }

  lemma JoinEnds(p: Parts, dotted: bool)
    requires IsWritten(p, dotted)
    ensures var s := Join(p, dotted); s != [] && !IsSpace(s[0]) && !IsSpace(s[|s| - 1])
  {
    var s := Join(p, dotted);
    assert s[0] == if p.negative then '-' else p.whole[0];
    assert s[|s| - 1] == if dotted then p.fraction[|p.fraction| - 1] else p.whole[|p.whole| - 1];
  }

  lemma SpacesDoNotMatter(a: string, p: Parts, dotted: bool, b: string)
    requires AllSpaces(a) && AllSpaces(b) && IsWritten(p, dotted)
    ensures ParseFixed(a + Join(p, dotted) + b) == Success(Signed(p.negative, FixedMagnitude(p)))
  {
    var s := Join(p, dotted);
    JoinEnds(p, dotted);
    assert a + s + b == a + (s + b) && (s + b)[0] == s[0];
    TrimStartIs(a, s + b);
    TrimEndIs(s, b);
    SplitJoin(p, dotted);
  }

  /** The first seven of the digits, with zeros after them if they are fewer. */
  function FirstSeven(digits: string): string {
    if |digits| >= 7 then digits[..7] else digits + Zeros(7 - |digits|)
  }

  lemma FixedMagnitudeIs(p: Parts)
    ensures FixedMagnitude(p) == Read(p.whole, 10) * 10000000 + Read(FirstSeven(p.fraction), 10)
  {
    SevenDigits();
    assert PadEnd(p.fraction, 7)[..7] == FirstSeven(p.fraction);
  }

  /** A plain decimal, with spaces around it or not, parses to its sign, its whole part and
      its first seven fraction digits. */
  lemma ParseFixedReads(a: string, p: Parts, dotted: bool, b: string)
    requires AllSpaces(a) && AllSpaces(b) && IsWritten(p, dotted)
    ensures var x := ParseFixed(a + Join(p, dotted) + b);
      && x.Success? && (p.negative ==> x.value <= 0) && (!p.negative ==> x.value >= 0)
      && AbsOf(x.value) == Read(p.whole, 10) * 10000000 + Read(FirstSeven(p.fraction), 10)
  {
    SpacesDoNotMatter(a, p, dotted, b);
    FixedMagnitudeIs(p);
  }

  lemma SevenDigits()
    ensures Pow(10, 7) == 10000000
  {
    assert Pow(10, 3) == 1000 && Pow(10, 5) == 100000;
  }

  /** Nothing else parses. */
  lemma ParseFixedAccepts(value: string) returns (a: string, core: string, b: string)
    ensures AllSpaces(a) && AllSpaces(b) && value == a + core + b
    ensures ParseFixed(value).Success? <==> exists p: Parts, dotted: bool :: IsWritten(p, dotted) && core == Join(p, dotted)
  {
    a := TrimStartCuts(value);
    b := TrimEndCuts(TrimStart(value));
    core := Trim(value);
    if Split(core).Some? {
      SplitIsPlain(core, |Split(core).value.fraction|);
    }
    if p: Parts, dotted: bool :| IsWritten(p, dotted) && core == Join(p, dotted) {
      SplitJoin(p, dotted);
    }
  }

  // ---------------------------------------------------------------------------
  // Rounding up
  // ---------------------------------------------------------------------------

  function DivRoundUp(numerator: int, denominator: int): Result<int, Error> {
    if denominator <= 0 then Failure(NotPositive)
    else if numerator < 0 then Failure(Negative)
    else Success((numerator + denominator - 1) / denominator)
  }

  function MulDivRoundUp(amount: int, numerator: int, denominator: int): Result<int, Error> {
    DivRoundUp(amount * numerator, denominator)
  }

  /** The quotient is the least integer that covers the numerator: it never undercharges,
      and never by more than needed. */
  lemma RoundsUp(numerator: int, denominator: int, q: int)
    requires denominator > 0 && numerator >= 0
    ensures DivRoundUp(numerator, denominator).Success?
    ensures q >= DivRoundUp(numerator, denominator).value <==> q * denominator >= numerator
  {
    CeilingIsLeast(numerator, denominator, q);
  }

  /** Multiplying first and dividing once rounds the exact product up. */
  lemma MulDivRoundsUp(amount: int, numerator: int, denominator: int, q: int)
    requires denominator > 0 && amount * numerator >= 0
    ensures MulDivRoundUp(amount, numerator, denominator).Success?
    ensures q >= MulDivRoundUp(amount, numerator, denominator).value <==> q * denominator >= amount * numerator
  {
    RoundsUp(amount * numerator, denominator, q);
  }

  /** Division is refused exactly for a denominator that is not positive, and otherwise for a
      negative numerator. */
  lemma DivisionRefusedIff(numerator: int, denominator: int)
    ensures DivRoundUp(numerator, denominator) == Failure(NotPositive) <==> denominator <= 0
    ensures DivRoundUp(numerator, denominator) == Failure(Negative) <==> denominator > 0 && numerator < 0
    ensures DivRoundUp(numerator, denominator).Success? <==> denominator > 0 && numerator >= 0
  {
  }
}
