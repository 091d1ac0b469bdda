/**
 The canonical bytes every quorum submitter signs: length-prefixed fields.

 Identifiers enter as their UTF-8 bytes.
 */
module PublishPayload {
  import opened Wrappers
  import opened Arithmetic

  type Byte = x: int | 0 <= x < 256
  type Bytes = seq<Byte>

  datatype Error = UnknownCoverage | CompositeCoverage | FieldTooLong

  const TWO_32: nat := 0x1_0000_0000
  const TWO_127: int := 0x8000_0000_0000_0000_0000_0000_0000_0000

  /** The UTF-8 bytes of "refract-oracle-v1". */
  const PREFIX: Bytes := [114, 101, 102, 114, 97, 99, 116, 45, 111, 114, 97, 99, 108, 101, 45, 118, 49]

  // ---------------------------------------------------------------------------
  // Big-endian numbers
  // ---------------------------------------------------------------------------

  function BytesBE(n: nat, k: nat): Bytes
    decreases k
  {
    if k == 0 then [] else BytesBE(n / 256, k - 1) + [n % 256]
  }

  function NumberBE(b: Bytes): nat {
    if b == [] then 0 else NumberBE(b[..|b| - 1]) * 256 + b[|b| - 1]
  }

  lemma {:induction false} NumberOfBytes(n: nat, k: nat)
    requires n < Pow(256, k)
    ensures NumberBE(BytesBE(n, k)) == n
    decreases k
  {
    if k > 0 {
      NumberOfBytes(n / 256, k - 1);
      var front := BytesBE(n / 256, k - 1);
      assert (front + [n % 256])[..|front|] == front;
    }
  }

  lemma {:induction false} BytesLength(n: nat, k: nat)
    ensures |BytesBE(n, k)| == k
    decreases k
  {
    if k > 0 {
      BytesLength(n / 256, k - 1);
    }
  }

  lemma Powers()
    ensures Pow(256, 4) == TWO_32 && Pow(256, 8) == TWO_64
  {
    assert Pow(256, 2) == 0x1_0000;
    assert Pow(256, 6) == 0x1_0000_0000_0000;
  }

  // ---------------------------------------------------------------------------
  // Fields
  // ---------------------------------------------------------------------------

  /** A 128-bit two's complement number. */
  function ValueBytes(v: int): Bytes {
    BytesBE(v / TWO_64 % TWO_64, 8) + BytesBE(v % TWO_64, 8)
  }

  function ReadValue(b: Bytes): int
    requires |b| == 16
  {
    var n := NumberBE(b[..8]) * TWO_64 + NumberBE(b[8..]);
    if n < TWO_127 then n else n - TWO_128
  }

  predicate IsI128(v: int) {
    -TWO_127 <= v < TWO_127
  }

  /** The i128 that `v` wraps around to. */
  function Wrapped(v: int): int {
    var n := v % TWO_128;
    if n < TWO_127 then n else n - TWO_128
  }

  lemma SplitWord(v: int)
    ensures v % TWO_128 == v / TWO_64 % TWO_64 * TWO_64 + v % TWO_64
  {
    var hi, lo := v / TWO_64, v % TWO_64;
    assert v == hi * TWO_64 + lo;
    assert hi == hi / TWO_64 * TWO_64 + hi % TWO_64;
    DivUnique(v, TWO_128, hi / TWO_64, hi % TWO_64 * TWO_64 + lo);
  }

  lemma ReadValueBytes(v: int)
    ensures |ValueBytes(v)| == 16 && ReadValue(ValueBytes(v)) == Wrapped(v)
  {
    var hi, lo := v / TWO_64 % TWO_64, v % TWO_64;
    Powers();
    BytesLength(hi, 8);
    BytesLength(lo, 8);
    NumberOfBytes(hi, 8);
    NumberOfBytes(lo, 8);
    assert ValueBytes(v)[..8] == BytesBE(hi, 8) && ValueBytes(v)[8..] == BytesBE(lo, 8);
    SplitWord(v);
  }

  lemma InRangeWraps(v: int)
    ensures Wrapped(v) == v <==> IsI128(v)
  {
  }

  /** A field with its length in front. */
  function Part(b: Bytes): Bytes
    requires |b| < TWO_32
  {
    BytesBE(|b|, 4) + b
  }

  /** Takes one field off the front. */
  function ReadPart(b: Bytes): Option<(Bytes, Bytes)> {
    if |b| < 4 then None
    else
      var n := NumberBE(b[..4]);
      if |b| < 4 + n then None else Some((b[4..4 + n], b[4 + n..]))
  }

  lemma ReadPartOf(b: Bytes, rest: Bytes)
    requires |b| < TWO_32
    ensures ReadPart(Part(b) + rest) == Some((b, rest))
  {
    Powers();
    BytesLength(|b|, 4);
    NumberOfBytes(|b|, 4);
    var all := Part(b) + rest;
    assert all[..4] == BytesBE(|b|, 4) && all[4..4 + |b|] == b && all[4 + |b|..] == rest;
  }

  // ---------------------------------------------------------------------------
  // The payload
  // ---------------------------------------------------------------------------

  predicate FitsLength(b: Bytes) {
    |b| < TWO_32
  }

  function Payload(contractId: Bytes, code: nat, value: int, decisionId: Bytes): Bytes
    requires FitsLength(contractId) && FitsLength(decisionId)
  {
    BytesLength(code, 4);
    ReadValueBytes(value);
    Part(PREFIX) + (Part(contractId) + (Part(BytesBE(code, 4)) + (Part(ValueBytes(value)) + Part(decisionId))))
  }

  datatype Fields = Fields(contractId: Bytes, code: nat, value: int, decisionId: Bytes)

  /** Reads the fields back. */
  function ReadPayload(b: Bytes): Option<Fields> {
    var prefix := ReadPart(b);
    if prefix.None? || prefix.value.0 != PREFIX then None
    else
      var contract := ReadPart(prefix.value.1);
      if contract.None? then None
      else
        var code := ReadPart(contract.value.1);
        if code.None? then None
        else
          var value := ReadPart(code.value.1);
          if value.None? || |value.value.0| != 16 then None
          else
            var decision := ReadPart(value.value.1);
            if decision.None? || decision.value.1 != [] then None
            else Some(Fields(contract.value.0, NumberBE(code.value.0), ReadValue(value.value.0), decision.value.0))
  }

  /** The payload can be read back: the ids and the code exactly, the value as an i128. */
  lemma ReadPayloadOf(contractId: Bytes, code: nat, value: int, decisionId: Bytes)
    requires FitsLength(contractId) && FitsLength(decisionId) && code < TWO_32
    ensures ReadPayload(Payload(contractId, code, value, decisionId)) ==
            Some(Fields(contractId, code, Wrapped(value), decisionId))
  {
    BytesLength(code, 4);
    ReadValueBytes(value);
    Powers();
    NumberOfBytes(code, 4);
    var d := Part(decisionId);
    var v := Part(ValueBytes(value)) + d;
    var c := Part(BytesBE(code, 4)) + v;
    var k := Part(contractId) + c;
    ReadPartOf(PREFIX, k);
    ReadPartOf(contractId, c);
    ReadPartOf(BytesBE(code, 4), v);
    ReadPartOf(ValueBytes(value), d);
    ReadPartOf(decisionId, []);
    assert d + [] == d;
  }

  /** Two payloads are the same bytes exactly when their ids and codes are the same and
      their values agree as 128-bit numbers. */
  lemma SamePayloadIff(a: Fields, b: Fields)
    requires FitsLength(a.contractId) && FitsLength(a.decisionId) && a.code < TWO_32
    requires FitsLength(b.contractId) && FitsLength(b.decisionId) && b.code < TWO_32
    ensures Payload(a.contractId, a.code, a.value, a.decisionId) == Payload(b.contractId, b.code, b.value, b.decisionId)
            <==> a.contractId == b.contractId && a.code == b.code && a.decisionId == b.decisionId
                 && a.value % TWO_128 == b.value % TWO_128
  {
    ReadPayloadOf(a.contractId, a.code, a.value, a.decisionId);
    ReadPayloadOf(b.contractId, b.code, b.value, b.decisionId);
    if a.value % TWO_128 == b.value % TWO_128 {
      SameBytes(a.value, b.value);
    }
  }

  lemma SameBytes(v: int, w: int)
    requires v % TWO_128 == w % TWO_128
    ensures ValueBytes(v) == ValueBytes(w)
  {
    SplitWord(v);
    SplitWord(w);
    DivUnique(v % TWO_128, TWO_64, v / TWO_64 % TWO_64, v % TWO_64);
    DivUnique(w % TWO_128, TWO_64, w / TWO_64 % TWO_64, w % TWO_64);
  }

  /** On values in the i128 range the payload determines all four fields. */
  lemma PayloadIsInjective(a: Fields, b: Fields)
    requires FitsLength(a.contractId) && FitsLength(a.decisionId) && a.code < TWO_32 && IsI128(a.value)
    requires FitsLength(b.contractId) && FitsLength(b.decisionId) && b.code < TWO_32 && IsI128(b.value)
    requires Payload(a.contractId, a.code, a.value, a.decisionId) == Payload(b.contractId, b.code, b.value, b.decisionId)
    ensures a == b
  {
    SamePayloadIff(a, b);
    InRangeUnique(a.value, b.value);
  }

  lemma InRangeUnique(v: int, w: int)
    requires IsI128(v) && IsI128(w) && v % TWO_128 == w % TWO_128
    ensures v == w
  {
    InRangeWraps(v);
    InRangeWraps(w);
  }

  // ---------------------------------------------------------------------------
  // Building it
  // ---------------------------------------------------------------------------

  function CoverageCode(coverageType: string): Option<nat> {
    match coverageType
    case "StablecoinDepeg" => Some(0)
    case "MarketCrash" => Some(1)
    case "LiquidationShield" => Some(2)
    case "SmartContractRisk" => Some(3)
    case "FlightDelay" => Some(4)
    case "Composite" => Some(5)
    case _ => None
  }

  /** Halves round up. */
  function Round(x: real): int {
    (x + 0.5).Floor
  }

  function ScaleOracleValue(coverageType: string, value: real): Result<int, Error> {
    match coverageType
    case "StablecoinDepeg" => Success(Round(value * 10000000.0))
    case "MarketCrash" => Success(Round(value * 100.0))
    case "SmartContractRisk" => Success(Round(value * 100.0))
    case "LiquidationShield" => Success(Round(value * 10000.0))
    case "FlightDelay" => Success(Round(value))
    case "Composite" => Failure(CompositeCoverage)
    case _ => Failure(UnknownCoverage)
  }

  lemma ScaledHasCode(coverageType: string, value: real)
    requires ScaleOracleValue(coverageType, value).Success?
    ensures CoverageCode(coverageType).Some? && CoverageCode(coverageType).value < 5
  {
  }

  /** The payload of a reading, or why there is none. */
  function Built(contractId: Bytes, coverageType: string, value: real, decisionId: Bytes): Result<Bytes, Error> {
    match ScaleOracleValue(coverageType, value)
    case Failure(error) => Failure(error)
    case Success(scaled) =>
      ScaledHasCode(coverageType, value);
      if FitsLength(contractId) && FitsLength(decisionId)
      then Success(Payload(contractId, CoverageCode(coverageType).value, scaled, decisionId))
      else Failure(FieldTooLong)
  }

  /** Two readings are signed as the same bytes exactly when their ids and coverage types
      are the same and their scaled values agree modulo 2^128. */
  lemma SameBuiltIff(c: Bytes, cov: string, x: real, d: Bytes, c': Bytes, cov': string, y: real, d': Bytes)
    requires Built(c, cov, x, d).Success? && Built(c', cov', y, d').Success?
    ensures Built(c, cov, x, d) == Built(c', cov', y, d') <==>
            && c == c' && cov == cov' && d == d'
            && ScaleOracleValue(cov, x).value % TWO_128 == ScaleOracleValue(cov', y).value % TWO_128
  {
    ScaledHasCode(cov, x);
    ScaledHasCode(cov', y);
    CodesDiffer(cov, cov');
    var a := Fields(c, CoverageCode(cov).value, ScaleOracleValue(cov, x).value, d);
    var b := Fields(c', CoverageCode(cov').value, ScaleOracleValue(cov', y).value, d');
    BuiltIs(a, cov, x);
    BuiltIs(b, cov', y);
    SamePayloadIff(a, b);
  }

  lemma CodesDiffer(cov: string, cov': string)
    requires CoverageCode(cov).Some?
    ensures CoverageCode(cov) == CoverageCode(cov') <==> cov == cov'
  {
  }

  lemma BuiltIs(a: Fields, cov: string, x: real)
    requires Built(a.contractId, cov, x, a.decisionId).Success?
    requires CoverageCode(cov) == Some(a.code) && ScaleOracleValue(cov, x) == Success(a.value)
    ensures Built(a.contractId, cov, x, a.decisionId) == Success(Payload(a.contractId, a.code, a.value, a.decisionId))
    ensures FitsLength(a.contractId) && FitsLength(a.decisionId)
  {
  }

  /** How many decimals a coverage type is published with, and its code. */
  predicate IsPublished(cov: string, unit: real, code: nat) {
    || (cov == "StablecoinDepeg" && unit == 10000000.0 && code == 0)
    || (cov == "MarketCrash" && unit == 100.0 && code == 1)
    || (cov == "LiquidationShield" && unit == 10000.0 && code == 2)
    || (cov == "SmartContractRisk" && unit == 100.0 && code == 3)
    || (cov == "FlightDelay" && unit == 1.0 && code == 4)
  }

  /** A value is scaled to the nearest integer, halves up, under the code of its type; types
      that are not published are refused. */
  lemma ScalesToNearest(cov: string, value: real, unit: real, code: nat)
    requires IsPublished(cov, unit, code)
    ensures var r := ScaleOracleValue(cov, value);
      && CoverageCode(cov) == Some(code) && r.Success?
      && value * unit - 0.5 < r.value as real <= value * unit + 0.5
  {
  }

  lemma OnlyPublishedScale(cov: string, value: real)
    ensures ScaleOracleValue(cov, value).Success? <==> exists unit: real, code: nat :: IsPublished(cov, unit, code)
    ensures ScaleOracleValue(cov, value) == Failure(CompositeCoverage) <==> cov == "Composite"
  {
    var unit, code := if cov == "StablecoinDepeg" then 10000000.0 else if cov == "LiquidationShield" then 10000.0
                      else if cov == "FlightDelay" then 1.0 else 100.0,
                      if CoverageCode(cov).Some? then CoverageCode(cov).value else 0;
    assert ScaleOracleValue(cov, value).Success? ==> IsPublished(cov, unit, code);
  }

  /** Delays of 0 and of 2^128 are signed as the same bytes. */
  lemma OutOfRangeCollides(contractId: Bytes, decisionId: Bytes)
    requires FitsLength(contractId) && FitsLength(decisionId)
    ensures Built(contractId, "FlightDelay", 0.0, decisionId).Success?
    ensures Built(contractId, "FlightDelay", 0.0, decisionId)
            == Built(contractId, "FlightDelay", TWO_128 as real, decisionId)
  {
    assert ScaleOracleValue("FlightDelay", 0.0) == Success(0);
    assert ScaleOracleValue("FlightDelay", TWO_128 as real) == Success(TWO_128);
    SameBytes(0, TWO_128);
  }

  /** Writes `n` big-endian into `size` bytes of the buffer. */
  method WriteUIntBE(buf: array<Byte>, offset: nat, size: nat, n: nat)
    requires offset + size <= buf.Length
    modifies buf
    ensures buf[..] == old(buf[..offset]) + BytesBE(n, size) + old(buf[offset + size..])
  {
    var i, left := size, n;
    BytesLength(n, size);
    while i > 0
      invariant 0 <= i <= size
      invariant buf[..offset] == old(buf[..offset]) && buf[offset + size..] == old(buf[offset + size..])
      invariant BytesBE(n, size) == BytesBE(left, i) + buf[offset + i..offset + size]
    {
      ghost var tail := buf[offset + i..offset + size];
      i := i - 1;
      buf[offset + i] := left % 256;
      assert buf[offset + i..offset + size] == [left % 256] + tail;
      left := left / 256;
    }
    assert buf[..] == buf[..offset] + buf[offset..offset + size] + buf[offset + size..];
  }

  method WritePart(input: Bytes) returns (part: Bytes)
    requires FitsLength(input)
    ensures part == Part(input)
  {
    var len := new Byte[4];
    WriteUIntBE(len, 0, 4, |input|);
    part := len[..] + input;
  }

  method WriteValue(v: int) returns (bytes: Bytes)
    ensures bytes == ValueBytes(v)
  {
    var buf := new Byte[16];
    var hi, lo := v / TWO_64 % TWO_64, v % TWO_64;
    WriteUIntBE(buf, 0, 8, hi);
    BytesLength(hi, 8);
    assert buf[..8] == BytesBE(hi, 8);
    WriteUIntBE(buf, 8, 8, lo);
    bytes := buf[..];
  }

  method WriteCode(code: nat) returns (bytes: Bytes)
    ensures bytes == BytesBE(code, 4)
  {
    var buf := new Byte[4];
    WriteUIntBE(buf, 0, 4, code);
    bytes := buf[..];
  }

  method BuildPublishPayload(contractId: Bytes, coverageType: string, value: real, decisionId: Bytes)
    returns (r: Result<Bytes, Error>)
    ensures r == Built(contractId, coverageType, value, decisionId)
  {
    var scaled := ScaleOracleValue(coverageType, value);
    if scaled.Failure? {
      return Failure(scaled.error);
    }
    ScaledHasCode(coverageType, value);
    var code := CoverageCode(coverageType).value;
    var valueBytes := WriteValue(scaled.value);
    var typeBytes := WriteCode(code);
    BytesLength(code, 4);
    ReadValueBytes(scaled.value);
    if |contractId| >= TWO_32 || |decisionId| >= TWO_32 {
      return Failure(FieldTooLong);
    }
    var prefix := WritePart(PREFIX);
    var contract := WritePart(contractId);
    var kind := WritePart(typeBytes);
    var number := WritePart(valueBytes);
    var decision := WritePart(decisionId);
    r := Success(prefix + (contract + (kind + (number + decision))));
  }
}
