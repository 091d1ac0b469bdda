/**
 Reading provenance packed into a u128.

 The fields occupy disjoint bit ranges, so or-ing the shifted fields is adding them;
 shifting right and masking is dividing and taking the remainder.
 */
module Provenance {
  import opened Wrappers
  import opened Arithmetic
  import opened Digits

  datatype ReadingProvenance = ReadingProvenance(trustTier: int, agreeingSources: int, decisionId: string, sourceTimestamp: int)

  datatype Error =
    | UnknownTier | UnverifiedTier | SourcesOutOfRange | InconsistentSources | BadDecisionId | TimestampOutOfRange
    | NotU128 | UnsupportedVersion | ReservedBits

  const UNVERIFIED := 0
  const SINGLE_SOURCE := 1
  const CORROBORATED := 2
  const UNANIMOUS := 3

  const PROVENANCE_VERSION := 1

  const TWO_4: nat := 0x10
  const TWO_8: nat := 0x100
  const TWO_40: nat := 0x100_0000_0000
  const TWO_104: nat := 0x100_0000_0000_0000_0000_0000_0000
  const TWO_112: nat := 0x1_0000_0000_0000_0000_0000_0000_0000
  const TWO_120: nat := 0x100_0000_0000_0000_0000_0000_0000_0000
  const TWO_124: nat := 0x1000_0000_0000_0000_0000_0000_0000_0000

  function MinSources(tier: int): int {
    if tier == SINGLE_SOURCE then 1 else if tier == CORROBORATED then 2 else 3
  }

  predicate IsDecisionId(s: string) {
    |s| == 16 && AllDigits(s, 16)
  }

  /** The first complaint about a provenance, if there is one. */
  function Complaint(p: ReadingProvenance): Option<Error> {
    if !(UNVERIFIED <= p.trustTier <= UNANIMOUS) then Some(UnknownTier)
    else if p.trustTier == UNVERIFIED then Some(UnverifiedTier)
    else if !(0 <= p.agreeingSources <= 255) then Some(SourcesOutOfRange)
    else if (if p.trustTier == SINGLE_SOURCE then p.agreeingSources != 1 else p.agreeingSources < MinSources(p.trustTier))
    then Some(InconsistentSources)
    else if !IsDecisionId(p.decisionId) then Some(BadDecisionId)
    else if !(0 <= p.sourceTimestamp < TWO_40) then Some(TimestampOutOfRange)
    else None
  }

  function Packed(version: int, tier: int, sources: int, reserved: int, timestamp: int, id: int): int {
    version * TWO_124 + tier * TWO_120 + sources * TWO_112 + reserved * TWO_104 + timestamp * TWO_64 + id
  }

  function PackProvenance(p: ReadingProvenance): Result<int, Error> {
    match Complaint(p)
    case Some(error) => Failure(error)
    case None =>
      Success(Packed(PROVENANCE_VERSION, p.trustTier, p.agreeingSources, 0, p.sourceTimestamp, Read(p.decisionId, 16)))
  }

  function UnpackProvenance(packed: int): Result<ReadingProvenance, Error> {
    if !(0 <= packed < TWO_128) then Failure(NotU128)
    else if packed / TWO_124 % TWO_4 != PROVENANCE_VERSION then Failure(UnsupportedVersion)
    else if packed / TWO_104 % TWO_8 != 0 then Failure(ReservedBits)
    else
      var p := ReadingProvenance(packed / TWO_120 % TWO_4, packed / TWO_112 % TWO_8,
                                 PadStart(Show(packed % TWO_64, 16), 16), packed / TWO_64 % TWO_40);
      match Complaint(p)
      case Some(error) => Failure(error)
      case None => Success(p)
  }

  predicate InRange(version: int, tier: int, sources: int, reserved: int, timestamp: int, id: int) {
    && 0 <= version < TWO_4 && 0 <= tier < TWO_4 && 0 <= sources < TWO_8 && 0 <= reserved < TWO_8
    && 0 <= timestamp < TWO_40 && 0 <= id < TWO_64
  }

  lemma LowFields(n: nat, hi: nat, timestamp: nat, id: nat)
    requires n == hi * TWO_104 + timestamp * TWO_64 + id && timestamp < TWO_40 && id < TWO_64
    ensures n % TWO_64 == id && n / TWO_64 % TWO_40 == timestamp && n / TWO_104 == hi
  {
    assert n / TWO_64 == hi * TWO_40 + timestamp;
  }

  lemma HighFields(hi: nat, version: nat, tier: nat, sources: nat, reserved: nat)
    requires hi == version * 0x10_0000 + tier * 0x1_0000 + sources * 0x100 + reserved
    requires version < TWO_4 && tier < TWO_4 && sources < TWO_8 && reserved < TWO_8
    ensures hi % TWO_8 == reserved && hi / 0x100 % TWO_8 == sources && hi / 0x1_0000 % TWO_4 == tier
    ensures hi / 0x10_0000 == version
  {
    assert hi / 0x100 == version * 0x1000 + tier * 0x100 + sources;
    assert hi / 0x1_0000 == version * 0x10 + tier;
  }

  lemma HighShifts(n: nat)
    ensures n / TWO_112 == n / TWO_104 / 0x100
    ensures n / TWO_120 == n / TWO_104 / 0x1_0000
    ensures n / TWO_124 == n / TWO_104 / 0x10_0000
  {
  }

  /** Every field can be read back from the packed number. */
  lemma FieldsOfPacked(version: int, tier: int, sources: int, reserved: int, timestamp: int, id: int)
    requires InRange(version, tier, sources, reserved, timestamp, id)
    ensures var n := Packed(version, tier, sources, reserved, timestamp, id);
      && 0 <= n < TWO_128 && n / TWO_124 % TWO_4 == version && n / TWO_120 % TWO_4 == tier
      && n / TWO_112 % TWO_8 == sources && n / TWO_104 % TWO_8 == reserved
      && n / TWO_64 % TWO_40 == timestamp && n % TWO_64 == id
  {
    var n := Packed(version, tier, sources, reserved, timestamp, id);
    var hi := version * 0x10_0000 + tier * 0x1_0000 + sources * 0x100 + reserved;
    assert n == hi * TWO_104 + timestamp * TWO_64 + id;
    LowFields(n, hi, timestamp, id);
    HighFields(hi, version, tier, sources, reserved);
    HighShifts(n);
  }

  /** A packed number is made of its fields. */
  lemma PackedOfFields(n: int)
    requires 0 <= n < TWO_128
    ensures n == Packed(n / TWO_124 % TWO_4, n / TWO_120 % TWO_4, n / TWO_112 % TWO_8, n / TWO_104 % TWO_8,
                        n / TWO_64 % TWO_40, n % TWO_64)
  {
    var hi := n / TWO_104;
    HighShifts(n);
    assert n / TWO_64 / TWO_40 == hi;
    assert n == (hi * TWO_40 + n / TWO_64 % TWO_40) * TWO_64 + n % TWO_64;
    assert hi == hi / 0x100 * 0x100 + hi % TWO_8;
    assert hi / 0x100 == hi / 0x1_0000 * 0x100 + hi / 0x100 % TWO_8;
    assert hi / 0x1_0000 == hi / 0x10_0000 * 0x10 + hi / 0x1_0000 % TWO_4;
    assert hi / 0x10_0000 % TWO_4 == hi / 0x10_0000;
  }

  lemma SixteenDigits()
    ensures Pow(16, 16) == TWO_64
  {
    assert Pow(16, 3) == 0x1000;
    assert Pow(16, 6) == 0x100_0000;
    assert Pow(16, 9) == 0x10_0000_0000;
    assert Pow(16, 12) == 0x1_0000_0000_0000;
    assert Pow(16, 15) == 0x1000_0000_0000_0000;
  }

  lemma DecisionIdIsU64(s: string)
    requires IsDecisionId(s)
    ensures Read(s, 16) < TWO_64
  {
    ReadBound(s, 16);
    SixteenDigits();
  }

  /** Unpacking inverts packing, for every provenance that may be published. */
  lemma UnpackPack(p: ReadingProvenance)
    requires Complaint(p).None?
    ensures PackProvenance(p).Success? && UnpackProvenance(PackProvenance(p).value) == Success(p)
  {
    var id := Read(p.decisionId, 16);
    DecisionIdIsU64(p.decisionId);
    FieldsOfPacked(PROVENANCE_VERSION, p.trustTier, p.agreeingSources, 0, p.sourceTimestamp, id);
    ShowRead(p.decisionId, 16);
  }

  lemma IdOfU64(n: nat)
    requires n < TWO_64
    ensures var s := PadStart(Show(n, 16), 16); IsDecisionId(s) && Read(s, 16) == n
  {
    SixteenDigits();
    ReadShow(n, 16);
    ShowLength(n, 16, 16);
    ReadPadStart(Show(n, 16), 16, 16);
  }

  /** Packing inverts unpacking, for every number that unpacks. */
  lemma PackUnpack(packed: int)
    requires UnpackProvenance(packed).Success?
    ensures PackProvenance(UnpackProvenance(packed).value) == Success(packed)
  {
    PackedOfFields(packed);
    IdOfU64(packed % TWO_64);
  }

  /** A number unpacks exactly if it is the packing of some provenance; zero, which stands
      for none, does not. */
  lemma UnpacksIffPacked(n: int)
    ensures UnpackProvenance(n).Success? <==> exists p: ReadingProvenance :: PackProvenance(p) == Success(n)
    ensures UnpackProvenance(n).Success? ==> 0 < n < TWO_128 && UnpackProvenance(n).value.trustTier != UNVERIFIED
  {
    if UnpackProvenance(n).Success? {
      PackUnpack(n);
    }
    if p: ReadingProvenance :| PackProvenance(p) == Success(n) {
      UnpackPack(p);
    }
  }

  /** Different provenance packs to different numbers. */
  lemma PackIsInjective(p: ReadingProvenance, q: ReadingProvenance)
    requires PackProvenance(p).Success? && PackProvenance(p) == PackProvenance(q)
    ensures p == q
  {
    UnpackPack(p);
    UnpackPack(q);
  }

  predicate IsHex(c: char) {
    '0' <= c <= '9' || 'a' <= c <= 'f'
  }

  /** Provenance packs exactly if it names a tier above unverified with as many sources as the
      tier stands for, up to 255, a decision id of 16 hexadecimal digits and a timestamp of
      40 bits. */
  lemma PacksIff(p: ReadingProvenance)
    ensures PackProvenance(p).Success? <==>
            && (|| (p.trustTier == 1 && p.agreeingSources == 1)
                || (p.trustTier == 2 && 2 <= p.agreeingSources <= 255)
                || (p.trustTier == 3 && 3 <= p.agreeingSources <= 255))
            && |p.decisionId| == 16 && (forall i :: 0 <= i < 16 ==> IsHex(p.decisionId[i]))
            && 0 <= p.sourceTimestamp < 1099511627776
  {
    assert forall i :: 0 <= i < |p.decisionId| ==> (DigitValue(p.decisionId[i]) < 16 <==> IsHex(p.decisionId[i]));
  }
}
