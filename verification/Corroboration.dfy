/**
 Multi-source corroboration: which readings agree well enough to publish a value.

 A reading's value is finite or not; times and values are reals.
 */
module Corroboration {
  import opened Wrappers
  import opened Lists
  import opened Stats

  datatype Number = Finite(number: real) | NotFinite

  datatype SourceReading = SourceReading(sourceId: string, value: Number, observedAt: real)

  datatype Config = Config(minSources: nat, toleranceBps: real, maxReadingAgeMs: real)

  datatype Outcome =
    | Corroborated(value: real, participating: seq<SourceReading>)
    | InsufficientQuorum
    | Divergent

  // ---------------------------------------------------------------------------
  // Specification
  // ---------------------------------------------------------------------------

  predicate IsUsable(r: SourceReading, config: Config, now: real) {
    r.value.Finite? && r.value.number >= 0.0 && 0.0 <= now - r.observedAt <= config.maxReadingAgeMs
  }

  function Usable(config: Config, now: real): SourceReading -> bool {
    (r: SourceReading) => IsUsable(r, config, now)
  }

  function SourceOf(): SourceReading -> string {
    (r: SourceReading) => r.sourceId
  }

  function NumberOf(r: SourceReading): real {
    if r.value.Finite? then r.value.number else 0.0
  }

  /** The first reading of source `s`, if it has one. */
  function First(us: seq<SourceReading>, s: string): Option<SourceReading> {
    if us == [] then None
    else
      var before := First(us[..|us| - 1], s);
      if before.Some? then before
      else if us[|us| - 1].sourceId == s then Some(us[|us| - 1])
      else None
  }

  function ValueOf(us: seq<SourceReading>, s: string): real {
    var first := First(us, s);
    if first.Some? then NumberOf(first.value) else 0.0
  }

  /** No reading of source `s` contradicts another. */
  predicate Agrees(us: seq<SourceReading>, s: string) {
    forall i :: 0 <= i < |us| && us[i].sourceId == s ==> NumberOf(us[i]) == ValueOf(us, s)
  }

  function Agreeing(us: seq<SourceReading>): string -> bool {
    (s: string) => Agrees(us, s)
  }

  /** The sources whose usable readings agree, in order of first appearance. */
  function Sources(us: seq<SourceReading>): seq<string> {
    Filter(Agreeing(us), Dedup(Map(SourceOf(), us)))
  }

  function Values(us: seq<SourceReading>): string -> real {
    (s: string) => ValueOf(us, s)
  }

  function Unit(reference: real): real {
    if Abs(reference) > 1.0 then Abs(reference) else 1.0
  }

  /** Relative deviation in basis points, with the reference floored at one unit. */
  function DeviationBps(value: real, reference: real): real {
    Abs(value - reference) / Unit(reference) * 10000.0
  }

  function Provisional(us: seq<SourceReading>): real
    requires Sources(us) != []
  {
    Median(Map(Values(us), Sources(us)))
  }

  function InBand(us: seq<SourceReading>, reference: real, toleranceBps: real): string -> bool {
    (s: string) => DeviationBps(ValueOf(us, s), reference) <= toleranceBps
  }

  /** The sources within tolerance of the provisional median. */
  function Accepted(us: seq<SourceReading>, config: Config): seq<string> {
    if Sources(us) == [] then [] else Filter(InBand(us, Provisional(us), config.toleranceBps), Sources(us))
  }

  function Reading(us: seq<SourceReading>): string -> SourceReading {
    (s: string) => var first := First(us, s); if first.Some? then first.value else SourceReading(s, NotFinite, 0.0)
  }

  function Decide(us: seq<SourceReading>, config: Config): Outcome
    requires config.minSources >= 1
  {
    if |Sources(us)| < config.minSources then InsufficientQuorum
    else
      var accepted := Accepted(us, config);
      if |accepted| < config.minSources then Divergent
      else Outcome.Corroborated(Median(Map(Values(us), accepted)), Map(Reading(us), accepted))
  }

  function Corroboration(readings: seq<SourceReading>, config: Config, now: real): Outcome
    requires config.minSources >= 1
  {
    Decide(Filter(Usable(config, now), readings), config)
  }

  // ---------------------------------------------------------------------------
  // Readings of a source
  // ---------------------------------------------------------------------------

  lemma {:induction false} FirstIs(us: seq<SourceReading>, s: string)
    ensures First(us, s).Some? ==> First(us, s).value in us && First(us, s).value.sourceId == s
    ensures First(us, s).None? ==> forall i :: 0 <= i < |us| ==> us[i].sourceId != s
  {
    if us != [] {
      FirstIs(us[..|us| - 1], s);
      assert us == us[..|us| - 1] + [us[|us| - 1]];
    }
  }

  lemma SourceHasReading(us: seq<SourceReading>, s: string)
    requires s in Sources(us)
    ensures First(us, s).Some? && Agrees(us, s)
  {
    var ids := Map(SourceOf(), us);
    FilterMembers(Agreeing(us), Dedup(ids));
    DedupIs(ids);
    var i :| 0 <= i < |ids| && ids[i] == s;
    FirstIs(us, s);
    assert us[i].sourceId == s;
  }

  /** An agreeing source has the value of each of its readings. */
  lemma AgreedValue(us: seq<SourceReading>, s: string, r: SourceReading)
    requires Agrees(us, s) && r in us && r.sourceId == s
    ensures ValueOf(us, s) == NumberOf(r)
  {
    var i :| 0 <= i < |us| && us[i] == r;
  }

  lemma SameReadingsAgree(a: seq<SourceReading>, b: seq<SourceReading>, s: string)
    requires (forall r: SourceReading :: r in a <==> r in b) && Agrees(a, s)
    ensures Agrees(b, s) && ValueOf(a, s) == ValueOf(b, s)
  {
    FirstIs(a, s);
    FirstIs(b, s);
    if First(b, s).Some? {
      AgreedValue(a, s, First(b, s).value);
      forall i | 0 <= i < |b| && b[i].sourceId == s
        ensures NumberOf(b[i]) == ValueOf(b, s)
      {
        assert b[i] in b;
        AgreedValue(a, s, b[i]);
      }
    } else {
      NoReading(a, b, s);
    }
  }

  lemma NoReading(a: seq<SourceReading>, b: seq<SourceReading>, s: string)
    requires (forall r: SourceReading :: r in a <==> r in b) && First(b, s).None?
    ensures First(a, s).None?
  {
    FirstIs(a, s);
    FirstIs(b, s);
  }

  // ---------------------------------------------------------------------------
  // The order of readings does not matter
  // ---------------------------------------------------------------------------

  lemma SourcesPermuted(a: seq<SourceReading>, b: seq<SourceReading>)
    requires multiset(a) == multiset(b)
    ensures multiset(Sources(a)) == multiset(Sources(b)) && |Sources(a)| == |Sources(b)|
    ensures forall s: string :: s in Sources(a) ==> ValueOf(a, s) == ValueOf(b, s)
  {
    var xs, ys := Dedup(Map(SourceOf(), a)), Dedup(Map(SourceOf(), b));
    Lists.SameMembers(a, b);
    MapPermutes(SourceOf(), a, b);
    DedupPermutes(Map(SourceOf(), a), Map(SourceOf(), b));
    forall s: string
      ensures Agreeing(a)(s) == Agreeing(b)(s)
      ensures Agreeing(a)(s) ==> ValueOf(a, s) == ValueOf(b, s)
    {
      if Agrees(a, s) {
        SameReadingsAgree(a, b, s);
      } else if Agrees(b, s) {
        SameReadingsAgree(b, a, s);
      }
    }
    FilterSame(Agreeing(a), Agreeing(b), xs);
    FilterPermutes(Agreeing(b), xs, ys);
    FilterMembers(Agreeing(a), xs);
    assert |multiset(Sources(a))| == |Sources(a)| && |multiset(Sources(b))| == |Sources(b)|;
  }

  lemma ValuesPermuted(a: seq<SourceReading>, b: seq<SourceReading>, xs: seq<string>, ys: seq<string>)
    requires multiset(xs) == multiset(ys) && forall s: string :: s in xs ==> ValueOf(a, s) == ValueOf(b, s)
    ensures multiset(Map(Values(a), xs)) == multiset(Map(Values(b), ys))
  {
    forall i | 0 <= i < |xs|
      ensures Values(a)(xs[i]) == Values(b)(xs[i])
    {
      assert xs[i] in xs;
    }
    MapSame(Values(a), Values(b), xs);
    MapPermutes(Values(b), xs, ys);
  }

  lemma AcceptedPermuted(a: seq<SourceReading>, b: seq<SourceReading>, config: Config)
    requires multiset(a) == multiset(b) && Sources(a) != []
    ensures multiset(Accepted(a, config)) == multiset(Accepted(b, config)) && |Accepted(a, config)| == |Accepted(b, config)|
    ensures forall s: string :: s in Accepted(a, config) ==> ValueOf(a, s) == ValueOf(b, s)
  {
    var xs, ys := Sources(a), Sources(b);
    SourcesPermuted(a, b);
    ValuesPermuted(a, b, xs, ys);
    MedianForgetsOrder(Map(Values(a), xs), Map(Values(b), ys));
    var p, q := InBand(a, Provisional(a), config.toleranceBps), InBand(b, Provisional(b), config.toleranceBps);
    FilterSame(p, q, xs);
    FilterPermutes(q, xs, ys);
    FilterMembers(p, xs);
    assert |multiset(Accepted(a, config))| == |Accepted(a, config)|;
    assert |multiset(Accepted(b, config))| == |Accepted(b, config)|;
  }

  /** Status and value are the same. */
  predicate SameVerdict(a: Outcome, b: Outcome) {
    match a
    case Corroborated(value, _) => b.Corroborated? && b.value == value
    case InsufficientQuorum => b == InsufficientQuorum
    case Divergent => b == Divergent
  }

  lemma DecideForgetsOrder(a: seq<SourceReading>, b: seq<SourceReading>, config: Config)
    requires multiset(a) == multiset(b) && config.minSources >= 1
    ensures SameVerdict(Decide(a, config), Decide(b, config))
  {
    SourcesPermuted(a, b);
    if |Sources(a)| >= config.minSources {
      AcceptedPermuted(a, b, config);
      var xs, ys := Accepted(a, config), Accepted(b, config);
      if |xs| >= config.minSources {
        ValuesPermuted(a, b, xs, ys);
        MedianForgetsOrder(Map(Values(a), xs), Map(Values(b), ys));
      }
    }
  }

  /** Status and value are the same for every arrangement of the readings. */
  lemma VerdictForgetsOrder(a: seq<SourceReading>, b: seq<SourceReading>, config: Config, now: real)
    requires multiset(a) == multiset(b) && config.minSources >= 1
    ensures SameVerdict(Corroboration(a, config, now), Corroboration(b, config, now))
  {
    var p := Usable(config, now);
    FilterPermutes(p, a, b);
    DecideForgetsOrder(Filter(p, a), Filter(p, b), config);
  }

  // ---------------------------------------------------------------------------
  // What a corroborated value rests on
  // ---------------------------------------------------------------------------

  /** A usable reading of a source no usable reading of which contradicts it. */
  ghost predicate Supports(readings: seq<SourceReading>, config: Config, now: real, r: SourceReading) {
    && r in readings && IsUsable(r, config, now)
    && forall q: SourceReading :: q in readings && IsUsable(q, config, now) && q.sourceId == r.sourceId ==> q.value == r.value
  }

  lemma AcceptedAre(us: seq<SourceReading>, config: Config)
    ensures Distinct(Accepted(us, config))
    ensures forall s: string :: s in Accepted(us, config) ==> s in Sources(us) && First(us, s).Some? && Agrees(us, s)
    ensures Sources(us) != [] ==> forall s: string :: s in Accepted(us, config) ==>
              DeviationBps(ValueOf(us, s), Provisional(us)) <= config.toleranceBps
  {
    var xs := Sources(us);
    DedupIs(Map(SourceOf(), us));
    DistinctFilter(Agreeing(us), Dedup(Map(SourceOf(), us)));
    if xs != [] {
      var p := InBand(us, Provisional(us), config.toleranceBps);
      DistinctFilter(p, xs);
      FilterMembers(p, xs);
      forall s: string | s in Accepted(us, config)
        ensures First(us, s).Some? && Agrees(us, s)
      {
        SourceHasReading(us, s);
      }
    }
  }

  function Reach(reference: real, toleranceBps: real): real {
    toleranceBps / 10000.0 * Unit(reference)
  }

  lemma Unscales(q: real, b: real, unit: real)
    requires q * unit <= b * unit && unit >= 1.0
    ensures q <= b
  {
  }

  lemma Scales(q: real, b: real, unit: real)
    requires q <= b && unit >= 1.0
    ensures q * unit <= b * unit
  {
  }

  /** What is within tolerance of a reference is an interval around it. */
  lemma BandIsInterval(x: real, reference: real, toleranceBps: real)
    ensures DeviationBps(x, reference) <= toleranceBps <==>
            Inside(x, reference - Reach(reference, toleranceBps), reference + Reach(reference, toleranceBps))
  {
    var unit, b := Unit(reference), toleranceBps / 10000.0;
    var q := Abs(x - reference) / unit;
    assert q * unit == Abs(x - reference);
    assert DeviationBps(x, reference) <= toleranceBps <==> q <= b;
    if q <= b {
      Scales(q, b, unit);
    }
    if q * unit <= b * unit {
      Unscales(q, b, unit);
    }
  }

  /** The median of values in a tolerance band is in it. */
  lemma MedianInBand(values: seq<real>, reference: real, toleranceBps: real)
    requires values != [] && forall i :: 0 <= i < |values| ==> DeviationBps(values[i], reference) <= toleranceBps
    ensures DeviationBps(Median(values), reference) <= toleranceBps
  {
    var lo, hi := reference - Reach(reference, toleranceBps), reference + Reach(reference, toleranceBps);
    forall i | 0 <= i < |values|
      ensures Inside(values[i], lo, hi)
    {
      BandIsInterval(values[i], reference, toleranceBps);
    }
    MedianWithin(values, lo, hi);
    BandIsInterval(Median(values), reference, toleranceBps);
  }

  /** The values behind a corroborated outcome. */
  function Numbers(rs: seq<SourceReading>): seq<real> {
    seq(|rs|, i requires 0 <= i < |rs| => NumberOf(rs[i]))
  }

  lemma ParticipatingAre(us: seq<SourceReading>, config: Config)
    ensures var rs := Map(Reading(us), Accepted(us, config));
      && Numbers(rs) == Map(Values(us), Accepted(us, config))
      && (forall i :: 0 <= i < |rs| ==> rs[i].sourceId == Accepted(us, config)[i] && rs[i] in us)
      && (forall i, j :: 0 <= i < j < |rs| ==> rs[i].sourceId != rs[j].sourceId)
  {
    var xs := Accepted(us, config);
    AcceptedAre(us, config);
    var rs := Map(Reading(us), xs);
    forall i | 0 <= i < |rs|
      ensures rs[i].sourceId == xs[i] && rs[i] in us && NumberOf(rs[i]) == Values(us)(xs[i])
    {
      assert xs[i] in xs;
      FirstIs(us, xs[i]);
    }
  }

  /** A corroborated value has at least `minSources` distinct sources behind it, each with a
      usable reading that no usable reading of the same source contradicts. */
  lemma RestsOnSources(readings: seq<SourceReading>, config: Config, now: real)
    requires config.minSources >= 1 && Corroboration(readings, config, now).Corroborated?
    ensures var rs := Corroboration(readings, config, now).participating;
      && |rs| >= config.minSources
      && (forall i, j :: 0 <= i < j < |rs| ==> rs[i].sourceId != rs[j].sourceId)
      && (forall i :: 0 <= i < |rs| ==> Supports(readings, config, now, rs[i]))
  {
    var us := Filter(Usable(config, now), readings);
    FilterMembers(Usable(config, now), readings);
    ParticipatingAre(us, config);
    AcceptedAre(us, config);
    var rs := Corroboration(readings, config, now).participating;
    forall i | 0 <= i < |rs|
      ensures Supports(readings, config, now, rs[i])
    {
      var s := Accepted(us, config)[i];
      assert s in Accepted(us, config);
      AgreedValue(us, s, rs[i]);
      forall q: SourceReading | q in readings && IsUsable(q, config, now) && q.sourceId == rs[i].sourceId
        ensures q.value == rs[i].value
      {
        AgreedValue(us, s, q);
      }
    }
  }

  /** A corroborated value lies between two of the readings behind it and within the
      tolerance band of the provisional median. */
  lemma StaysInBand(readings: seq<SourceReading>, config: Config, now: real)
    requires config.minSources >= 1 && Corroboration(readings, config, now).Corroborated?
    ensures var us := Filter(Usable(config, now), readings);
      && Sources(us) != []
      && DeviationBps(Corroboration(readings, config, now).value, Provisional(us)) <= config.toleranceBps
    ensures var rs, value := Corroboration(readings, config, now).participating, Corroboration(readings, config, now).value;
      exists p, q :: p in rs && q in rs && NumberOf(p) <= value <= NumberOf(q)
  {
    var us := Filter(Usable(config, now), readings);
    var xs, rs := Accepted(us, config), Corroboration(readings, config, now).participating;
    var values := Map(Values(us), xs);
    AcceptedAre(us, config);
    ParticipatingAre(us, config);
    forall i | 0 <= i < |values|
      ensures DeviationBps(values[i], Provisional(us)) <= config.toleranceBps
    {
      assert xs[i] in xs && values[i] == ValueOf(us, xs[i]);
    }
    MedianInBand(values, Provisional(us), config.toleranceBps);
    var a, b := Extremes(values);
    MedianWithin(values, values[a], values[b]);
    assert rs[a] in rs && rs[b] in rs && NumberOf(rs[a]) == values[a] && NumberOf(rs[b]) == values[b];
  }

  // ---------------------------------------------------------------------------
  // Which status
  // ---------------------------------------------------------------------------

  /** The sources with a usable reading that none of their usable readings contradicts. */
  ghost function SupportedSources(readings: seq<SourceReading>, config: Config, now: real): set<string> {
    set i | 0 <= i < |readings| && Supports(readings, config, now, readings[i]) :: readings[i].sourceId
  }

  lemma SupportedIsSource(readings: seq<SourceReading>, config: Config, now: real, s: string)
    ensures s in SupportedSources(readings, config, now) <==> s in Sources(Filter(Usable(config, now), readings))
  {
    var us := Filter(Usable(config, now), readings);
    FilterMembers(Usable(config, now), readings);
    var ids := Map(SourceOf(), us);
    DedupIs(ids);
    FilterMember(Agreeing(us), Dedup(ids), s);
    FirstIs(us, s);
    if s in Sources(us) {
      SourceHasReading(us, s);
      SourceIsSupported(readings, config, now, s);
    }
    if s in SupportedSources(readings, config, now) {
      var i :| 0 <= i < |readings| && Supports(readings, config, now, readings[i]) && readings[i].sourceId == s;
      var k :| 0 <= k < |us| && us[k] == readings[i];
      assert ids[k] == s;
      SupportAgrees(readings, config, now, readings[i]);
    }
  }

  lemma SupportAgrees(readings: seq<SourceReading>, config: Config, now: real, r: SourceReading)
    requires Supports(readings, config, now, r)
    ensures Agrees(Filter(Usable(config, now), readings), r.sourceId)
  {
    var us := Filter(Usable(config, now), readings);
    FilterMembers(Usable(config, now), readings);
    FirstIs(us, r.sourceId);
    forall i | 0 <= i < |us| && us[i].sourceId == r.sourceId
      ensures NumberOf(us[i]) == ValueOf(us, r.sourceId)
    {
      assert us[i] in us && us[i].value == r.value;
      assert First(us, r.sourceId).value.value == r.value;
    }
  }

  lemma SourceIsSupported(readings: seq<SourceReading>, config: Config, now: real, s: string)
    requires var us := Filter(Usable(config, now), readings); First(us, s).Some? && Agrees(us, s)
    ensures s in SupportedSources(readings, config, now)
  {
    var us := Filter(Usable(config, now), readings);
    FilterMembers(Usable(config, now), readings);
    FirstIs(us, s);
    var r := First(us, s).value;
    forall q: SourceReading | q in readings && IsUsable(q, config, now) && q.sourceId == s
      ensures q.value == r.value
    {
      AgreedValue(us, s, q);
    }
    assert Supports(readings, config, now, r);
    var i :| 0 <= i < |readings| && readings[i] == r;
  }

  lemma SourcesAreSupported(readings: seq<SourceReading>, config: Config, now: real)
    ensures var xs := Sources(Filter(Usable(config, now), readings));
      Distinct(xs) && SetOf(xs) == SupportedSources(readings, config, now)
  {
    var us := Filter(Usable(config, now), readings);
    DedupIs(Map(SourceOf(), us));
    DistinctFilter(Agreeing(us), Dedup(Map(SourceOf(), us)));
    forall s: string
      ensures s in SupportedSources(readings, config, now) <==> s in SetOf(Sources(us))
    {
      SupportedIsSource(readings, config, now, s);
    }
  }

  /** The quorum fails exactly when fewer than `minSources` sources are supported. */
  lemma QuorumIff(readings: seq<SourceReading>, config: Config, now: real)
    requires config.minSources >= 1
    ensures Corroboration(readings, config, now) == InsufficientQuorum <==>
            |SupportedSources(readings, config, now)| < config.minSources
  {
    SourcesAreSupported(readings, config, now);
    DistinctSize(Sources(Filter(Usable(config, now), readings)));
  }

  /** The supported sources within tolerance of the provisional median. */
  ghost function SourcesInBand(readings: seq<SourceReading>, config: Config, now: real): set<string>
    requires Sources(Filter(Usable(config, now), readings)) != []
  {
    var us := Filter(Usable(config, now), readings);
    set s | s in SupportedSources(readings, config, now)
            && DeviationBps(ValueOf(us, s), Provisional(us)) <= config.toleranceBps
  }

  /** A value is published exactly when `minSources` sources are supported and as many of
      them lie within tolerance of their median; these are the participants. */
  lemma CorroboratedIff(readings: seq<SourceReading>, config: Config, now: real)
    requires config.minSources >= 1 && Corroboration(readings, config, now) != InsufficientQuorum
    ensures Sources(Filter(Usable(config, now), readings)) != []
    ensures var band := SourcesInBand(readings, config, now);
      && (Corroboration(readings, config, now).Corroborated? <==> |band| >= config.minSources)
      && (Corroboration(readings, config, now).Corroborated? ==>
            forall s: string :: s in band <==>
              exists i :: 0 <= i < |Corroboration(readings, config, now).participating|
                          && Corroboration(readings, config, now).participating[i].sourceId == s)
  {
    var us := Filter(Usable(config, now), readings);
    var xs, accepted := Sources(us), Accepted(us, config);
    SourcesAreSupported(readings, config, now);
    FilterMembers(InBand(us, Provisional(us), config.toleranceBps), xs);
    AcceptedAre(us, config);
    assert SetOf(accepted) == SourcesInBand(readings, config, now);
    DistinctSize(accepted);
    ParticipatingAre(us, config);
    assert forall s: string :: s in SetOf(accepted) <==> s in accepted;
  }

  // ---------------------------------------------------------------------------
  // The outcome in full
  // ---------------------------------------------------------------------------

  /** A number that is not negative, observed in the past and not too long ago. */
  predicate IsFresh(r: SourceReading, config: Config, now: real) {
    && r.value.Finite? && r.value.number >= 0.0
    && r.observedAt <= now && now <= r.observedAt + config.maxReadingAgeMs
  }

  /** Source `s` has a fresh reading, and all its fresh readings say `x`. */
  ghost predicate Says(readings: seq<SourceReading>, config: Config, now: real, s: string, x: real) {
    && (exists i :: 0 <= i < |readings| && IsFresh(readings[i], config, now) && readings[i].sourceId == s)
    && (forall i :: 0 <= i < |readings| && IsFresh(readings[i], config, now) && readings[i].sourceId == s ==>
          readings[i].value == Finite(x))
  }

  /** `xs` are the sources that say something, each once, and `vs` what they say. */
  ghost predicate Statements(readings: seq<SourceReading>, config: Config, now: real, xs: seq<string>, vs: seq<real>) {
    && Distinct(xs) && |vs| == |xs|
    && (forall k :: 0 <= k < |xs| ==> Says(readings, config, now, xs[k], vs[k]))
    && (forall s: string, x: real :: Says(readings, config, now, s, x) ==> s in xs)
  }

  /** The size of the reference, but at least 1. */
  predicate IsUnit(reference: real, unit: real) {
    unit >= 1.0 && unit >= reference && unit >= -reference && (unit == 1.0 || unit == reference || unit == -reference)
  }

  function Within(reference: real, unit: real, toleranceBps: real): real -> bool {
    (v: real) => -(toleranceBps * unit) <= (v - reference) * 10000.0 <= toleranceBps * unit
  }

  lemma WithinIsBand(v: real, reference: real, toleranceBps: real)
    ensures IsUnit(reference, Unit(reference))
    ensures Within(reference, Unit(reference), toleranceBps)(v) <==> DeviationBps(v, reference) <= toleranceBps
  {
    BandIsInterval(v, reference, toleranceBps);
    var b, unit := toleranceBps / 10000.0, Unit(reference);
    assert b * 10000.0 == toleranceBps;
    assert b * unit * 10000.0 == toleranceBps * unit;
  }

  lemma SaysIff(readings: seq<SourceReading>, config: Config, now: real, s: string, x: real)
    ensures var us := Filter(Usable(config, now), readings);
      Says(readings, config, now, s, x) <==> s in Sources(us) && ValueOf(us, s) == x
  {
    var us := Filter(Usable(config, now), readings);
    FilterMembers(Usable(config, now), readings);
    FirstIs(us, s);
    if Says(readings, config, now, s, x) {
      var i :| 0 <= i < |readings| && IsFresh(readings[i], config, now) && readings[i].sourceId == s;
      assert readings[i] in readings && IsUsable(readings[i], config, now);
      SaidIsSource(readings, config, now, s, x);
    }
    if s in Sources(us) {
      SourceHasReading(us, s);
      var r := First(us, s).value;
      var i :| 0 <= i < |readings| && readings[i] == r;
      forall k | 0 <= k < |readings| && IsFresh(readings[k], config, now) && readings[k].sourceId == s
        ensures readings[k].value == Finite(ValueOf(us, s))
      {
        assert readings[k] in readings && IsUsable(readings[k], config, now);
        AgreedValue(us, s, readings[k]);
      }
      assert IsFresh(readings[i], config, now);
    }
  }

  lemma SaidIsSource(readings: seq<SourceReading>, config: Config, now: real, s: string, x: real)
    requires Says(readings, config, now, s, x)
    ensures var us := Filter(Usable(config, now), readings); s in Sources(us) && ValueOf(us, s) == x
  {
    var us := Filter(Usable(config, now), readings);
    FilterMembers(Usable(config, now), readings);
    var i :| 0 <= i < |readings| && IsFresh(readings[i], config, now) && readings[i].sourceId == s;
    assert readings[i] in readings && IsUsable(readings[i], config, now) && readings[i] in us;
    FirstIs(us, s);
    forall k | 0 <= k < |us| && us[k].sourceId == s
      ensures us[k].value == Finite(x)
    {
      assert us[k] in us && us[k] in readings && IsUsable(us[k], config, now);
    }
    var k :| 0 <= k < |us| && us[k] == readings[i];
    var ids := Map(SourceOf(), us);
    assert ids[k] == s;
    DedupIs(ids);
    FilterMember(Agreeing(us), Dedup(ids), s);
  }

  /** The outcome, from the statements of the sources alone: too few of them, too few near
      their median, or the median of those near it. */
  lemma OutcomeIs(readings: seq<SourceReading>, config: Config, now: real) returns (xs: seq<string>, vs: seq<real>)
    requires config.minSources >= 1
    ensures Statements(readings, config, now, xs, vs)
    ensures var outcome := Corroboration(readings, config, now);
      if |vs| < config.minSources then outcome == InsufficientQuorum
      else
        var reference := Median(vs);
        var near := Filter(Within(reference, Unit(reference), config.toleranceBps), vs);
        && IsUnit(reference, Unit(reference))
        && if |near| < config.minSources then outcome == Divergent
           else outcome.Corroborated? && outcome.value == Median(near) && Numbers(outcome.participating) == near
  {
    var us := Filter(Usable(config, now), readings);
    xs := Sources(us);
    vs := Map(Values(us), xs);
    SourcesAreSupported(readings, config, now);
    forall s: string, x: real
      ensures Says(readings, config, now, s, x) <==> s in xs && ValueOf(us, s) == x
    {
      SaysIff(readings, config, now, s, x);
    }
    assert forall k :: 0 <= k < |xs| ==> xs[k] in xs;
    if |vs| >= config.minSources {
      NearAreAccepted(us, config);
      ParticipatingAre(us, config);
    }
  }

  lemma NearAreAccepted(us: seq<SourceReading>, config: Config)
    requires Sources(us) != []
    ensures var reference, vs := Provisional(us), Map(Values(us), Sources(us));
      && IsUnit(reference, Unit(reference))
      && Filter(Within(reference, Unit(reference), config.toleranceBps), vs) == Map(Values(us), Accepted(us, config))
  {
    var reference, xs := Provisional(us), Sources(us);
    WithinIsBand(0.0, reference, config.toleranceBps);
    forall k | 0 <= k < |xs|
      ensures InBand(us, reference, config.toleranceBps)(xs[k])
              == Within(reference, Unit(reference), config.toleranceBps)(Values(us)(xs[k]))
    {
      WithinIsBand(ValueOf(us, xs[k]), reference, config.toleranceBps);
    }
    FilterMap(Values(us), InBand(us, reference, config.toleranceBps),
              Within(reference, Unit(reference), config.toleranceBps), xs);
  }

  // ---------------------------------------------------------------------------
  // The algorithm
  // ---------------------------------------------------------------------------

  /** `bySource` holds the first usable reading of each source and `conflicted` the sources
      that contradict themselves. */
  ghost predicate Collected(us: seq<SourceReading>, order: seq<string>, bySource: map<string, SourceReading>,
                            conflicted: set<string>)
  {
    && order == Dedup(Map(SourceOf(), us))
    && (forall s: string :: s in bySource <==> s in order)
    && (forall s: string :: s in bySource ==> First(us, s) == Some(bySource[s]))
    && (forall s: string :: s in conflicted <==> s in order && !Agrees(us, s))
  }

  lemma FirstAppended(us: seq<SourceReading>, r: SourceReading, s: string)
    ensures First(us + [r], s) ==
            if First(us, s).Some? then First(us, s) else if r.sourceId == s then Some(r) else None
  {
    assert (us + [r])[..|us|] == us;
  }

  lemma AgreesAppended(us: seq<SourceReading>, r: SourceReading, s: string)
    ensures Agrees(us + [r], s) <==>
            Agrees(us, s) && (r.sourceId == s && First(us, s).Some? ==> NumberOf(r) == ValueOf(us, s))
  {
    FirstAppended(us, r, s);
    FirstIs(us, s);
    var all := us + [r];
    assert all[|us|] == r && forall i :: 0 <= i < |us| ==> all[i] == us[i];
    if Agrees(all, s) {
      forall i | 0 <= i < |us| && us[i].sourceId == s
        ensures NumberOf(us[i]) == ValueOf(us, s)
      {
        assert all[i] == us[i];
      }
    }
  }

  lemma OrderAppended(us: seq<SourceReading>, r: SourceReading)
    ensures var before := Dedup(Map(SourceOf(), us));
      Dedup(Map(SourceOf(), us + [r])) == if r.sourceId in before then before else before + [r.sourceId]
  {
    var ids := Map(SourceOf(), us + [r]);
    DedupNext(ids, |us|);
    assert ids[..|us|] == Map(SourceOf(), us) && ids[..|us| + 1] == ids;
  }

  lemma CollectedSources(us: seq<SourceReading>, s: string)
    ensures s in Dedup(Map(SourceOf(), us)) <==> First(us, s).Some?
  {
    var ids := Map(SourceOf(), us);
    DedupIs(ids);
    FirstIs(us, s);
    if s in ids {
      var i :| 0 <= i < |ids| && ids[i] == s;
      assert us[i].sourceId == s;
    }
    if First(us, s).Some? {
      var i :| 0 <= i < |us| && us[i] == First(us, s).value;
      assert ids[i] == s;
    }
  }

  lemma CollectNext(us: seq<SourceReading>, r: SourceReading, order: seq<string>, bySource: map<string, SourceReading>,
                    conflicted: set<string>)
    requires Collected(us, order, bySource, conflicted)
    ensures
      if r.sourceId !in bySource then
        Collected(us + [r], order + [r.sourceId], bySource[r.sourceId := r], conflicted)
      else if NumberOf(bySource[r.sourceId]) != NumberOf(r) then
        Collected(us + [r], order, bySource, conflicted + {r.sourceId})
      else Collected(us + [r], order, bySource, conflicted)
  {
    OrderAppended(us, r);
    forall s: string
      ensures First(us + [r], s) ==
              if First(us, s).Some? then First(us, s) else if r.sourceId == s then Some(r) else None
      ensures Agrees(us + [r], s) <==>
              Agrees(us, s) && (r.sourceId == s && First(us, s).Some? ==> NumberOf(r) == ValueOf(us, s))
      ensures s in order <==> First(us, s).Some?
      ensures First(us, s).None? ==> Agrees(us, s)
    {
      FirstAppended(us, r, s);
      AgreesAppended(us, r, s);
      CollectedSources(us, s);
      FirstIs(us, s);
    }
  }

  method CollectOne(r: SourceReading, order: seq<string>, bySource: map<string, SourceReading>, conflicted: set<string>,
                    ghost us: seq<SourceReading>)
    returns (order': seq<string>, bySource': map<string, SourceReading>, conflicted': set<string>)
    requires Collected(us, order, bySource, conflicted)
    ensures Collected(us + [r], order', bySource', conflicted')
  {
    CollectNext(us, r, order, bySource, conflicted);
    order', bySource', conflicted' := order, bySource, conflicted;
    if r.sourceId !in bySource {
      order', bySource' := order + [r.sourceId], bySource[r.sourceId := r];
    } else if NumberOf(bySource[r.sourceId]) != NumberOf(r) {
      conflicted' := conflicted + {r.sourceId};
    }
  }

  lemma UsableNext(readings: seq<SourceReading>, config: Config, now: real, k: nat)
    requires k < |readings|
    ensures var us := Filter(Usable(config, now), readings[..k]);
      Filter(Usable(config, now), readings[..k + 1]) == if IsUsable(readings[k], config, now) then us + [readings[k]] else us
  {
    assert readings[..k + 1] == readings[..k] + [readings[k]];
    FilterLast(Usable(config, now), readings[..k], readings[k]);
  }

  method CollectFresh(readings: seq<SourceReading>, config: Config, now: real)
    returns (order: seq<string>, bySource: map<string, SourceReading>, conflicted: set<string>)
    ensures Collected(Filter(Usable(config, now), readings), order, bySource, conflicted)
  {
    order, bySource, conflicted := [], map[], {};
    for k := 0 to |readings|
      invariant Collected(Filter(Usable(config, now), readings[..k]), order, bySource, conflicted)
    {
      UsableNext(readings, config, now, k);
      if IsUsable(readings[k], config, now) {
        order, bySource, conflicted :=
          CollectOne(readings[k], order, bySource, conflicted, Filter(Usable(config, now), readings[..k]));
      }
    }
    assert readings[..|readings|] == readings;
  }

  method DropConflicted(order: seq<string>, bySource: map<string, SourceReading>, conflicted: set<string>,
                        ghost us: seq<SourceReading>) returns (kept: seq<SourceReading>)
    requires Collected(us, order, bySource, conflicted)
    ensures kept == Map(Reading(us), Sources(us))
  {
    kept := [];
    for k := 0 to |order|
      invariant kept == Map(Reading(us), Filter(Agreeing(us), order[..k]))
    {
      var s := order[k];
      ghost var before := Filter(Agreeing(us), order[..k]);
      assert order[..k + 1] == order[..k] + [s];
      FilterLast(Agreeing(us), order[..k], s);
      assert Reading(us)(s) == bySource[s];
      MapLast(Reading(us), before, s);
      if s !in conflicted {
        kept := kept + [bySource[s]];
      }
    }
    assert order[..|order|] == order;
  }

  lemma FreshValues(us: seq<SourceReading>, xs: seq<string>)
    requires forall s: string :: s in xs ==> First(us, s).Some?
    ensures Numbers(Map(Reading(us), xs)) == Map(Values(us), xs)
  {
    forall i | 0 <= i < |xs|
      ensures NumberOf(Reading(us)(xs[i])) == Values(us)(xs[i])
    {
      assert xs[i] in xs;
    }
  }

  method RejectOutliers(kept: seq<SourceReading>, provisional: real, toleranceBps: real,
                        ghost us: seq<SourceReading>, ghost xs: seq<string>) returns (accepted: seq<SourceReading>)
    requires kept == Map(Reading(us), xs) && forall s: string :: s in xs ==> First(us, s).Some?
    ensures accepted == Map(Reading(us), Filter(InBand(us, provisional, toleranceBps), xs))
  {
    accepted := [];
    ghost var p := InBand(us, provisional, toleranceBps);
    for k := 0 to |kept|
      invariant accepted == Map(Reading(us), Filter(p, xs[..k]))
    {
      ghost var s := xs[k];
      ghost var before := Filter(p, xs[..k]);
      assert xs[..k + 1] == xs[..k] + [s] && s in xs;
      FilterLast(p, xs[..k], s);
      assert kept[k] == Reading(us)(s) && NumberOf(kept[k]) == ValueOf(us, s);
      MapLast(Reading(us), before, s);
      if DeviationBps(NumberOf(kept[k]), provisional) <= toleranceBps {
        accepted := accepted + [kept[k]];
      }
    }
    assert xs[..|kept|] == xs;
  }

  /** Only a source's first usable reading counts, and only if no other contradicts it. */
  method Corroborate(readings: seq<SourceReading>, config: Config, now: real) returns (r: Outcome)
    requires config.minSources >= 1
    ensures r == Corroboration(readings, config, now)
  {
    ghost var us := Filter(Usable(config, now), readings);
    var order, bySource, conflicted := CollectFresh(readings, config, now);
    var kept := DropConflicted(order, bySource, conflicted, us);
    if |kept| < config.minSources {
      return InsufficientQuorum;
    }
    forall s: string | s in Sources(us)
      ensures First(us, s).Some?
    {
      SourceHasReading(us, s);
    }
    FreshValues(us, Sources(us));
    var provisional := Median(Numbers(kept));
    var accepted := RejectOutliers(kept, provisional, config.toleranceBps, us, Sources(us));
    if |accepted| < config.minSources {
      return Divergent;
    }
    AcceptedAre(us, config);
    FreshValues(us, Accepted(us, config));
    r := Outcome.Corroborated(Median(Numbers(accepted)), accepted);
  }
}
