/**
 What the simulator's figures mean: which readings a window holds, which reading of a source
 is active, when a decision triggers, and what the counters count.
 */
module SimulatorRules {
  import opened Wrappers
  import opened Lists
  import opened Sorting
  import opened Stats
  import opened Simulator

  // ---------------------------------------------------------------------------
  // Windows
  // ---------------------------------------------------------------------------

  /** A second starts at a whole number of seconds and lasts one. */
  lemma SecondIs(t: int)
    ensures Second(t) % 1000 == 0 && Second(t) <= t < Second(t) + 1000
  {
  }

  lemma SecondIff(t: int, at: int)
    requires at % 1000 == 0
    ensures Second(t) == at <==> at <= t < at + 1000
  {
    SecondIs(t);
  }

  /** A window holds exactly the readings of its coverage type and second. */
  lemma WindowHolds(sorted: seq<Observation>, j: nat, o: Observation)
    requires j < |Windows(sorted)|
    ensures var w := Windows(sorted)[j];
      && w.key.at % 1000 == 0
      && (o in w.observations <==>
            o in sorted && o.coverageType == w.key.coverageType && w.key.at <= o.recordedAt < w.key.at + 1000)
  {
    var w := Windows(sorted)[j];
    KeysAre(sorted);
    assert w.key in Keys(sorted);
    var i :| 0 <= i < |sorted| && KeyOf()(sorted[i]) == w.key;
    SecondIs(sorted[i].recordedAt);
    FilterMember(Having(KeyOf(), w.key), sorted, o);
    SecondIff(o.recordedAt, w.key.at);
  }

  /** Every reading is in a window, and windows come in order of time, then of name. */
  lemma EveryReadingHasAWindow(sorted: seq<Observation>, i: nat) returns (j: nat)
    requires i < |sorted|
    ensures j < |Windows(sorted)| && sorted[i] in Windows(sorted)[j].observations
  {
    j := WindowOf(sorted, i);
    WindowHolds(sorted, j, sorted[i]);
    SecondIs(sorted[i].recordedAt);
    assert sorted[i] in sorted;
  }

  lemma WindowsInOrder(sorted: seq<Observation>, i: nat, j: nat)
    requires i < j < |Windows(sorted)|
    ensures var a, b := Windows(sorted)[i].key, Windows(sorted)[j].key;
      a.at < b.at || (a.at == b.at && NameRank(a.coverageType) < NameRank(b.coverageType))
  {
    KeysAre(sorted);
    var a, b := Keys(sorted)[i], Keys(sorted)[j];
    assert a != b && KeyAtMost(a, b);
    RankTellsApart(a.coverageType, b.coverageType);
  }

  function Name(c: Coverage): string {
    match c
    case StablecoinDepeg => "StablecoinDepeg"
    case MarketCrash => "MarketCrash"
    case LiquidationShield => "LiquidationShield"
    case SmartContractRisk => "SmartContractRisk"
    case FlightDelay => "FlightDelay"
  }

  /** Coverage types rank as their names do: the first two letters tell them apart. */
  lemma RanksByName(a: Coverage, b: Coverage)
    ensures NameRank(a) < NameRank(b) <==>
            Name(a)[0] < Name(b)[0] || (Name(a)[0] == Name(b)[0] && Name(a)[1] < Name(b)[1])
  {
  }

  lemma RankTellsApart(a: Coverage, b: Coverage)
    ensures NameRank(a) == NameRank(b) <==> a == b
  {
  }

  // ---------------------------------------------------------------------------
  // Active readings
  // ---------------------------------------------------------------------------

  /** `o` is the reading of `s` after which no other of `s` comes. */
  ghost predicate IsLast(rs: seq<Observation>, s: string, o: Observation) {
    exists i :: 0 <= i < |rs| && rs[i] == o && o.source == s && NoneAfter(rs, s, i)
  }

  predicate NoneAfter(rs: seq<Observation>, s: string, i: int) {
    forall j :: 0 <= j < |rs| && j > i ==> rs[j].source != s
  }

  lemma {:induction false} LatestIs(rs: seq<Observation>, s: string)
    ensures match Latest(rs, s)
            case None => NoneAfter(rs, s, -1)
            case Some(o) => IsLast(rs, s, o)
    decreases |rs|
  {
    if rs != [] {
      var front := rs[..|rs| - 1];
      if rs[|rs| - 1].source == s {
        assert NoneAfter(rs, s, |rs| - 1);
      } else {
        LatestIs(front, s);
        match Latest(front, s)
        case None =>
        case Some(o) =>
          var i :| 0 <= i < |front| && front[i] == o && o.source == s && NoneAfter(front, s, i);
          assert rs[i] == o && NoneAfter(rs, s, i);
      }
    }
  }

  lemma LastIsOne(rs: seq<Observation>, s: string, o: Observation)
    requires IsLast(rs, s, o)
    ensures Latest(rs, s) == Some(o)
  {
    LatestIs(rs, s);
    var i :| 0 <= i < |rs| && rs[i] == o && o.source == s && NoneAfter(rs, s, i);
    if Latest(rs, s).Some? {
      var p := Latest(rs, s).value;
      var j :| 0 <= j < |rs| && rs[j] == p && p.source == s && NoneAfter(rs, s, j);
      assert i == j;
    }
  }

  /** A reading of a source is active exactly if it is the source's last one and not older
      than the freshness window. */
  lemma ActiveIff(rs: seq<Observation>, at: int, freshnessSeconds: int, s: string, o: Observation)
    ensures Active(rs, at, freshnessSeconds, s) == Some(o) <==>
            IsLast(rs, s, o) && at - o.recordedAt <= freshnessSeconds * 1000
  {
    LatestIs(rs, s);
    if IsLast(rs, s, o) {
      LastIsOne(rs, s, o);
    }
  }

  /** A decision considers one value per source with an active reading: that reading's. */
  lemma ValuesAreActive(rs: seq<Observation>, at: int, freshnessSeconds: int)
    ensures var sources := ActiveSources(rs, at, freshnessSeconds);
      var values := Map(EntryValue(), ActiveEntries(rs, at, freshnessSeconds));
      && Distinct(sources) && |values| == |sources|
      && (forall s: string :: s in sources <==> Active(rs, at, freshnessSeconds, s).Some?)
      && forall k :: 0 <= k < |sources| ==>
           Active(rs, at, freshnessSeconds, sources[k]).Some?
           && values[k] == Active(rs, at, freshnessSeconds, sources[k]).value.value
  {
    var ids := Dedup(Map(SourceOf(), rs));
    var sources := ActiveSources(rs, at, freshnessSeconds);
    DedupIs(Map(SourceOf(), rs));
    DistinctFilter(HasActive(rs, at, freshnessSeconds), ids);
    forall s: string
      ensures s in sources <==> Active(rs, at, freshnessSeconds, s).Some?
    {
      FilterMember(HasActive(rs, at, freshnessSeconds), ids, s);
      LatestIs(rs, s);
      if Active(rs, at, freshnessSeconds, s).Some? {
        var o := Latest(rs, s).value;
        var i :| 0 <= i < |rs| && rs[i] == o && o.source == s && NoneAfter(rs, s, i);
        assert Map(SourceOf(), rs)[i] == s;
      }
    }
    assert forall k :: 0 <= k < |sources| ==> sources[k] in sources;
  }

  // ---------------------------------------------------------------------------
  // Decisions
  // ---------------------------------------------------------------------------

  /** A candidate's own threshold counts; without one the default of the coverage type. */
  lemma ThresholdIs(c: Candidate, cov: Coverage)
    ensures cov in c.thresholds ==> Threshold(c, cov) == c.thresholds[cov]
    ensures cov !in c.thresholds ==>
              match cov
              case StablecoinDepeg => Threshold(c, cov) == 95.0 / 100.0
              case MarketCrash => Threshold(c, cov) == 0.0 - 30.0
              case LiquidationShield => Threshold(c, cov) == 85.0 / 100.0
              case SmartContractRisk => Threshold(c, cov) == 0.0 - 50.0
              case FlightDelay => Threshold(c, cov) == 120.0
  {
  }

  predicate IsCenter(values: seq<real>, center: real) {
    if values == [] then center == 0.0 else center == Median(values)
  }

  /** The largest of the sizes of center and threshold and the smallest step above 1. */
  predicate IsScale(center: real, threshold: real, scale: real) {
    && scale >= center && scale >= -center && scale >= threshold && scale >= -threshold && scale >= EPSILON
    && (scale == center || scale == -center || scale == threshold || scale == -threshold || scale == EPSILON)
  }

  /** At most `pct` percent of the scale away from the center. */
  function Near(center: real, scale: real, pct: real): real -> bool {
    (v: real) => -(pct * scale) <= (v - center) * 100.0 <= pct * scale
  }

  predicate Past(cov: Coverage, value: real, threshold: real) {
    if cov == FlightDelay then value > threshold else value < threshold
  }

  lemma InlierIsNear(center: real, scale: real, pct: real, v: real)
    requires scale > 0.0
    ensures Inlier(center, scale, pct)(v) <==> Near(center, scale, pct)(v)
  {
    var d := Abs(v - center);
    assert d / scale * 100.0 <= pct <==> d * 100.0 <= pct * scale by {
      Ratio(d, scale, pct);
    }
  }

  lemma Ratio(d: real, scale: real, pct: real)
    requires scale > 0.0
    ensures d / scale * 100.0 <= pct <==> d * 100.0 <= pct * scale
  {
    var q := d / scale;
    assert q * scale == d;
    if q * 100.0 <= pct {
      Scaled(q * 100.0, pct, scale);
    } else {
      Scaled(pct, q * 100.0, scale);
      assert (q * 100.0 - pct) * scale > 0.0;
    }
  }

  lemma Scaled(a: real, b: real, k: real)
    requires a <= b && k > 0.0
    ensures a * k <= b * k
  {
  }

  /** The decision drops the values that are not near their median, is refused without a quorum
      of the others, and triggers exactly if the median of these is past the threshold. */
  lemma VerdictIs(values: seq<real>, cov: Coverage, c: Candidate) returns (center: real, scale: real)
    requires IsCandidate(c)
    ensures IsCenter(values, center) && IsScale(center, Threshold(c, cov), scale)
    ensures var v, near := Evaluate(values, cov, c), Filter(Near(center, scale, c.anomalyDeviationPct), values);
      && v.filtered == |values| - |near|
      && (v.quorumRejected <==> |near| < c.quorum)
      && (v.triggered <==> |near| >= c.quorum && near != [] && Past(cov, Median(near), Threshold(c, cov)))
  {
    var threshold := Threshold(c, cov);
    center := Center(values);
    scale := Scale(center, threshold);
    forall x | x in values
      ensures Inlier(center, scale, c.anomalyDeviationPct)(x) == Near(center, scale, c.anomalyDeviationPct)(x)
    {
      InlierIsNear(center, scale, c.anomalyDeviationPct, x);
    }
    FilterSame(Inlier(center, scale, c.anomalyDeviationPct), Near(center, scale, c.anomalyDeviationPct), values);
  }

  // ---------------------------------------------------------------------------
  // Counters
  // ---------------------------------------------------------------------------

  /** Window `j` is a decision of `cov` in the simulated period. */
  predicate Counted(sorted: seq<Observation>, from: int, to: int, cov: Coverage, j: nat)
    requires j < |Windows(sorted)|
  {
    Windows(sorted)[j].key.coverageType == cov && from <= Windows(sorted)[j].key.at <= to
  }

  /** One of the window's readings had triggered. */
  predicate HadTriggered(sorted: seq<Observation>, j: nat)
    requires j < |Windows(sorted)|
  {
    exists i :: 0 <= i < |Windows(sorted)[j].observations| && Windows(sorted)[j].observations[i].triggered
  }

  function VerdictAt(sorted: seq<Observation>, c: Candidate, j: nat): Verdict
    requires j < |Windows(sorted)|
  {
    Naive(sorted, Windows(sorted)[j].key, c)
  }

  datatype Kind = Triggered | Triggers | Gained | Lost | Refused

  /** What the readings had done against what the candidate does. */
  predicate IsKind(sorted: seq<Observation>, c: Candidate, kind: Kind, j: nat)
    requires j < |Windows(sorted)|
  {
    match kind
    case Triggered => HadTriggered(sorted, j)
    case Triggers => VerdictAt(sorted, c, j).triggered
    case Gained => !HadTriggered(sorted, j) && VerdictAt(sorted, c, j).triggered
    case Lost => HadTriggered(sorted, j) && !VerdictAt(sorted, c, j).triggered
    case Refused => VerdictAt(sorted, c, j).quorumRejected
  }

  /** Which windows are decisions of the kind in the period. */
  function Marks(sorted: seq<Observation>, c: Candidate, from: int, to: int, cov: Coverage, kind: Kind): seq<bool> {
    seq(|Windows(sorted)|, j requires 0 <= j < |Windows(sorted)| =>
      Counted(sorted, from, to, cov, j) && IsKind(sorted, c, kind, j))
  }

  /** How many of the first `k` are marked. */
  function Marked(marks: seq<bool>, k: nat): nat
    requires k <= |marks|
  {
    |set j: nat | j < k && marks[j]|
  }

  lemma MarkedNext(marks: seq<bool>, k: nat)
    requires k < |marks|
    ensures Marked(marks, k + 1) == Marked(marks, k) + if marks[k] then 1 else 0
  {
    var a, b := set j: nat | j < k && marks[j], set j: nat | j < k + 1 && marks[j];
    if marks[k] {
      assert b == a + {k};
    } else {
      assert b == a;
    }
  }

  lemma MarkedKindNext(sorted: seq<Observation>, c: Candidate, from: int, to: int, cov: Coverage, kind: Kind, k: nat)
    requires k < |Windows(sorted)|
    ensures var marks := Marks(sorted, c, from, to, cov, kind);
      Marked(marks, k + 1) == Marked(marks, k)
        + if Counted(sorted, from, to, cov, k) && IsKind(sorted, c, kind, k) then 1 else 0
  {
    MarkedNext(Marks(sorted, c, from, to, cov, kind), k);
  }

  /** The counter of one kind. */
  function Counter(s: Summary, kind: Kind): nat {
    match kind
    case Triggered => s.baselineTriggers
    case Triggers => s.candidateTriggers
    case Gained => s.changedToTrigger
    case Lost => s.changedToNoTrigger
    case Refused => s.quorumRejected
  }

  lemma TallyNext(sorted: seq<Observation>, c: Candidate, from: int, to: int, cov: Coverage, kind: Kind, k: nat)
    requires k < |Windows(sorted)|
    ensures Counter(Tally(sorted, c, from, to, cov, k + 1), kind) == Counter(Tally(sorted, c, from, to, cov, k), kind)
              + if Counted(sorted, from, to, cov, k) && IsKind(sorted, c, kind, k) then 1 else 0
  {
  }

  lemma BothGrow(sorted: seq<Observation>, c: Candidate, from: int, to: int, cov: Coverage, kind: Kind, k: nat)
    requires k < |Windows(sorted)|
    ensures var marks := Marks(sorted, c, from, to, cov, kind);
      Counter(Tally(sorted, c, from, to, cov, k + 1), kind) - Counter(Tally(sorted, c, from, to, cov, k), kind)
      == Marked(marks, k + 1) - Marked(marks, k)
  {
    TallyNext(sorted, c, from, to, cov, kind, k);
    MarkedKindNext(sorted, c, from, to, cov, kind, k);
  }

  lemma MarkedNone(marks: seq<bool>)
    ensures Marked(marks, 0) == 0
  {
  }

  /** Each counter is the number of decisions of its kind. */
  lemma {:induction false} TallyCounts(sorted: seq<Observation>, c: Candidate, from: int, to: int, cov: Coverage, kind: Kind, k: nat)
    requires k <= |Windows(sorted)|
    ensures Counter(Tally(sorted, c, from, to, cov, k), kind) == Marked(Marks(sorted, c, from, to, cov, kind), k)
  {
    if k > 0 {
      TallyCounts(sorted, c, from, to, cov, kind, k - 1);
      BothGrow(sorted, c, from, to, cov, kind, k - 1);
    } else {
      MarkedNone(Marks(sorted, c, from, to, cov, kind));
    }
  }

  /** Every decision drops as many values as it has outliers, and these add up. */
  lemma FilteredAddUp(sorted: seq<Observation>, c: Candidate, from: int, to: int, cov: Coverage, k: nat)
    requires k < |Windows(sorted)|
    ensures Tally(sorted, c, from, to, cov, k + 1).anomalyFiltered == Tally(sorted, c, from, to, cov, k).anomalyFiltered
            + if Counted(sorted, from, to, cov, k) then VerdictAt(sorted, c, k).filtered else 0
  {
  }

  function InPeriod(sorted: seq<Observation>, from: int, to: int): seq<bool> {
    seq(|Windows(sorted)|, j requires 0 <= j < |Windows(sorted)| => from <= Windows(sorted)[j].key.at <= to)
  }

  /** The report counts the decisions of all coverage types in the period. */
  lemma {:induction false} DecisionsCounted(sorted: seq<Observation>, from: int, to: int, k: nat)
    requires k <= |Windows(sorted)|
    ensures WindowsIn(sorted, from, to, k) == Marked(InPeriod(sorted, from, to), k)
  {
    if k > 0 {
      DecisionsCounted(sorted, from, to, k - 1);
      MarkedNext(InPeriod(sorted, from, to), k - 1);
    }
  }
}
