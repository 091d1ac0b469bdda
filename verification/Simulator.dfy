/**
 Replay of historical oracle readings under candidate parameters.

 The simulator slides one dictionary of latest readings per coverage type over the
 decision windows. The specification recomputes every decision from scratch: the
 latest reading of each source up to that second, if it is still fresh.
 */
module Simulator {
  import opened Wrappers
  import opened Lists
  import opened Sorting
  import opened Stats
  import opened OrderedMap

  datatype Coverage = StablecoinDepeg | MarketCrash | LiquidationShield | SmartContractRisk | FlightDelay

  /** `valid` stands for a valid time, a finite value and a source that is not blank. */
  datatype Observation = Observation(coverageType: Coverage, value: real, valid: bool, source: string,
                                     triggered: bool, recordedAt: int)

  datatype Candidate = Candidate(quorum: int, freshnessSeconds: int, anomalyDeviationPct: real,
                                 thresholds: map<Coverage, real>)

  datatype Error = InvalidCandidate | InvalidWindow | InvalidReadings

  predicate IsCandidate(c: Candidate) {
    1 <= c.quorum <= 20 && 1 <= c.freshnessSeconds <= 86400 && 0.0 <= c.anomalyDeviationPct <= 1000.0
  }

  function DefaultThreshold(c: Coverage): real {
    match c
    case StablecoinDepeg => 0.95
    case MarketCrash => -30.0
    case LiquidationShield => 0.85
    case SmartContractRisk => -50.0
    case FlightDelay => 120.0
  }

  function Threshold(c: Candidate, cov: Coverage): real {
    if cov in c.thresholds then c.thresholds[cov] else DefaultThreshold(cov)
  }

  const EPSILON: real := 1.0 / 4503599627370496.0

  /** Alphabetical order of the coverage names. */
  function NameRank(c: Coverage): int {
    match c
    case FlightDelay => 0
    case LiquidationShield => 1
    case MarketCrash => 2
    case SmartContractRisk => 3
    case StablecoinDepeg => 4
  }

  // ---------------------------------------------------------------------------
  // Decision windows
  // ---------------------------------------------------------------------------

  datatype Key = Key(coverageType: Coverage, at: int)

  datatype Window = Window(key: Key, observations: seq<Observation>)

  /** The second a reading belongs to, in milliseconds. */
  function Second(t: int): int {
    t / 1000 * 1000
  }

  function KeyOf(): Observation -> Key {
    (o: Observation) => Key(o.coverageType, Second(o.recordedAt))
  }

  function ByTime(): (Observation, Observation) -> bool {
    (a: Observation, b: Observation) => a.recordedAt <= b.recordedAt
  }

  predicate KeyAtMost(a: Key, b: Key) {
    a.at < b.at || (a.at == b.at && NameRank(a.coverageType) <= NameRank(b.coverageType))
  }

  function ByKey(): (Key, Key) -> bool {
    (a: Key, b: Key) => KeyAtMost(a, b)
  }

  function Keys(sorted: seq<Observation>): seq<Key> {
    Sort(ByKey(), Dedup(Map(KeyOf(), sorted)))
  }

  function WindowAt(sorted: seq<Observation>): Key -> Window {
    (k: Key) => Window(k, Filter(Having(KeyOf(), k), sorted))
  }

  function Windows(sorted: seq<Observation>): seq<Window> {
    Map(WindowAt(sorted), Keys(sorted))
  }

  // ---------------------------------------------------------------------------
  // One decision, from scratch
  // ---------------------------------------------------------------------------

  function Upto(cov: Coverage, at: int): Observation -> bool {
    (o: Observation) => o.coverageType == cov && Second(o.recordedAt) <= at
  }

  /** The last reading of a source. */
  function Latest(rs: seq<Observation>, s: string): Option<Observation> {
    if rs == [] then None
    else if rs[|rs| - 1].source == s then Some(rs[|rs| - 1])
    else Latest(rs[..|rs| - 1], s)
  }

  predicate IsFresh(o: Observation, at: int, freshnessSeconds: int) {
    o.recordedAt >= at - freshnessSeconds * 1000
  }

  /** The latest reading of a source, if it is inside the freshness window. */
  function Active(rs: seq<Observation>, at: int, freshnessSeconds: int, s: string): Option<Observation> {
    var o := Latest(rs, s);
    if o.Some? && IsFresh(o.value, at, freshnessSeconds) then o else None
  }

  function SourceOf(): Observation -> string {
    (o: Observation) => o.source
  }

  function HasActive(rs: seq<Observation>, at: int, freshnessSeconds: int): string -> bool {
    (s: string) => Active(rs, at, freshnessSeconds, s).Some?
  }

  const NoObservation := Observation(FlightDelay, 0.0, false, "", false, 0)

  function EntryOf(rs: seq<Observation>): string -> (string, Observation) {
    (s: string) => (s, var o := Latest(rs, s); if o.Some? then o.value else NoObservation)
  }

  function ActiveSources(rs: seq<Observation>, at: int, freshnessSeconds: int): seq<string> {
    Filter(HasActive(rs, at, freshnessSeconds), Dedup(Map(SourceOf(), rs)))
  }

  /** All active readings, one per source. */
  function ActiveEntries(rs: seq<Observation>, at: int, freshnessSeconds: int): Entries<string, Observation> {
    Map(EntryOf(rs), ActiveSources(rs, at, freshnessSeconds))
  }

  function EntryValue(): ((string, Observation)) -> real {
    (e: (string, Observation)) => e.1.value
  }

  function Max(x: real, y: real): real {
    if x < y then y else x
  }

  function Inlier(center: real, scale: real, pct: real): real -> bool
    requires scale > 0.0
  {
    (v: real) => Abs(v - center) / scale * 100.0 <= pct
  }

  predicate Triggers(cov: Coverage, value: real, threshold: real) {
    if cov == FlightDelay then value > threshold else value < threshold
  }

  datatype Verdict = Verdict(triggered: bool, quorumRejected: bool, filtered: nat)

  function Center(values: seq<real>): real {
    if values == [] then 0.0 else Median(values)
  }

  function Scale(center: real, threshold: real): (scale: real)
    ensures scale >= EPSILON && scale >= Abs(center) && scale >= Abs(threshold)
  {
    Max(Max(Abs(center), Abs(threshold)), EPSILON)
  }

  function Inliers(values: seq<real>, threshold: real, pct: real): seq<real> {
    Filter(Inlier(Center(values), Scale(Center(values), threshold), pct), values)
  }

  lemma {:induction false} FilterShrinks<T>(p: T -> bool, s: seq<T>)
    ensures |Filter(p, s)| <= |s|
  {
    if s != [] {
      FilterShrinks(p, s[1..]);
    }
  }

  /** Drops outliers around the median and asks for a quorum of the rest. */
  function Evaluate(values: seq<real>, cov: Coverage, c: Candidate): Verdict {
    var threshold := Threshold(c, cov);
    var inliers := Inliers(values, threshold, c.anomalyDeviationPct);
    FilterShrinks(Inlier(Center(values), Scale(Center(values), threshold), c.anomalyDeviationPct), values);
    var filtered := |values| - |inliers|;
    if |inliers| >= c.quorum && inliers != [] then Verdict(Triggers(cov, Median(inliers), threshold), false, filtered)
    else Verdict(false, true, filtered)
  }

  /** A decision is made exactly with a quorum of inliers, each a given value within the
      anomaly bound; it triggers only if one of them is past the threshold and holds back
      only if one is not. */
  lemma DecisionRestsOnInliers(values: seq<real>, cov: Coverage, c: Candidate)
    requires IsCandidate(c)
    ensures var v, threshold := Evaluate(values, cov, c), Threshold(c, cov);
      var inliers := Inliers(values, threshold, c.anomalyDeviationPct);
      && (v.quorumRejected <==> |inliers| < c.quorum) && v.filtered + |inliers| == |values|
      && (forall x :: x in inliers ==> x in values)
      && (v.triggered ==> !v.quorumRejected && exists x :: x in inliers && Triggers(cov, x, threshold))
      && (!v.triggered && !v.quorumRejected ==> exists x :: x in inliers && !Triggers(cov, x, threshold))
  {
    var threshold := Threshold(c, cov);
    var p := Inlier(Center(values), Scale(Center(values), threshold), c.anomalyDeviationPct);
    var inliers := Filter(p, values);
    FilterShrinks(p, values);
    FilterMembers(p, values);
    if inliers != [] {
      var a, b := Extremes(inliers);
      MedianWithin(inliers, inliers[a], inliers[b]);
      assert inliers[a] in inliers && inliers[b] in inliers;
    }
  }

  /** The decision at one window, recomputed from all readings up to it. */
  function Naive(sorted: seq<Observation>, key: Key, c: Candidate): Verdict {
    var rs := Filter(Upto(key.coverageType, key.at), sorted);
    Evaluate(Map(EntryValue(), ActiveEntries(rs, key.at, c.freshnessSeconds)), key.coverageType, c)
  }

  // ---------------------------------------------------------------------------
  // The tally
  // ---------------------------------------------------------------------------

  datatype Summary = Summary(baselineTriggers: nat, candidateTriggers: nat, changedToTrigger: nat,
                             changedToNoTrigger: nat, quorumRejected: nat, anomalyFiltered: nat)

  const NoSummary := Summary(0, 0, 0, 0, 0, 0)

  function One(b: bool): nat {
    if b then 1 else 0
  }

  function Add(s: Summary, baseline: bool, v: Verdict): Summary {
    Summary(s.baselineTriggers + One(baseline), s.candidateTriggers + One(v.triggered),
            s.changedToTrigger + One(!baseline && v.triggered), s.changedToNoTrigger + One(baseline && !v.triggered),
            s.quorumRejected + One(v.quorumRejected), s.anomalyFiltered + v.filtered)
  }

  predicate Baseline(w: Window) {
    exists i :: 0 <= i < |w.observations| && w.observations[i].triggered
  }

  /** The summary of coverage type `cov` over the first `k` windows between `from` and `to`. */
  function Tally(sorted: seq<Observation>, c: Candidate, from: int, to: int, cov: Coverage, k: nat): Summary
    requires k <= |Windows(sorted)|
  {
    if k == 0 then NoSummary
    else
      var before, w := Tally(sorted, c, from, to, cov, k - 1), Windows(sorted)[k - 1];
      if w.key.coverageType == cov && from <= w.key.at <= to then Add(before, Baseline(w), Naive(sorted, w.key, c))
      else before
  }

  predicate Balanced(s: Summary) {
    s.candidateTriggers - s.baselineTriggers == s.changedToTrigger - s.changedToNoTrigger
  }

  /** Every decision the candidate gains or loses is counted as changed, and no other. */
  lemma {:induction false} TallyBalances(sorted: seq<Observation>, c: Candidate, from: int, to: int, cov: Coverage, k: nat)
    requires k <= |Windows(sorted)|
    ensures Balanced(Tally(sorted, c, from, to, cov, k))
  {
    if k > 0 {
      TallyBalances(sorted, c, from, to, cov, k - 1);
    }
  }

  // ---------------------------------------------------------------------------
  // The sliding dictionary
  // ---------------------------------------------------------------------------

  /** The dictionary holds exactly the active readings. */
  ghost predicate Holds(m: Entries<string, Observation>, rs: seq<Observation>, at: int, freshnessSeconds: int) {
    DistinctKeys(m) && forall s: string :: Lookup(m, s) == Active(rs, at, freshnessSeconds, s)
  }

  function PutAll(m: Entries<string, Observation>, obs: seq<Observation>, k: nat): Entries<string, Observation>
    requires k <= |obs|
  {
    if k == 0 then m else Put(PutAll(m, obs, k - 1), obs[k - 1].source, obs[k - 1])
  }

  lemma {:induction false} PutAllLookup(m: Entries<string, Observation>, obs: seq<Observation>, k: nat, s: string)
    requires k <= |obs| && DistinctKeys(m)
    ensures DistinctKeys(PutAll(m, obs, k))
    ensures Lookup(PutAll(m, obs, k), s) == if Latest(obs[..k], s).Some? then Latest(obs[..k], s) else Lookup(m, s)
  {
    if k > 0 {
      PutAllLookup(m, obs, k - 1, s);
      assert obs[..k][..k - 1] == obs[..k - 1];
      LookupPut(PutAll(m, obs, k - 1), obs[k - 1].source, obs[k - 1], s);
      DistinctPut(PutAll(m, obs, k - 1), obs[k - 1].source, obs[k - 1]);
    }
  }

  lemma {:induction false} LatestConcat(a: seq<Observation>, b: seq<Observation>, s: string)
    ensures Latest(a + b, s) == if Latest(b, s).Some? then Latest(b, s) else Latest(a, s)
    decreases |b|
  {
    if b == [] {
      assert a + b == a;
    } else {
      assert (a + b)[..|a + b| - 1] == a + b[..|b| - 1];
      LatestConcat(a, b[..|b| - 1], s);
    }
  }

  function StillFresh(at: int, freshnessSeconds: int): Observation -> bool {
    (o: Observation) => IsFresh(o, at, freshnessSeconds)
  }

  function Slide(m: Entries<string, Observation>, obs: seq<Observation>, at: int, freshnessSeconds: int)
    : Entries<string, Observation>
  {
    Prune(StillFresh(at, freshnessSeconds), PutAll(m, obs, |obs|))
  }

  /** Adding a window's readings and dropping stale ones gives what recomputing from all
      readings gives: what went stale before is stale now. */
  lemma SlideHolds(m: Entries<string, Observation>, done: seq<Observation>, last: int,
                   obs: seq<Observation>, at: int, freshnessSeconds: int)
    requires Holds(m, done, last, freshnessSeconds) && last <= at
    ensures Holds(Slide(m, obs, at, freshnessSeconds), done + obs, at, freshnessSeconds)
  {
    var n := PutAll(m, obs, |obs|);
    PutAllLookup(m, obs, |obs|, "");
    DistinctPrune(StillFresh(at, freshnessSeconds), n);
    forall s: string
      ensures Lookup(Slide(m, obs, at, freshnessSeconds), s) == Active(done + obs, at, freshnessSeconds, s)
    {
      PutAllLookup(m, obs, |obs|, s);
      assert obs[..|obs|] == obs;
      LatestConcat(done, obs, s);
      LookupPrune(StillFresh(at, freshnessSeconds), n, s);
    }
  }

  // ---------------------------------------------------------------------------
  // The dictionary and the recomputation give the same decision
  // ---------------------------------------------------------------------------

  lemma {:induction false} LatestIs(rs: seq<Observation>, s: string)
    ensures Latest(rs, s).Some? <==> s in Map(SourceOf(), rs)
    ensures Latest(rs, s).Some? ==> Latest(rs, s).value.source == s
  {
    if rs != [] {
      var front, ids := rs[..|rs| - 1], Map(SourceOf(), rs);
      LatestIs(front, s);
      assert rs == front + [rs[|rs| - 1]];
      MapLast(SourceOf(), front, rs[|rs| - 1]);
    }
  }

  lemma ActiveSourcesAre(rs: seq<Observation>, at: int, freshnessSeconds: int)
    ensures Distinct(ActiveSources(rs, at, freshnessSeconds))
    ensures forall s: string :: s in ActiveSources(rs, at, freshnessSeconds) <==> Active(rs, at, freshnessSeconds, s).Some?
  {
    var all := Dedup(Map(SourceOf(), rs));
    DedupIs(Map(SourceOf(), rs));
    DistinctFilter(HasActive(rs, at, freshnessSeconds), all);
    FilterMembers(HasActive(rs, at, freshnessSeconds), all);
    forall s: string
      ensures s in ActiveSources(rs, at, freshnessSeconds) <==> Active(rs, at, freshnessSeconds, s).Some?
    {
      LatestIs(rs, s);
    }
  }

  lemma ActiveEntriesHold(rs: seq<Observation>, at: int, freshnessSeconds: int)
    ensures Holds(ActiveEntries(rs, at, freshnessSeconds), rs, at, freshnessSeconds)
  {
    var xs, n := ActiveSources(rs, at, freshnessSeconds), ActiveEntries(rs, at, freshnessSeconds);
    ActiveSourcesAre(rs, at, freshnessSeconds);
    forall s: string
      ensures Lookup(n, s) == Active(rs, at, freshnessSeconds, s)
    {
      var o := Active(rs, at, freshnessSeconds, s);
      if o.Some? {
        var i :| 0 <= i < |xs| && xs[i] == s;
        assert n[i] == (s, o.value);
        LookupIs(n, s, o.value);
      } else {
        forall i | 0 <= i < |n|
          ensures n[i].0 != s
        {
          assert xs[i] in xs && n[i].0 == xs[i];
        }
        LookupMissing(n, s);
      }
    }
  }

  lemma CenterPermuted(a: seq<real>, b: seq<real>)
    requires multiset(a) == multiset(b)
    ensures Center(a) == Center(b) && |a| == |b|
  {
    assert |multiset(a)| == |a| && |multiset(b)| == |b|;
    if a != [] {
      MedianForgetsOrder(a, b);
    }
  }

  lemma InliersPermuted(a: seq<real>, b: seq<real>, threshold: real, pct: real)
    requires multiset(a) == multiset(b)
    ensures multiset(Inliers(a, threshold, pct)) == multiset(Inliers(b, threshold, pct))
  {
    CenterPermuted(a, b);
    FilterPermutes(Inlier(Center(a), Scale(Center(a), threshold), pct), a, b);
  }

  lemma EvaluatePermuted(a: seq<real>, b: seq<real>, cov: Coverage, c: Candidate)
    requires multiset(a) == multiset(b)
    ensures Evaluate(a, cov, c) == Evaluate(b, cov, c)
  {
    var threshold, pct := Threshold(c, cov), c.anomalyDeviationPct;
    CenterPermuted(a, b);
    InliersPermuted(a, b, threshold, pct);
    CenterPermuted(Inliers(a, threshold, pct), Inliers(b, threshold, pct));
  }

  lemma SameDecision(m: Entries<string, Observation>, rs: seq<Observation>, at: int, cov: Coverage, c: Candidate)
    requires Holds(m, rs, at, c.freshnessSeconds)
    ensures Evaluate(Map(EntryValue(), m), cov, c) ==
            Evaluate(Map(EntryValue(), ActiveEntries(rs, at, c.freshnessSeconds)), cov, c)
  {
    var n := ActiveEntries(rs, at, c.freshnessSeconds);
    ActiveEntriesHold(rs, at, c.freshnessSeconds);
    SameLookups(m, n);
    MapPermutes(EntryValue(), m, n);
    EvaluatePermuted(Map(EntryValue(), m), Map(EntryValue(), n), cov, c);
  }

  // ---------------------------------------------------------------------------
  // The windows up to a decision hold the readings up to it
  // ---------------------------------------------------------------------------

  ghost predicate InTime(sorted: seq<Observation>) {
    forall i, j :: 0 <= i < j < |sorted| ==> sorted[i].recordedAt <= sorted[j].recordedAt
  }

  lemma SortsByTime(readings: seq<Observation>)
    ensures InTime(Sort(ByTime(), readings))
  {
    SortAscends(ByTime(), readings);
    var sorted := Sort(ByTime(), readings);
    forall i, j | 0 <= i < j < |sorted|
      ensures sorted[i].recordedAt <= sorted[j].recordedAt
    {
      assert ByTime()(sorted[i], sorted[j]);
    }
  }

  /** The key of window `j` comes strictly before that of window `k`. */
  ghost predicate StrictlyOrdered(keys: seq<Key>) {
    forall i, j :: 0 <= i < j < |keys| ==> keys[i] != keys[j] && KeyAtMost(keys[i], keys[j])
  }

  lemma KeysAre(sorted: seq<Observation>)
    ensures StrictlyOrdered(Keys(sorted))
    ensures forall k: Key :: k in Keys(sorted) <==> k in Map(KeyOf(), sorted)
  {
    var ks := Dedup(Map(KeyOf(), sorted));
    DedupIs(Map(KeyOf(), sorted));
    SortPermutes(ByKey(), ks);
    SortKeepsMembers(ByKey(), ks);
    SortAscends(ByKey(), ks);
    DistinctPermutes(ks, Keys(sorted));
    forall i, j | 0 <= i < j < |Keys(sorted)|
      ensures KeyAtMost(Keys(sorted)[i], Keys(sorted)[j])
    {
      assert ByKey()(Keys(sorted)[i], Keys(sorted)[j]);
    }
  }

  /** Every reading has its window. */
  lemma WindowOf(sorted: seq<Observation>, i: nat) returns (j: nat)
    requires i < |sorted|
    ensures j < |Keys(sorted)| && Keys(sorted)[j] == KeyOf()(sorted[i])
  {
    KeysAre(sorted);
    var ks := Map(KeyOf(), sorted);
    assert ks[i] in ks;
    j :| 0 <= j < |Keys(sorted)| && Keys(sorted)[j] == ks[i];
  }

  /** The readings of `cov` in the first `k` windows. */
  function Done(sorted: seq<Observation>, cov: Coverage, k: nat): seq<Observation>
    requires k <= |Keys(sorted)|
  {
    if k == 0 then []
    else
      var key := Keys(sorted)[k - 1];
      Done(sorted, cov, k - 1) + if key.coverageType == cov then Filter(Having(KeyOf(), key), sorted) else []
  }

  /** `k` separates the windows of `cov` up to `bound` from the later ones. */
  ghost predicate Separates(sorted: seq<Observation>, cov: Coverage, k: nat, bound: int) {
    forall j :: 0 <= j < |Keys(sorted)| && Keys(sorted)[j].coverageType == cov ==>
      (j < k <==> Keys(sorted)[j].at <= bound)
  }

  /** In time order the readings up to a second are those before it, then those of it. */
  lemma {:induction false} UptoSplits(s: seq<Observation>, cov: Coverage, at: int, bound: int)
    requires InTime(s) && at <= bound
    requires forall i :: 0 <= i < |s| && s[i].coverageType == cov ==> Second(s[i].recordedAt) <= at || Second(s[i].recordedAt) > bound
    ensures Filter(Upto(cov, bound), s) == Filter(Upto(cov, at - 1), s) + Filter(Having(KeyOf(), Key(cov, at)), s)
    decreases |s|
  {
    if s != [] {
      var front, o := s[..|s| - 1], s[|s| - 1];
      assert s == front + [o];
      UptoSplits(front, cov, at, bound);
      if Upto(cov, at - 1)(o) {
        NothingLater(front, cov, at, o);
      }
      SplitsOverLast(Upto(cov, bound), Upto(cov, at - 1), Having(KeyOf(), Key(cov, at)), front, o);
    }
  }

  lemma NothingLater(front: seq<Observation>, cov: Coverage, at: int, o: Observation)
    requires InTime(front + [o]) && Second(o.recordedAt) < at
    ensures Filter(Having(KeyOf(), Key(cov, at)), front) == []
  {
    forall i | 0 <= i < |front|
      ensures !Having(KeyOf(), Key(cov, at))(front[i])
    {
      assert (front + [o])[i] == front[i] && (front + [o])[|front|] == o;
      assert front[i].recordedAt <= o.recordedAt;
    }
    FilterNone(Having(KeyOf(), Key(cov, at)), front);
  }

  /** No window of `cov` lies between the second of window `k` and a bound before window `k + 1`. */
  lemma NothingBetween(sorted: seq<Observation>, cov: Coverage, k: nat, bound: int, i: nat)
    requires k <= |Keys(sorted)| && Separates(sorted, cov, k, bound) && i < |sorted| && sorted[i].coverageType == cov
    ensures k == 0 ==> Second(sorted[i].recordedAt) > bound
    ensures k > 0 && Keys(sorted)[k - 1].coverageType == cov ==>
              Second(sorted[i].recordedAt) <= Keys(sorted)[k - 1].at || Second(sorted[i].recordedAt) > bound
  {
    KeysAre(sorted);
    var j := WindowOf(sorted, i);
    assert Keys(sorted)[j].coverageType == cov;
  }

  lemma NothingBefore(sorted: seq<Observation>, cov: Coverage, bound: int)
    requires Separates(sorted, cov, 0, bound)
    ensures Filter(Upto(cov, bound), sorted) == []
  {
    forall i | 0 <= i < |sorted|
      ensures !Upto(cov, bound)(sorted[i])
    {
      if sorted[i].coverageType == cov {
        NothingBetween(sorted, cov, 0, bound, i);
      }
    }
    FilterNone(Upto(cov, bound), sorted);
  }

  lemma SeparatesEarlier(sorted: seq<Observation>, cov: Coverage, k: nat, bound: int)
    requires 0 < k <= |Keys(sorted)| && Separates(sorted, cov, k, bound)
    ensures var key := Keys(sorted)[k - 1];
      Separates(sorted, cov, k - 1, if key.coverageType == cov then key.at - 1 else bound)
  {
    KeysAre(sorted);
  }

  lemma DoneNext(sorted: seq<Observation>, cov: Coverage, k: nat)
    requires 0 < k <= |Keys(sorted)|
    ensures var key := Keys(sorted)[k - 1];
      Done(sorted, cov, k) == Done(sorted, cov, k - 1) +
        if key.coverageType == cov then Filter(Having(KeyOf(), key), sorted) else []
  {
  }

  lemma WindowSplits(sorted: seq<Observation>, cov: Coverage, k: nat, bound: int)
    requires InTime(sorted) && 0 < k <= |Keys(sorted)| && Separates(sorted, cov, k, bound)
    ensures var key := Keys(sorted)[k - 1];
      key.coverageType == cov ==>
        Filter(Upto(cov, bound), sorted) == Filter(Upto(cov, key.at - 1), sorted) + Filter(Having(KeyOf(), key), sorted)
  {
    if Keys(sorted)[k - 1].coverageType != cov {
      return;
    }
    var at := Keys(sorted)[k - 1].at;
    forall i | 0 <= i < |sorted| && sorted[i].coverageType == cov
      ensures Second(sorted[i].recordedAt) <= at || Second(sorted[i].recordedAt) > bound
    {
      NothingBetween(sorted, cov, k, bound, i);
    }
    UptoSplits(sorted, cov, at, bound);
  }

  lemma {:induction false} DoneIsUpto(sorted: seq<Observation>, cov: Coverage, k: nat, bound: int)
    requires InTime(sorted) && k <= |Keys(sorted)| && Separates(sorted, cov, k, bound)
    ensures Done(sorted, cov, k) == Filter(Upto(cov, bound), sorted)
    decreases k
  {
    if k == 0 {
      NothingBefore(sorted, cov, bound);
    } else {
      var key := Keys(sorted)[k - 1];
      var earlier := if key.coverageType == cov then key.at - 1 else bound;
      SeparatesEarlier(sorted, cov, k, bound);
      DoneIsUpto(sorted, cov, k - 1, earlier);
      DoneNext(sorted, cov, k);
      WindowSplits(sorted, cov, k, bound);
    }
  }

  lemma DoneAtWindow(sorted: seq<Observation>, k: nat)
    requires InTime(sorted) && k < |Keys(sorted)|
    ensures var key := Keys(sorted)[k];
      Done(sorted, key.coverageType, k + 1) == Filter(Upto(key.coverageType, key.at), sorted)
  {
    KeysAre(sorted);
    var key := Keys(sorted)[k];
    DoneIsUpto(sorted, key.coverageType, k + 1, key.at);
  }

  // ---------------------------------------------------------------------------
  // The replay
  // ---------------------------------------------------------------------------

  type Actives = map<Coverage, Entries<string, Observation>>

  /** After `k` windows the dictionary of `cov` holds the readings active at `last[cov]`. */
  ghost predicate Slid(sorted: seq<Observation>, freshnessSeconds: int, cov: Coverage, k: nat,
                       active: Actives, last: map<Coverage, int>)
    requires k <= |Keys(sorted)|
  {
    if cov !in active then Done(sorted, cov, k) == []
    else
      && cov in last && Holds(active[cov], Done(sorted, cov, k), last[cov], freshnessSeconds)
      && (forall j :: k <= j < |Keys(sorted)| ==> last[cov] <= Keys(sorted)[j].at)
  }

  ghost predicate AllSlid(sorted: seq<Observation>, freshnessSeconds: int, k: nat, active: Actives, last: map<Coverage, int>)
    requires k <= |Keys(sorted)|
  {
    forall cov: Coverage :: Slid(sorted, freshnessSeconds, cov, k, active, last)
  }

  function Get(active: Actives, cov: Coverage): Entries<string, Observation> {
    if cov in active then active[cov] else []
  }

  function Next(sorted: seq<Observation>, freshnessSeconds: int, k: nat, active: Actives): Entries<string, Observation>
    requires k < |Keys(sorted)|
  {
    var key := Keys(sorted)[k];
    Slide(Get(active, key.coverageType), Filter(Having(KeyOf(), key), sorted), key.at, freshnessSeconds)
  }

  lemma NextHolds(sorted: seq<Observation>, freshnessSeconds: int, k: nat, active: Actives, last: map<Coverage, int>)
    requires InTime(sorted) && k < |Keys(sorted)|
    requires Slid(sorted, freshnessSeconds, Keys(sorted)[k].coverageType, k, active, last)
    ensures var key := Keys(sorted)[k];
      && Done(sorted, key.coverageType, k + 1) == Filter(Upto(key.coverageType, key.at), sorted)
      && Holds(Next(sorted, freshnessSeconds, k, active), Done(sorted, key.coverageType, k + 1), key.at, freshnessSeconds)
  {
    var key := Keys(sorted)[k];
    DoneAtWindow(sorted, k);
    var last' := if key.coverageType in active then last[key.coverageType] else key.at;
    SlideHolds(Get(active, key.coverageType), Done(sorted, key.coverageType, k), last',
               Filter(Having(KeyOf(), key), sorted), key.at, freshnessSeconds);
  }

  lemma SlidNext(sorted: seq<Observation>, freshnessSeconds: int, k: nat, active: Actives, last: map<Coverage, int>)
    requires InTime(sorted) && k < |Keys(sorted)| && AllSlid(sorted, freshnessSeconds, k, active, last)
    ensures var key := Keys(sorted)[k];
      AllSlid(sorted, freshnessSeconds, k + 1,
              active[key.coverageType := Next(sorted, freshnessSeconds, k, active)], last[key.coverageType := key.at])
  {
    var key := Keys(sorted)[k];
    KeysAre(sorted);
    assert Slid(sorted, freshnessSeconds, key.coverageType, k, active, last);
    NextHolds(sorted, freshnessSeconds, k, active, last);
    var active', last', next := active[key.coverageType := Next(sorted, freshnessSeconds, k, active)],
                                last[key.coverageType := key.at], k + 1;
    forall cov: Coverage
      ensures Slid(sorted, freshnessSeconds, cov, next, active', last')
    {
      assert Slid(sorted, freshnessSeconds, cov, k, active, last);
      if cov != key.coverageType {
        assert Done(sorted, cov, next) == Done(sorted, cov, k) + [] == Done(sorted, cov, k);
      }
    }
  }

  // ---------------------------------------------------------------------------
  // The simulation
  // ---------------------------------------------------------------------------

  datatype Report = Report(readingsProcessed: nat, decisionWindows: nat, coverageTypes: map<Coverage, Summary>)

  predicate InRange(key: Key, from: int, to: int) {
    from <= key.at <= to
  }

  /** How many readings the first `k` windows between `from` and `to` hold. */
  function ReadingsIn(sorted: seq<Observation>, from: int, to: int, k: nat): nat
    requires k <= |Windows(sorted)|
  {
    if k == 0 then 0
    else
      var w := Windows(sorted)[k - 1];
      ReadingsIn(sorted, from, to, k - 1) + if InRange(w.key, from, to) then |w.observations| else 0
  }

  function WindowsIn(sorted: seq<Observation>, from: int, to: int, k: nat): nat
    requires k <= |Windows(sorted)|
  {
    if k == 0 then 0
    else WindowsIn(sorted, from, to, k - 1) + One(InRange(Windows(sorted)[k - 1].key, from, to))
  }

  /** Past the end of the simulated period nothing is counted any more. */
  lemma {:induction false} NothingAfter(sorted: seq<Observation>, c: Candidate, from: int, to: int, k: nat, n: nat)
    requires k <= n <= |Windows(sorted)| && forall j :: k <= j < n ==> Windows(sorted)[j].key.at > to
    ensures forall cov: Coverage :: Tally(sorted, c, from, to, cov, n) == Tally(sorted, c, from, to, cov, k)
    ensures ReadingsIn(sorted, from, to, n) == ReadingsIn(sorted, from, to, k)
    ensures WindowsIn(sorted, from, to, n) == WindowsIn(sorted, from, to, k)
    decreases n
  {
    if n > k {
      NothingAfter(sorted, c, from, to, k, n - 1);
    }
  }

  /** The report agrees with the recomputation over the first `k` windows. */
  ghost predicate Reports(sorted: seq<Observation>, c: Candidate, from: int, to: int, k: nat, r: Report)
    requires k <= |Windows(sorted)|
  {
    && r.readingsProcessed == ReadingsIn(sorted, from, to, k)
    && r.decisionWindows == WindowsIn(sorted, from, to, k)
    && forall cov: Coverage :: cov in r.coverageTypes && r.coverageTypes[cov] == Tally(sorted, c, from, to, cov, k)
  }

  method GroupDecisionWindows(sorted: seq<Observation>) returns (windows: seq<Window>)
    ensures windows == Windows(sorted)
  {
    var order, groups := GroupBy(KeyOf(), sorted);
    var keys := Sort(ByKey(), order);
    SortKeepsMembers(ByKey(), order);
    windows := [];
    for k := 0 to |keys|
      invariant windows == Map(WindowAt(sorted), keys[..k])
    {
      assert keys[k] in keys;
      assert HoldsGroup(KeyOf(), sorted, groups, keys[k]);
      MapNext(WindowAt(sorted), keys, k);
      windows := windows + [Window(keys[k], groups[keys[k]])];
    }
    assert keys[..|keys|] == keys;
  }

  method PutObservations(sources: Entries<string, Observation>, obs: seq<Observation>)
    returns (m: Entries<string, Observation>)
    ensures m == PutAll(sources, obs, |obs|)
  {
    m := sources;
    for i := 0 to |obs|
      invariant m == PutAll(sources, obs, i)
    {
      m := Put(m, obs[i].source, obs[i]);
    }
  }

  function Count(r: Report, w: Window, v: Verdict): Report
    requires w.key.coverageType in r.coverageTypes
  {
    Report(r.readingsProcessed + |w.observations|, r.decisionWindows + 1,
           r.coverageTypes[w.key.coverageType := Add(r.coverageTypes[w.key.coverageType], Baseline(w), v)])
  }

  lemma CountReports(sorted: seq<Observation>, c: Candidate, from: int, to: int, k: nat, r: Report)
    requires k < |Windows(sorted)| && Reports(sorted, c, from, to, k, r)
    ensures var w := Windows(sorted)[k];
      Reports(sorted, c, from, to, k + 1,
              if InRange(w.key, from, to) then Count(r, w, Naive(sorted, w.key, c)) else r)
  {
  }

  /** One decision: the window's readings enter the dictionary, stale ones leave, and the
      decision is counted if it lies in the simulated period. */
  method Decide(w: Window, c: Candidate, from: int, to: int, active: Actives, r: Report,
                ghost sorted: seq<Observation>, ghost k: nat, ghost last: map<Coverage, int>)
    returns (next: Actives, r': Report)
    requires InTime(sorted) && k < |Windows(sorted)| && w == Windows(sorted)[k] && w.key.at <= to
    requires AllSlid(sorted, c.freshnessSeconds, k, active, last) && Reports(sorted, c, from, to, k, r)
    ensures AllSlid(sorted, c.freshnessSeconds, k + 1, next, last[w.key.coverageType := w.key.at])
    ensures Reports(sorted, c, from, to, k + 1, r')
  {
    var cov := w.key.coverageType;
    SlidNext(sorted, c.freshnessSeconds, k, active, last);
    assert Slid(sorted, c.freshnessSeconds, cov, k, active, last);
    NextHolds(sorted, c.freshnessSeconds, k, active, last);
    var sources := PutObservations(Get(active, cov), w.observations);
    sources := Prune(StillFresh(w.key.at, c.freshnessSeconds), sources);
    next := active[cov := sources];
    CountReports(sorted, c, from, to, k, r);
    r' := r;
    if from <= w.key.at {
      SameDecision(sources, Filter(Upto(cov, w.key.at), sorted), w.key.at, cov, c);
      r' := Count(r, w, Evaluate(Map(EntryValue(), sources), cov, c));
    }
  }

  method Replay(sorted: seq<Observation>, c: Candidate, from: int, to: int) returns (r: Report)
    requires InTime(sorted)
    ensures Reports(sorted, c, from, to, |Windows(sorted)|, r)
  {
    var windows := GroupDecisionWindows(sorted);
    r := Report(0, 0, map[StablecoinDepeg := NoSummary, MarketCrash := NoSummary, LiquidationShield := NoSummary,
                         SmartContractRisk := NoSummary, FlightDelay := NoSummary]);
    forall cov: Coverage
      ensures cov in r.coverageTypes && r.coverageTypes[cov] == NoSummary
    {
      match cov
      case StablecoinDepeg | MarketCrash | LiquidationShield | SmartContractRisk | FlightDelay =>
    }
    var active: Actives := map[];
    ghost var last: map<Coverage, int> := map[];
    var k := 0;
    while k < |windows| && windows[k].key.at <= to
      invariant 0 <= k <= |windows|
      invariant AllSlid(sorted, c.freshnessSeconds, k, active, last)
      invariant Reports(sorted, c, from, to, k, r)
    {
      active, r := Decide(windows[k], c, from, to, active, r, sorted, k, last);
      last := last[windows[k].key.coverageType := windows[k].key.at];
      k := k + 1;
    }
    LaterWindows(sorted, to, k);
    NothingAfter(sorted, c, from, to, k, |windows|);
  }

  lemma LaterWindows(sorted: seq<Observation>, to: int, k: nat)
    requires k < |Windows(sorted)| ==> Windows(sorted)[k].key.at > to
    ensures forall j :: k <= j < |Windows(sorted)| ==> Windows(sorted)[j].key.at > to
  {
    KeysAre(sorted);
  }

  predicate AllValid(readings: seq<Observation>) {
    forall i :: 0 <= i < |readings| ==> readings[i].valid
  }

  /** The sliding replay reports exactly what recomputing every decision from scratch gives. */
  method Simulate(readings: seq<Observation>, c: Candidate, from: int, to: int) returns (r: Result<Report, Error>)
    ensures r.Failure? ==>
              r.error == (if !IsCandidate(c) then InvalidCandidate else if from >= to then InvalidWindow else InvalidReadings)
    ensures r.Success? <==>
            && 1 <= c.quorum <= 20 && 1 <= c.freshnessSeconds <= 86400 && 0.0 <= c.anomalyDeviationPct <= 1000.0
            && from < to && forall i :: 0 <= i < |readings| ==> readings[i].valid
    ensures r.Success? ==> var sorted := Sort(ByTime(), readings);
      && Reports(sorted, c, from, to, |Windows(sorted)|, r.value)
      && forall cov: Coverage :: cov in r.value.coverageTypes && Balanced(r.value.coverageTypes[cov])
  {
    if !IsCandidate(c) {
      return Failure(InvalidCandidate);
    }
    if from >= to {
      return Failure(InvalidWindow);
    }
    var sorted := Sort(ByTime(), readings);
    SortKeepsMembers(ByTime(), readings);
    for i := 0 to |sorted|
      invariant forall j :: 0 <= j < i ==> sorted[j].valid
    {
      if !sorted[i].valid {
        assert sorted[i] in sorted;
        return Failure(InvalidReadings);
      }
    }
    assert forall i :: 0 <= i < |readings| ==> readings[i] in readings;
    SortsByTime(readings);
    var report := Replay(sorted, c, from, to);
    forall cov: Coverage
      ensures cov in report.coverageTypes && Balanced(report.coverageTypes[cov])
    {
      TallyBalances(sorted, c, from, to, cov, |Windows(sorted)|);
    }
    r := Success(report);
  }
}
