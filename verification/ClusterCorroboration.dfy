/**
 Corroboration by independence cluster: one median and one weight per cluster.
 */
module ClusterCorroboration {
  import opened Wrappers
  import opened Lists
  import opened Stats

  datatype Vote = Vote(clusterId: string, weight: real, value: real)

  datatype Reason = NoReadings | InsufficientIndependentClusters

  datatype Corroboration = Corroboration(value: Option<real>, clusterCount: nat, independentWeight: real,
                                         quorumMet: bool, reason: Option<Reason>)

  datatype Error = RangeError

  // ---------------------------------------------------------------------------
  // Specification
  // ---------------------------------------------------------------------------

  function ClusterOf(): Vote -> string {
    (v: Vote) => v.clusterId
  }

  function ValueOf(): Vote -> real {
    (v: Vote) => v.value
  }

  function WeightOf(): Vote -> real {
    (v: Vote) => v.weight
  }

  function Group(votes: seq<Vote>, c: string): seq<Vote> {
    Filter(Having(ClusterOf(), c), votes)
  }

  /** The clusters that vote, each once, in order of first appearance. */
  function Clusters(votes: seq<Vote>): seq<string> {
    Dedup(Map(ClusterOf(), votes))
  }

  function Maximum(s: seq<real>): real
    requires s != []
  {
    if |s| == 1 then s[0]
    else
      var m := Maximum(s[..|s| - 1]);
      if s[|s| - 1] > m then s[|s| - 1] else m
  }

  function MedianOf(g: seq<Vote>): real {
    if g == [] then 0.0 else Median(Map(ValueOf(), g))
  }

  function HeaviestOf(g: seq<Vote>): real {
    if g == [] then 0.0 else Maximum(Map(WeightOf(), g))
  }

  function ClusterMedian(votes: seq<Vote>): string -> real {
    (c: string) => MedianOf(Group(votes, c))
  }

  function ClusterWeight(votes: seq<Vote>): string -> real {
    (c: string) => HeaviestOf(Group(votes, c))
  }

  function Medians(votes: seq<Vote>): seq<real> {
    Map(ClusterMedian(votes), Clusters(votes))
  }

  function IndependentWeight(votes: seq<Vote>): real {
    Sum(Map(ClusterWeight(votes), Clusters(votes)))
  }

  /** The median of the cluster medians, if the clusters weigh enough together. */
  function Corroborated(votes: seq<Vote>, minClusters: real): Corroboration {
    var cs, weight := Clusters(votes), IndependentWeight(votes);
    if votes == [] then Corroboration(None, 0, 0.0, false, Some(NoReadings))
    else if weight >= minClusters && cs != [] then
      Corroboration(Some(Median(Medians(votes))), |cs|, weight, true, None)
    else Corroboration(None, |cs|, weight, false, Some(InsufficientIndependentClusters))
  }

  // ---------------------------------------------------------------------------
  // Clusters
  // ---------------------------------------------------------------------------

  lemma ClustersAre(votes: seq<Vote>)
    ensures forall c: string :: c in Clusters(votes) <==> exists v: Vote :: v in votes && v.clusterId == c
    ensures votes == [] <==> Clusters(votes) == []
  {
    var ids := Map(ClusterOf(), votes);
    DedupIs(ids);
    forall c: string
      ensures c in Clusters(votes) <==> exists v: Vote :: v in votes && v.clusterId == c
    {
      if c in ids {
        var i :| 0 <= i < |ids| && ids[i] == c;
        assert votes[i] in votes;
      }
      if v: Vote :| v in votes && v.clusterId == c {
        var i :| 0 <= i < |votes| && votes[i] == v;
        assert ids[i] == c;
      }
    }
  }

  lemma GroupIsNotEmpty(votes: seq<Vote>, c: string)
    requires c in Clusters(votes)
    ensures Group(votes, c) != []
    ensures forall v: Vote :: v in Group(votes, c) <==> v in votes && v.clusterId == c
  {
    ClustersAre(votes);
    var v: Vote :| v in votes && v.clusterId == c;
    FilterMembers(Having(ClusterOf(), c), votes);
    assert v in Group(votes, c);
  }

  lemma {:induction false} MaximumIs(s: seq<real>)
    requires s != []
    ensures Maximum(s) in s && forall i :: 0 <= i < |s| ==> s[i] <= Maximum(s)
  {
    if |s| > 1 {
      MaximumIs(s[..|s| - 1]);
      assert s == s[..|s| - 1] + [s[|s| - 1]];
    }
  }

  // ---------------------------------------------------------------------------
  // A majority of clusters decides
  // ---------------------------------------------------------------------------

  /** Every vote of cluster `c` lies in `[lo, hi]`. */
  predicate AllInside(votes: seq<Vote>, c: string, lo: real, hi: real) {
    forall i :: 0 <= i < |votes| && votes[i].clusterId == c ==> Inside(votes[i].value, lo, hi)
  }

  /** How many of the first `k` clusters have all their votes in `[lo, hi]`. */
  function ClustersInside(votes: seq<Vote>, lo: real, hi: real, k: nat): nat
    requires k <= |Clusters(votes)|
  {
    if k == 0 then 0
    else ClustersInside(votes, lo, hi, k - 1) + if AllInside(votes, Clusters(votes)[k - 1], lo, hi) then 1 else 0
  }

  lemma MedianInside(votes: seq<Vote>, c: string, lo: real, hi: real)
    requires c in Clusters(votes) && AllInside(votes, c, lo, hi)
    ensures Inside(ClusterMedian(votes)(c), lo, hi)
  {
    GroupIsNotEmpty(votes, c);
    var g := Group(votes, c);
    var values := Map(ValueOf(), g);
    forall i | 0 <= i < |values|
      ensures Inside(values[i], lo, hi)
    {
      assert g[i] in g && values[i] == g[i].value;
    }
    MedianWithin(values, lo, hi);
  }

  lemma {:induction false} MediansInside(votes: seq<Vote>, lo: real, hi: real, k: nat)
    requires k <= |Clusters(votes)| == |Medians(votes)|
    ensures ClustersInside(votes, lo, hi, k) <= Count(Medians(votes), lo, hi, k)
  {
    if k > 0 {
      MediansInside(votes, lo, hi, k - 1);
      var c := Clusters(votes)[k - 1];
      assert Medians(votes)[k - 1] == ClusterMedian(votes)(c);
      if AllInside(votes, c, lo, hi) {
        MedianInside(votes, c, lo, hi);
      }
    }
  }

  /** If strictly more than half of the clusters have all their votes in `[lo, hi]` and the
      quorum is met, the value is in `[lo, hi]`, whatever and however often the others vote. */
  lemma MajorityOfClusters(votes: seq<Vote>, minClusters: real, lo: real, hi: real)
    requires 2 * ClustersInside(votes, lo, hi, |Clusters(votes)|) > |Clusters(votes)|
    requires Corroborated(votes, minClusters).quorumMet
    ensures var value := Corroborated(votes, minClusters).value; value.Some? && Inside(value.value, lo, hi)
  {
    MediansInside(votes, lo, hi, |Clusters(votes)|);
    MajorityHoldsMedian(Medians(votes), lo, hi);
  }

  // ---------------------------------------------------------------------------
  // The order of votes does not matter
  // ---------------------------------------------------------------------------

  lemma MedianOfPermuted(g: seq<Vote>, h: seq<Vote>)
    requires multiset(g) == multiset(h)
    ensures MedianOf(g) == MedianOf(h)
  {
    assert |multiset(g)| == |g| && |multiset(h)| == |h|;
    if g != [] {
      MapPermutes(ValueOf(), g, h);
      MedianForgetsOrder(Map(ValueOf(), g), Map(ValueOf(), h));
    }
  }

  lemma HeaviestIs(g: seq<Vote>)
    requires g != []
    ensures exists v: Vote :: v in g && v.weight == HeaviestOf(g)
    ensures forall v: Vote :: v in g ==> v.weight <= HeaviestOf(g)
  {
    var s := Map(WeightOf(), g);
    MaximumIs(s);
    var i :| 0 <= i < |s| && s[i] == Maximum(s);
    assert g[i] in g;
    forall v: Vote | v in g
      ensures v.weight <= HeaviestOf(g)
    {
      var j :| 0 <= j < |g| && g[j] == v;
      assert s[j] == v.weight;
    }
  }

  /** The weight of a group is settled by its heaviest members. */
  lemma SameHeaviest(g: seq<Vote>, h: seq<Vote>)
    requires g != [] && h != []
    requires forall v: Vote :: v in g ==> v in h || v.weight <= HeaviestOf(h)
    requires forall v: Vote :: v in h ==> v in g || v.weight <= HeaviestOf(g)
    ensures HeaviestOf(g) == HeaviestOf(h)
  {
    HeaviestIs(g);
    HeaviestIs(h);
  }

  lemma GroupsPermuted(a: seq<Vote>, b: seq<Vote>, c: string)
    requires multiset(a) == multiset(b)
    ensures ClusterMedian(a)(c) == ClusterMedian(b)(c) && ClusterWeight(a)(c) == ClusterWeight(b)(c)
  {
    var g, h := Group(a, c), Group(b, c);
    FilterPermutes(Having(ClusterOf(), c), a, b);
    MedianOfPermuted(g, h);
    SameMembers(g, h);
    assert |multiset(g)| == |g| && |multiset(h)| == |h|;
    if g != [] {
      SameHeaviest(g, h);
    }
  }

  lemma ClustersPermuted(a: seq<Vote>, b: seq<Vote>)
    requires multiset(a) == multiset(b)
    ensures multiset(Clusters(a)) == multiset(Clusters(b)) && |Clusters(a)| == |Clusters(b)|
  {
    MapPermutes(ClusterOf(), a, b);
    DedupPermutes(Map(ClusterOf(), a), Map(ClusterOf(), b));
    assert |multiset(Clusters(a))| == |Clusters(a)| && |multiset(Clusters(b))| == |Clusters(b)|;
  }

  lemma MediansPermuted(a: seq<Vote>, b: seq<Vote>)
    requires multiset(a) == multiset(b)
    ensures multiset(Medians(a)) == multiset(Medians(b))
  {
    var cs := Clusters(a);
    forall i | 0 <= i < |cs|
      ensures ClusterMedian(a)(cs[i]) == ClusterMedian(b)(cs[i])
    {
      GroupsPermuted(a, b, cs[i]);
    }
    MapSame(ClusterMedian(a), ClusterMedian(b), cs);
    ClustersPermuted(a, b);
    MapPermutes(ClusterMedian(b), cs, Clusters(b));
  }

  lemma WeightsPermuted(a: seq<Vote>, b: seq<Vote>)
    requires multiset(a) == multiset(b)
    ensures IndependentWeight(a) == IndependentWeight(b)
  {
    var cs := Clusters(a);
    forall i | 0 <= i < |cs|
      ensures ClusterWeight(a)(cs[i]) == ClusterWeight(b)(cs[i])
    {
      GroupsPermuted(a, b, cs[i]);
    }
    MapSame(ClusterWeight(a), ClusterWeight(b), cs);
    ClustersPermuted(a, b);
    MapPermutes(ClusterWeight(b), cs, Clusters(b));
    SumPermutes(Map(ClusterWeight(a), cs), Map(ClusterWeight(b), Clusters(b)));
  }

  /** The outcome does not depend on the order of the votes. */
  lemma CorroboratedForgetsOrder(a: seq<Vote>, b: seq<Vote>, minClusters: real)
    requires multiset(a) == multiset(b)
    ensures Corroborated(a, minClusters) == Corroborated(b, minClusters)
  {
    ClustersAre(a);
    ClustersAre(b);
    ClustersPermuted(a, b);
    WeightsPermuted(a, b);
    MediansPermuted(a, b);
    if a != [] {
      MedianForgetsOrder(Medians(a), Medians(b));
    }
  }

  // ---------------------------------------------------------------------------
  // Repeated votes add no weight
  // ---------------------------------------------------------------------------

  ghost predicate AddsNothing(votes: seq<Vote>, extra: seq<Vote>) {
    forall v: Vote :: v in extra ==> v.clusterId in Clusters(votes) && v.weight <= ClusterWeight(votes)(v.clusterId)
  }

  lemma ClustersAppended(votes: seq<Vote>, extra: seq<Vote>)
    requires forall v: Vote :: v in extra ==> v.clusterId in Clusters(votes)
    ensures Clusters(votes + extra) == Clusters(votes)
  {
    var ids, more := Map(ClusterOf(), votes), Map(ClusterOf(), extra);
    assert Map(ClusterOf(), votes + extra) == ids + more;
    DedupIs(ids);
    forall c: string | c in more
      ensures c in ids
    {
      var i :| 0 <= i < |more| && more[i] == c;
      assert extra[i] in extra;
    }
    DedupAppended(ids, more);
  }

  lemma WeightAppended(votes: seq<Vote>, extra: seq<Vote>, c: string)
    requires AddsNothing(votes, extra) && c in Clusters(votes)
    ensures ClusterWeight(votes + extra)(c) == ClusterWeight(votes)(c)
  {
    var g, h := Group(votes, c), Group(votes + extra, c);
    GroupIsNotEmpty(votes, c);
    FilterConcat(Having(ClusterOf(), c), votes, extra);
    FilterMembers(Having(ClusterOf(), c), extra);
    assert h == g + Group(extra, c);
    SameHeaviest(h, g);
  }

  /** Extra votes no heavier than their cluster's heaviest, wherever they are inserted,
      change neither the independent weight nor the number of clusters nor the quorum. */
  lemma ExtraVotesAddNoWeight(votes: seq<Vote>, extra: seq<Vote>, all: seq<Vote>, minClusters: real)
    requires AddsNothing(votes, extra) && multiset(all) == multiset(votes) + multiset(extra)
    ensures var r, s := Corroborated(all, minClusters), Corroborated(votes, minClusters);
      r.independentWeight == s.independentWeight && r.clusterCount == s.clusterCount && r.quorumMet == s.quorumMet
  {
    var cs := Clusters(votes);
    CorroboratedForgetsOrder(all, votes + extra, minClusters);
    ClustersAppended(votes, extra);
    forall i | 0 <= i < |cs|
      ensures ClusterWeight(votes + extra)(cs[i]) == ClusterWeight(votes)(cs[i])
    {
      WeightAppended(votes, extra, cs[i]);
    }
    MapSame(ClusterWeight(votes + extra), ClusterWeight(votes), cs);
    ClustersAre(votes);
    ClustersAre(votes + extra);
  }

  lemma {:induction false} SumOfOnes(s: seq<real>)
    requires forall i :: 0 <= i < |s| ==> s[i] == 1.0
    ensures Sum(s) == |s| as real
  {
    if s != [] {
      SumOfOnes(s[1..]);
    }
  }

  /** Fully weighted votes count clusters, not votes: the quorum is met exactly when at
      least `minClusters` clusters vote. */
  lemma QuorumCountsClusters(votes: seq<Vote>, minClusters: real)
    requires IsPositiveInteger(minClusters) && forall v: Vote :: v in votes ==> v.weight == 1.0
    ensures IndependentWeight(votes) == |Clusters(votes)| as real
    ensures Corroborated(votes, minClusters).quorumMet <==> |Clusters(votes)| as real >= minClusters
  {
    var cs := Clusters(votes);
    var weights := Map(ClusterWeight(votes), cs);
    forall i | 0 <= i < |weights|
      ensures weights[i] == 1.0
    {
      GroupIsNotEmpty(votes, cs[i]);
      HeaviestIs(Group(votes, cs[i]));
    }
    SumOfOnes(weights);
    ClustersAre(votes);
  }

  /** `w` is the heaviest weight and `m` the median value of the votes of cluster `c`. */
  ghost predicate Stands(votes: seq<Vote>, c: string, w: real, m: real) {
    && (exists i :: 0 <= i < |votes| && votes[i].clusterId == c && votes[i].weight == w)
    && (forall i :: 0 <= i < |votes| && votes[i].clusterId == c ==> votes[i].weight <= w)
    && IsMedian(Map(ValueOf(), Filter(Having(ClusterOf(), c), votes)), m)
  }

  lemma ClusterStands(votes: seq<Vote>, c: string)
    requires c in Clusters(votes)
    ensures Stands(votes, c, ClusterWeight(votes)(c), ClusterMedian(votes)(c))
  {
    var g := Group(votes, c);
    GroupIsNotEmpty(votes, c);
    HeaviestIs(g);
    MedianIff(Map(ValueOf(), g), MedianOf(g));
    var v: Vote :| v in g && v.weight == HeaviestOf(g);
    var i :| 0 <= i < |votes| && votes[i] == v;
    forall k | 0 <= k < |votes| && votes[k].clusterId == c
      ensures votes[k].weight <= HeaviestOf(g)
    {
      assert votes[k] in votes && votes[k] in g;
    }
  }

  /** The outcome, cluster by cluster: each contributes its heaviest weight and the median of
      its votes; the weights add up to at least the quorum, or there is no value. */
  lemma OutcomeIs(votes: seq<Vote>, minClusters: real) returns (cs: seq<string>, ws: seq<real>, ms: seq<real>)
    ensures Distinct(cs) && |ws| == |cs| && |ms| == |cs|
    ensures forall c: string :: c in cs <==> exists v: Vote :: v in votes && v.clusterId == c
    ensures forall k :: 0 <= k < |cs| ==> Stands(votes, cs[k], ws[k], ms[k])
    ensures var r := Corroborated(votes, minClusters);
      && r.clusterCount == |cs| && r.independentWeight == Sum(ws)
      && (r.quorumMet <==> votes != [] && Sum(ws) >= minClusters)
      && (r.value.Some? <==> r.quorumMet) && (r.value.Some? ==> ms != [] && IsMedian(ms, r.value.value))
      && (r.reason == Some(NoReadings) <==> votes == [])
      && (r.reason == Some(InsufficientIndependentClusters) <==> votes != [] && !r.quorumMet)
  {
    cs := Clusters(votes);
    ws, ms := Map(ClusterWeight(votes), cs), Medians(votes);
    DedupIs(Map(ClusterOf(), votes));
    ClustersAre(votes);
    forall k | 0 <= k < |cs|
      ensures Stands(votes, cs[k], ws[k], ms[k])
    {
      assert cs[k] in cs;
      ClusterStands(votes, cs[k]);
    }
    if ms != [] {
      MedianIff(ms, Median(ms));
    }
  }

  // ---------------------------------------------------------------------------
  // The algorithm
  // ---------------------------------------------------------------------------

  predicate IsPositiveInteger(x: real) {
    x == x.Floor as real && x >= 1.0
  }

  method MeasureClusters(ghost votes: seq<Vote>, order: seq<string>, groups: map<string, seq<Vote>>)
    returns (medians: seq<real>, weight: real)
    requires Grouped(ClusterOf(), votes, order, groups)
    ensures medians == Map(ClusterMedian(votes), order) && weight == Sum(Map(ClusterWeight(votes), order))
  {
    medians, weight := [], 0.0;
    for k := 0 to |order|
      invariant medians == Map(ClusterMedian(votes), order[..k])
      invariant weight == Sum(Map(ClusterWeight(votes), order[..k]))
    {
      var g := groups[order[k]];
      assert HoldsGroup(ClusterOf(), votes, groups, order[k]);
      MapNext(ClusterMedian(votes), order, k);
      MapNext(ClusterWeight(votes), order, k);
      SumConcat(Map(ClusterWeight(votes), order[..k]), [HeaviestOf(g)]);
      medians := medians + [MedianOf(g)];
      weight := weight + HeaviestOf(g);
    }
    assert order[..|order|] == order;
  }

  method Corroborate(votes: seq<Vote>, minClusters: real) returns (r: Result<Corroboration, Error>)
    ensures r == if minClusters >= 1.0 && minClusters == minClusters.Floor as real then Success(Corroborated(votes, minClusters))
                 else Failure(RangeError)
  {
    if !IsPositiveInteger(minClusters) {
      return Failure(RangeError);
    }
    if votes == [] {
      return Success(Corroboration(None, 0, 0.0, false, Some(NoReadings)));
    }
    var order, groups := GroupBy(ClusterOf(), votes);
    var medians, weight := MeasureClusters(votes, order, groups);
    ClustersAre(votes);
    if weight >= minClusters {
      r := Success(Corroboration(Some(Median(medians)), |order|, weight, true, None));
    } else {
      r := Success(Corroboration(None, |order|, weight, false, Some(InsufficientIndependentClusters)));
    }
  }
}
