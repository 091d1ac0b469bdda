/**
 The attack-cost model: what it costs to corrupt a feed under a quorum policy.

 Money is an unbounded integer. An unknown cost is `None`, an unknown or non-finite
 independence weight too.
 */
module AttackCost {
  import opened Wrappers
  import opened Arithmetic
  import opened Sorting

  datatype Source = Source(independenceWeightBps: Option<real>, bribeCost: Option<int>)

  datatype Operator = Operator(bond: int, keyCompromiseCost: Option<int>)

  datatype Policy = Policy(sourceQuorum: int, keyQuorum: int, defaultSourceBribeCost: int,
                           defaultKeyCompromiseCost: int, safetyFactorBps: real)

  datatype Feed = Feed(sources: seq<Source>, operators: seq<Operator>, policy: Policy, maxPayoutExposure: int)

  datatype Evaluation = Evaluation(sourceBriberyCost: int, collusionThresholdCost: int, keyCompromiseCost: int,
                                   attackCost: int, maxSupportablePayout: int, impliedMinimumBond: int, withinBound: bool)

  datatype Error = QuorumTooLarge | FactorNotPositive | DivisionByZero

  const BPS_DENOMINATOR := 10000

  // ---------------------------------------------------------------------------
  // Selections
  // ---------------------------------------------------------------------------

  /** How many of the first `n` are chosen. */
  function Chosen(mask: seq<bool>, n: nat): nat
    requires n <= |mask|
  {
    if n == 0 then 0 else Chosen(mask, n - 1) + if mask[n - 1] then 1 else 0
  }

  /** What the chosen ones among the first `n` cost together. */
  function Total(costs: seq<int>, mask: seq<bool>, n: nat): int
    requires n <= |costs| && n <= |mask|
  {
    if n == 0 then 0 else Total(costs, mask, n - 1) + if mask[n - 1] then costs[n - 1] else 0
  }

  /** A choice of exactly `k` of the costs. */
  predicate IsSelection(costs: seq<int>, k: int, mask: seq<bool>) {
    |mask| == |costs| && Chosen(mask, |mask|) == k
  }

  function AtMost(): (int, int) -> bool {
    (a: int, b: int) => a <= b
  }

  function SumOf(s: seq<int>, n: nat): int
    requires n <= |s|
  {
    if n == 0 then 0 else SumOf(s, n - 1) + s[n - 1]
  }

  /** The sum of the `k` smallest. */
  function Cheapest(costs: seq<int>, k: nat): int {
    SortKeepsMembers(AtMost(), costs);
    SumOf(Sort(AtMost(), costs), if k <= |costs| then k else |costs|)
  }

  /** How far a cost lies below a threshold. */
  function Gap(cost: int, theta: int): nat {
    if cost < theta then theta - cost else 0
  }

  function Gaps(costs: seq<int>, theta: int): nat {
    if costs == [] then 0 else Gap(costs[0], theta) + Gaps(costs[1..], theta)
  }

  lemma {:induction false} GapsLast(costs: seq<int>, theta: int, n: nat)
    requires n < |costs|
    ensures Gaps(costs[..n + 1], theta) == Gaps(costs[..n], theta) + Gap(costs[n], theta)
    decreases n
  {
    var a, b := costs[..n + 1], costs[..n];
    if n > 0 {
      GapsLast(costs[1..], theta, n - 1);
      assert a[1..] == costs[1..][..n] && b[1..] == costs[1..][..n - 1];
    } else {
      assert a == [costs[0]] && a[1..] == [];
    }
  }

  /** A selection cannot beat the threshold by more than all gaps together. */
  lemma {:induction false} SelectionAbove(costs: seq<int>, mask: seq<bool>, theta: int, n: nat)
    requires n <= |costs| && n <= |mask|
    ensures Total(costs, mask, n) >= Chosen(mask, n) * theta - Gaps(costs[..n], theta)
  {
    if n > 0 {
      SelectionAbove(costs, mask, theta, n - 1);
      GapsLast(costs, theta, n - 1);
      OneMore(Chosen(mask, n - 1) + 1, theta);
    }
  }

  lemma {:induction false} GapsInsert(x: int, s: seq<int>, theta: int)
    ensures Gaps(Insert(AtMost(), x, s), theta) == Gap(x, theta) + Gaps(s, theta)
  {
    if s == [] || AtMost()(x, s[0]) {
      assert ([x] + s)[1..] == s;
    } else {
      var rest := Insert(AtMost(), x, s[1..]);
      GapsInsert(x, s[1..], theta);
      assert ([s[0]] + rest)[1..] == rest;
    }
  }

  lemma {:induction false} GapsSorted(s: seq<int>, theta: int)
    ensures Gaps(Sort(AtMost(), s), theta) == Gaps(s, theta)
  {
    if s != [] {
      GapsSorted(s[1..], theta);
      GapsInsert(s[0], Sort(AtMost(), s[1..]), theta);
    }
  }

  /** Below the threshold every element contributes its gap, above it none does. */
  lemma {:induction false} PrefixMeets(t: seq<int>, theta: int, k: nat, n: nat)
    requires k <= n <= |t| && (forall i :: 0 <= i < k ==> t[i] <= theta) && (forall i :: k <= i < n ==> t[i] >= theta)
    ensures SumOf(t, k) == k * theta - Gaps(t[..n], theta)
    decreases n
  {
    if n == 0 {
      assert t[..0] == [];
    } else {
      GapsLast(t, theta, n - 1);
      if n > k {
        PrefixMeets(t, theta, k, n - 1);
      } else {
        PrefixMeets(t, theta, k - 1, n - 1);
        OneMore(k, theta);
      }
    }
  }

  lemma SortsUp(costs: seq<int>)
    ensures var t := Sort(AtMost(), costs); |t| == |costs| && forall i, j :: 0 <= i < j < |t| ==> t[i] <= t[j]
  {
    var t := Sort(AtMost(), costs);
    SortAscends(AtMost(), costs);
    SortKeepsMembers(AtMost(), costs);
    forall i, j | 0 <= i < j < |t|
      ensures t[i] <= t[j]
    {
      assert AtMost()(t[i], t[j]);
    }
  }

  /** No selection of `k` costs less than the `k` cheapest. */
  lemma CheapestIsLeast(costs: seq<int>, k: nat, mask: seq<bool>)
    requires k <= |costs| && IsSelection(costs, k, mask)
    ensures Cheapest(costs, k) <= Total(costs, mask, |costs|)
  {
    var t := Sort(AtMost(), costs);
    SortsUp(costs);
    if k > 0 {
      var theta := t[k - 1];
      SelectionAbove(costs, mask, theta, |costs|);
      PrefixMeets(t, theta, k, |t|);
      GapsSorted(costs, theta);
      assert costs[..|costs|] == costs && t[..|t|] == t;
    } else {
      NothingChosen(costs, mask, |costs|);
    }
  }

  lemma {:induction false} NothingChosen(costs: seq<int>, mask: seq<bool>, n: nat)
    requires n <= |costs| && n <= |mask| && Chosen(mask, n) == 0
    ensures Total(costs, mask, n) == 0
  {
    if n > 0 {
      NothingChosen(costs, mask, n - 1);
    }
  }

  // A selection of the sorted costs is a selection of the costs themselves.

  lemma {:induction false} ConsTotals(x: int, s: seq<int>, b: bool, mask: seq<bool>, n: nat)
    requires n <= |s| && n <= |mask|
    ensures Total([x] + s, [b] + mask, n + 1) == (if b then x else 0) + Total(s, mask, n)
    ensures Chosen([b] + mask, n + 1) == (if b then 1 else 0) + Chosen(mask, n)
  {
    if n > 0 {
      ConsTotals(x, s, b, mask, n - 1);
      assert ([x] + s)[n] == s[n - 1] && ([b] + mask)[n] == mask[n - 1];
    } else {
      assert Total([x] + s, [b] + mask, 0) == 0 && Chosen([b] + mask, 0) == 0;
    }
  }

  /** Total and number of a mask on a whole list. */
  ghost predicate Amounts(s: seq<int>, mask: seq<bool>, k: nat, total: int) {
    |mask| == |s| && Chosen(mask, |s|) == k && Total(s, mask, |s|) == total
  }

  lemma ConsAmounts(x: int, s: seq<int>, b: bool, mask: seq<bool>, k: nat, total: int)
    requires Amounts(s, mask, k, total)
    ensures Amounts([x] + s, [b] + mask, k + (if b then 1 else 0), total + (if b then x else 0))
  {
    ConsTotals(x, s, b, mask, |s|);
  }

  lemma UnconsAmounts(s: seq<int>, mask: seq<bool>, k: nat, total: int) returns (k': nat, total': int)
    requires s != [] && Amounts(s, mask, k, total)
    ensures Amounts(s[1..], mask[1..], k', total')
    ensures k == k' + (if mask[0] then 1 else 0) && total == total' + (if mask[0] then s[0] else 0)
  {
    k', total' := Chosen(mask[1..], |s| - 1), Total(s[1..], mask[1..], |s| - 1);
    ConsTotals(s[0], s[1..], mask[0], mask[1..], |s| - 1);
    assert s == [s[0]] + s[1..] && mask == [mask[0]] + mask[1..];
  }

  lemma {:induction false} UninsertMask(x: int, s: seq<int>, mask: seq<bool>, k: nat, total: int)
    returns (b: bool, rest: seq<bool>, k': nat, total': int)
    requires Amounts(Insert(AtMost(), x, s), mask, k, total)
    ensures Amounts(s, rest, k', total')
    ensures k == k' + (if b then 1 else 0) && total == total' + (if b then x else 0)
    decreases |s|
  {
    var t := Insert(AtMost(), x, s);
    k', total' := UnconsAmounts(t, mask, k, total);
    if s == [] || AtMost()(x, s[0]) {
      b, rest := mask[0], mask[1..];
      assert t[1..] == s;
    } else {
      assert t[1..] == Insert(AtMost(), x, s[1..]);
      var more;
      b, more, k', total' := UninsertMask(x, s[1..], mask[1..], k', total');
      ConsAmounts(s[0], s[1..], mask[0], more, k', total');
      assert s == [s[0]] + s[1..];
      rest := [mask[0]] + more;
      k', total' := k' + (if mask[0] then 1 else 0), total' + (if mask[0] then s[0] else 0);
    }
  }

  lemma {:induction false} UnsortMask(s: seq<int>, mask: seq<bool>, k: nat, total: int) returns (original: seq<bool>)
    requires Amounts(Sort(AtMost(), s), mask, k, total)
    ensures Amounts(s, original, k, total)
    decreases |s|
  {
    if s == [] {
      original := mask;
    } else {
      var b, rest, k', total' := UninsertMask(s[0], Sort(AtMost(), s[1..]), mask, k, total);
      var tail := UnsortMask(s[1..], rest, k', total');
      ConsAmounts(s[0], s[1..], b, tail, k', total');
      assert s == [s[0]] + s[1..];
      original := [b] + tail;
    }
  }

  function FirstOnes(n: nat, k: nat): seq<bool> {
    seq(n, i => i < k)
  }

  lemma {:induction false} FirstOnesTotal(t: seq<int>, k: nat, n: nat)
    requires k <= |t| && n <= |t|
    ensures var m := if n < k then n else k;
      Total(t, FirstOnes(|t|, k), n) == SumOf(t, m) && Chosen(FirstOnes(|t|, k), n) == m
  {
    if n > 0 {
      FirstOnesTotal(t, k, n - 1);
    }
  }

  /** Some selection of `k` costs exactly what the `k` cheapest do. */
  lemma CheapestIsAttained(costs: seq<int>, k: nat) returns (mask: seq<bool>)
    requires k <= |costs|
    ensures IsSelection(costs, k, mask) && Total(costs, mask, |costs|) == Cheapest(costs, k)
  {
    var t := Sort(AtMost(), costs);
    SortKeepsMembers(AtMost(), costs);
    FirstOnesTotal(t, k, |t|);
    mask := UnsortMask(costs, FirstOnes(|t|, k), k, Cheapest(costs, k));
  }

  // ---------------------------------------------------------------------------
  // Costs
  // ---------------------------------------------------------------------------

  function BribeCost(s: Source, policy: Policy): int {
    if s.bribeCost.Some? then s.bribeCost.value else policy.defaultSourceBribeCost
  }

  /** Truncation toward zero. */
  function Trunc(x: real): int {
    if x >= 0.0 then x.Floor else -((-x).Floor)
  }

  /** Whole basis points from 0 to 10000; unknown independence is none. */
  function IndependenceBps(weight: Option<real>): (bps: int)
    ensures 0 <= bps <= BPS_DENOMINATOR
  {
    if weight.None? then 0
    else
      var w := Trunc(weight.value);
      if w < 0 then 0 else if w > BPS_DENOMINATOR then BPS_DENOMINATOR else w
  }

  function CeilDiv(numerator: int, denominator: int): int
    requires denominator > 0
  {
    if numerator <= 0 then 0 else (numerator + denominator - 1) / denominator
  }

  function ApplyBps(value: int, bps: int): int {
    if value <= 0 then 0 else CeilDiv(value * bps, BPS_DENOMINATOR)
  }

  function CollusionCost(s: Source, policy: Policy): int {
    ApplyBps(BribeCost(s, policy), BPS_DENOMINATOR - IndependenceBps(s.independenceWeightBps))
  }

  function CompromiseCost(o: Operator, policy: Policy): int {
    var key := if o.keyCompromiseCost.Some? then o.keyCompromiseCost.value else policy.defaultKeyCompromiseCost;
    if key > o.bond then key else o.bond
  }

  function BribeCosts(sources: seq<Source>, policy: Policy): seq<int> {
    seq(|sources|, i requires 0 <= i < |sources| => BribeCost(sources[i], policy))
  }

  function CollusionCosts(sources: seq<Source>, policy: Policy): seq<int> {
    seq(|sources|, i requires 0 <= i < |sources| => CollusionCost(sources[i], policy))
  }

  function CompromiseCosts(operators: seq<Operator>, policy: Policy): seq<int> {
    seq(|operators|, i requires 0 <= i < |operators| => CompromiseCost(operators[i], policy))
  }

  /** The least that reaching a quorum can cost. */
  function QuorumCost(costs: seq<int>, quorum: int): Result<int, Error> {
    if quorum <= 0 then Success(0)
    else if quorum > |costs| then Failure(QuorumTooLarge)
    else Success(Cheapest(costs, quorum))
  }

  /** A quorum cost is the minimum over all selections of that size, and fails exactly when
      there is none. */
  lemma QuorumCostIsMinimum(costs: seq<int>, quorum: nat)
    ensures QuorumCost(costs, quorum).Success? <==> quorum <= |costs|
    ensures quorum <= |costs| ==>
              && (exists mask :: IsSelection(costs, quorum, mask) && Total(costs, mask, |costs|) == QuorumCost(costs, quorum).value)
              && (forall mask :: IsSelection(costs, quorum, mask) ==> QuorumCost(costs, quorum).value <= Total(costs, mask, |costs|))
  {
    if quorum <= |costs| {
      assert quorum == 0 ==> Cheapest(costs, quorum) == 0;
      var mask := CheapestIsAttained(costs, quorum);
      forall mask: seq<bool> | IsSelection(costs, quorum, mask)
        ensures QuorumCost(costs, quorum).value <= Total(costs, mask, |costs|)
      {
        CheapestIsLeast(costs, quorum, mask);
      }
    }
  }

  lemma {:induction false} TotalsCompare(a: seq<int>, b: seq<int>, mask: seq<bool>, n: nat)
    requires n <= |a| && n <= |b| && n <= |mask| && forall i :: 0 <= i < n ==> a[i] <= b[i]
    ensures Total(a, mask, n) <= Total(b, mask, n)
  {
    if n > 0 {
      TotalsCompare(a, b, mask, n - 1);
    }
  }

  /** Lower costs make every quorum cheaper. */
  lemma CheaperQuorum(a: seq<int>, b: seq<int>, quorum: int)
    requires |a| == |b| && quorum <= |a| && forall i :: 0 <= i < |a| ==> a[i] <= b[i]
    ensures QuorumCost(a, quorum).value <= QuorumCost(b, quorum).value
  {
    if quorum > 0 {
      var mask := CheapestIsAttained(b, quorum);
      TotalsCompare(a, b, mask, |a|);
      CheapestIsLeast(a, quorum, mask);
    }
  }

  lemma CeilDivIsLeast(numerator: int, denominator: int, q: int)
    requires denominator > 0 && numerator >= 0
    ensures q >= CeilDiv(numerator, denominator) <==> q * denominator >= numerator
  {
    if numerator == 0 {
      if q < 0 {
        NextMultiple(q, 0, denominator);
      }
    } else {
      CeilingIsLeast(numerator, denominator, q);
    }
  }

  lemma ShareIsNoMore(value: int, bps: int)
    requires value >= 0 && 0 <= bps <= BPS_DENOMINATOR
    ensures 0 <= ApplyBps(value, bps) <= value
  {
    if value > 0 {
      assert 0 <= value * bps <= value * BPS_DENOMINATOR;
      CeilDivIsLeast(value * bps, BPS_DENOMINATOR, value);
    }
  }

  predicate NonNegativeCosts(sources: seq<Source>, operators: seq<Operator>, policy: Policy) {
    && (forall i :: 0 <= i < |sources| ==> BribeCost(sources[i], policy) >= 0)
    && (forall i :: 0 <= i < |operators| ==> CompromiseCost(operators[i], policy) >= 0)
  }

  /** Collusion is never dearer than bribery. */
  lemma CollusionAtMostBribery(sources: seq<Source>, policy: Policy)
    requires policy.sourceQuorum <= |sources| && forall i :: 0 <= i < |sources| ==> BribeCost(sources[i], policy) >= 0
    ensures QuorumCost(CollusionCosts(sources, policy), policy.sourceQuorum).value
            <= QuorumCost(BribeCosts(sources, policy), policy.sourceQuorum).value
  {
    var a, b := CollusionCosts(sources, policy), BribeCosts(sources, policy);
    forall i | 0 <= i < |a|
      ensures a[i] <= b[i]
    {
      ShareIsNoMore(BribeCost(sources[i], policy), BPS_DENOMINATOR - IndependenceBps(sources[i].independenceWeightBps));
    }
    CheaperQuorum(a, b, policy.sourceQuorum);
  }

  // ---------------------------------------------------------------------------
  // The evaluation
  // ---------------------------------------------------------------------------

  function MaxSupportablePayout(attackCost: int, safetyFactorBps: real): Result<int, Error> {
    if safetyFactorBps <= 0.0 then Failure(FactorNotPositive)
    else if attackCost <= 0 then Success(0)
    else if Trunc(safetyFactorBps) == 0 then Failure(DivisionByZero)
    else Success(attackCost / Trunc(safetyFactorBps))
  }

  function ImpliedMinimumBond(exposure: int, keyQuorum: int, safetyFactorBps: real): Result<int, Error> {
    if safetyFactorBps <= 0.0 then Failure(FactorNotPositive)
    else if keyQuorum <= 0 then Success(0)
    else Success(CeilDiv(exposure * Trunc(safetyFactorBps), keyQuorum))
  }

  function Least(a: int, b: int, c: int): int {
    if a <= b && a <= c then a else if b <= c then b else c
  }

  function Evaluate(feed: Feed): Result<Evaluation, Error> {
    var p := feed.policy;
    var bribery, collusion, keys :=
      QuorumCost(BribeCosts(feed.sources, p), p.sourceQuorum),
      QuorumCost(CollusionCosts(feed.sources, p), p.sourceQuorum),
      QuorumCost(CompromiseCosts(feed.operators, p), p.keyQuorum);
    if bribery.Failure? then Failure(bribery.error)
    else if collusion.Failure? then Failure(collusion.error)
    else if keys.Failure? then Failure(keys.error)
    else
      var attack := Least(bribery.value, collusion.value, keys.value);
      var payout := MaxSupportablePayout(attack, p.safetyFactorBps);
      if payout.Failure? then Failure(payout.error)
      else
        var bond := ImpliedMinimumBond(feed.maxPayoutExposure, p.keyQuorum, p.safetyFactorBps);
        if bond.Failure? then Failure(bond.error)
        else
          Success(Evaluation(bribery.value, collusion.value, keys.value, attack, payout.value, bond.value,
                             feed.maxPayoutExposure <= payout.value))
  }

  lemma {:induction false} SumNonNegative(s: seq<int>, n: nat)
    requires n <= |s| && forall i :: 0 <= i < n ==> s[i] >= 0
    ensures SumOf(s, n) >= 0
  {
    if n > 0 {
      SumNonNegative(s, n - 1);
    }
  }

  lemma QuorumCostNonNegative(costs: seq<int>, quorum: int)
    requires quorum <= |costs| && forall i :: 0 <= i < |costs| ==> costs[i] >= 0
    ensures QuorumCost(costs, quorum).value >= 0
  {
    var t := Sort(AtMost(), costs);
    SortKeepsMembers(AtMost(), costs);
    forall i | 0 <= i < |t|
      ensures t[i] >= 0
    {
      assert t[i] in t && t[i] in costs;
    }
    if quorum > 0 {
      SumNonNegative(t, quorum);
    }
  }

  lemma AttackCostNonNegative(feed: Feed)
    requires NonNegativeCosts(feed.sources, feed.operators, feed.policy) && Evaluate(feed).Success?
    ensures Evaluate(feed).value.attackCost >= 0
  {
    var p := feed.policy;
    var collusion := CollusionCosts(feed.sources, p);
    forall i | 0 <= i < |collusion|
      ensures collusion[i] >= 0
    {
      ShareIsNoMore(BribeCost(feed.sources[i], p), BPS_DENOMINATOR - IndependenceBps(feed.sources[i].independenceWeightBps));
    }
    QuorumCostNonNegative(BribeCosts(feed.sources, p), p.sourceQuorum);
    QuorumCostNonNegative(collusion, p.sourceQuorum);
    QuorumCostNonNegative(CompromiseCosts(feed.operators, p), p.keyQuorum);
  }

  lemma FloorIsMost(cost: int, factor: int, exposure: int)
    requires cost >= 0 && factor >= 1
    ensures exposure <= cost / factor <==> exposure * factor <= cost
  {
    DivMod(cost, factor);
    NextMultiple(cost / factor, exposure, factor);
    NextMultiple(exposure, cost / factor, factor);
  }

  /** For non-negative costs and a factor of at least one basis point, the exposure is within
      bound exactly when exposure times the factor is at most the attack cost. */
  lemma WithinBoundIff(feed: Feed)
    requires NonNegativeCosts(feed.sources, feed.operators, feed.policy) && Evaluate(feed).Success?
    requires feed.policy.safetyFactorBps >= 1.0
    ensures Evaluate(feed).value.withinBound <==>
            feed.maxPayoutExposure * Trunc(feed.policy.safetyFactorBps) <= Evaluate(feed).value.attackCost
  {
    AttackCostNonNegative(feed);
    FloorIsMost(Evaluate(feed).value.attackCost, Trunc(feed.policy.safetyFactorBps), feed.maxPayoutExposure);
  }

  /** A factor below one basis point truncates to zero: the evaluation then fails exactly
      when an attack costs something, ... */
  lemma FractionalFactor(attackCost: int, safetyFactorBps: real)
    requires 0.0 < safetyFactorBps < 1.0
    ensures MaxSupportablePayout(attackCost, safetyFactorBps) == if attackCost > 0 then Failure(DivisionByZero) else Success(0)
  {
  }

  /** ... and otherwise the equivalence holds exactly for exposures that are not positive. */
  lemma FractionalBoundIff(feed: Feed)
    requires NonNegativeCosts(feed.sources, feed.operators, feed.policy) && Evaluate(feed).Success?
    requires 0.0 < feed.policy.safetyFactorBps < 1.0
    ensures (Evaluate(feed).value.withinBound <==>
             feed.maxPayoutExposure * Trunc(feed.policy.safetyFactorBps) <= Evaluate(feed).value.attackCost)
            <==> feed.maxPayoutExposure <= 0
  {
    AttackCostNonNegative(feed);
    FractionalFactor(Evaluate(feed).value.attackCost, feed.policy.safetyFactorBps);
  }

  /** A feed that costs nothing to attack, with half a basis point of safety and exposure 1,
      is refused although 1 times 0 does not exceed 0. */
  lemma FractionalFactorRefuses() returns (feed: Feed)
    ensures feed.maxPayoutExposure * Trunc(feed.policy.safetyFactorBps) <= 0
    ensures Evaluate(feed).Success? && Evaluate(feed).value.attackCost == 0 && !Evaluate(feed).value.withinBound
  {
    feed := Feed([], [], Policy(0, 0, 0, 0, 0.5), 1);
  }

  lemma {:induction false} ManyTimes(s: seq<int>, m: int, n: nat)
    requires n <= |s| && forall i :: 0 <= i < n ==> s[i] >= m
    ensures SumOf(s, n) >= n * m
  {
    if n > 0 {
      ManyTimes(s, m, n - 1);
      OneMore(n, m);
    }
  }

  /** A quorum of shares of what is needed covers it. */
  lemma SharesCover(costs: seq<int>, k: nat, need: int)
    requires 1 <= k <= |costs| && forall i :: 0 <= i < |costs| ==> costs[i] >= CeilDiv(need, k)
    ensures Cheapest(costs, k) >= need
  {
    var t, m := Sort(AtMost(), costs), CeilDiv(need, k);
    SortKeepsMembers(AtMost(), costs);
    forall i | 0 <= i < |t|
      ensures t[i] >= m
    {
      assert t[i] in t && t[i] in costs;
    }
    ManyTimes(t, m, k);
    EnoughShares(need, k);
  }

  lemma EnoughShares(need: int, k: nat)
    requires k >= 1
    ensures k * CeilDiv(need, k) >= need
  {
    if need >= 0 {
      CeilDivIsLeast(need, k, CeilDiv(need, k));
    }
  }

  /** If every bond is at least the implied minimum, compromising a quorum of keys costs at
      least exposure times the safety factor. */
  lemma BondsCoverExposure(feed: Feed)
    requires Evaluate(feed).Success? && feed.policy.keyQuorum >= 1
    requires forall i :: 0 <= i < |feed.operators| ==> feed.operators[i].bond >= Evaluate(feed).value.impliedMinimumBond
    ensures Evaluate(feed).value.keyCompromiseCost >= feed.maxPayoutExposure * Trunc(feed.policy.safetyFactorBps)
  {
    var need := feed.maxPayoutExposure * Trunc(feed.policy.safetyFactorBps);
    var costs := CompromiseCosts(feed.operators, feed.policy);
    SharesCover(costs, feed.policy.keyQuorum, need);
  }

  // ---------------------------------------------------------------------------
  // What the figures are
  // ---------------------------------------------------------------------------

  /** `v` is what the cheapest selection of `k` costs; no selection is needed for none. */
  ghost predicate IsMinimum(costs: seq<int>, k: int, v: int) {
    if k <= 0 then v == 0
    else
      && (exists mask :: IsSelection(costs, k, mask) && Total(costs, mask, |costs|) == v)
      && (forall mask :: IsSelection(costs, k, mask) ==> v <= Total(costs, mask, |costs|))
  }

  lemma QuorumCostIs(costs: seq<int>, quorum: int)
    requires QuorumCost(costs, quorum).Success?
    ensures IsMinimum(costs, quorum, QuorumCost(costs, quorum).value)
  {
    if quorum > 0 {
      QuorumCostIsMinimum(costs, quorum);
    }
  }

  /** The three costs are the cheapest quorums of bribes, colluding sources and operators, and
      the attack costs as much as the cheapest of the three. */
  lemma AttackIsCheapestPath(feed: Feed)
    requires Evaluate(feed).Success?
    ensures var e, p := Evaluate(feed).value, feed.policy;
      && IsMinimum(BribeCosts(feed.sources, p), p.sourceQuorum, e.sourceBriberyCost)
      && IsMinimum(CollusionCosts(feed.sources, p), p.sourceQuorum, e.collusionThresholdCost)
      && IsMinimum(CompromiseCosts(feed.operators, p), p.keyQuorum, e.keyCompromiseCost)
      && e.attackCost <= e.sourceBriberyCost && e.attackCost <= e.collusionThresholdCost
      && e.attackCost <= e.keyCompromiseCost
      && e.attackCost in {e.sourceBriberyCost, e.collusionThresholdCost, e.keyCompromiseCost}
  {
    var p := feed.policy;
    QuorumCostIs(BribeCosts(feed.sources, p), p.sourceQuorum);
    QuorumCostIs(CollusionCosts(feed.sources, p), p.sourceQuorum);
    QuorumCostIs(CompromiseCosts(feed.operators, p), p.keyQuorum);
  }

  /** `bps` are the whole basis points of a weight between 0 and 10000; a weight outside is
      cut off, an unknown one counts as none. */
  predicate IsIndependence(weight: Option<real>, bps: int) {
    match weight
    case None => bps == 0
    case Some(w) =>
      if w <= 0.0 then bps == 0
      else if w >= 10000.0 then bps == 10000
      else bps as real <= w < bps as real + 1.0
  }

  lemma IndependenceIs(weight: Option<real>)
    ensures IsIndependence(weight, IndependenceBps(weight))
  {
  }

  /** A colluding source costs the least amount that covers its dependent share of the bribe. */
  lemma CollusionIsShare(s: Source, policy: Policy, bps: int, amount: int)
    requires IsIndependence(s.independenceWeightBps, bps)
    ensures var bribe := if s.bribeCost.Some? then s.bribeCost.value else policy.defaultSourceBribeCost;
      && BribeCost(s, policy) == bribe
      && (bribe <= 0 ==> CollusionCost(s, policy) == 0)
      && (bribe > 0 ==> (amount >= CollusionCost(s, policy) <==> amount * 10000 >= bribe * (10000 - bps)))
  {
    IndependenceIs(s.independenceWeightBps);
    IndependenceIsOne(s.independenceWeightBps, bps, IndependenceBps(s.independenceWeightBps));
    var bribe := BribeCost(s, policy);
    if bribe > 0 {
      assert bribe * (10000 - bps) >= 0;
      CeilDivIsLeast(bribe * (10000 - bps), 10000, amount);
    }
  }

  lemma IndependenceIsOne(weight: Option<real>, a: int, b: int)
    requires IsIndependence(weight, a) && IsIndependence(weight, b)
    ensures a == b && 0 <= a <= 10000
  {
  }

  /** Compromising an operator costs its key or its bond, whichever is more. */
  lemma CompromiseIsDearer(o: Operator, policy: Policy)
    ensures var key, c := if o.keyCompromiseCost.Some? then o.keyCompromiseCost.value else policy.defaultKeyCompromiseCost,
                          CompromiseCost(o, policy);
      c >= key && c >= o.bond && (c == key || c == o.bond)
  {
  }

  /** The payout is the largest the attack cost supports at the whole safety factor, the bond
      the least that lets a key quorum cover the exposure, and the feed is within bound
      exactly if its exposure is at most the payout. */
  lemma PayoutAndBond(feed: Feed, x: int)
    requires Evaluate(feed).Success? && feed.policy.safetyFactorBps >= 1.0
    ensures var e, factor := Evaluate(feed).value, feed.policy.safetyFactorBps.Floor;
      && (e.attackCost <= 0 ==> e.maxSupportablePayout == 0)
      && (e.attackCost > 0 ==> (x <= e.maxSupportablePayout <==> x * factor <= e.attackCost))
      && (feed.policy.keyQuorum <= 0 ==> e.impliedMinimumBond == 0)
      && (feed.policy.keyQuorum > 0 && feed.maxPayoutExposure >= 0 ==>
            (x >= e.impliedMinimumBond <==> x * feed.policy.keyQuorum >= feed.maxPayoutExposure * factor))
      && (e.withinBound <==> feed.maxPayoutExposure <= e.maxSupportablePayout)
  {
    var e, factor := Evaluate(feed).value, feed.policy.safetyFactorBps.Floor;
    if e.attackCost > 0 {
      FloorIsMost(e.attackCost, factor, x);
    }
    if feed.policy.keyQuorum > 0 && feed.maxPayoutExposure >= 0 {
      assert feed.maxPayoutExposure * factor >= 0;
      CeilDivIsLeast(feed.maxPayoutExposure * factor, feed.policy.keyQuorum, x);
    }
  }

  /** The evaluation fails exactly if a quorum asks for more than there are, the factor is not
      positive, or it is a fraction of a basis point while an attack costs something. */
  lemma EvaluationFailsIff(feed: Feed)
    ensures var p := feed.policy;
      var short := p.sourceQuorum > |feed.sources| || p.keyQuorum > |feed.operators|;
      && (Evaluate(feed) == Failure(QuorumTooLarge) <==> short)
      && (Evaluate(feed) == Failure(FactorNotPositive) <==> !short && p.safetyFactorBps <= 0.0)
      && (Evaluate(feed).Success? ==> !short && p.safetyFactorBps > 0.0
                                      && (p.safetyFactorBps >= 1.0 || Evaluate(feed).value.attackCost <= 0))
      && (!short && p.safetyFactorBps >= 1.0 ==> Evaluate(feed).Success?)
  {
  }

  // ---------------------------------------------------------------------------
  // The algorithm
  // ---------------------------------------------------------------------------

  /** Sorts the costs and adds up the first `quorum` of them. */
  method AddCheapest(costs: seq<int>, quorum: int) returns (r: Result<int, Error>)
    ensures r == QuorumCost(costs, quorum)
  {
    if quorum <= 0 {
      return Success(0);
    }
    if quorum > |costs| {
      return Failure(QuorumTooLarge);
    }
    var sorted := Sort(AtMost(), costs);
    SortKeepsMembers(AtMost(), costs);
    var total := 0;
    for i := 0 to quorum
      invariant total == SumOf(sorted, i)
    {
      total := total + sorted[i];
    }
    r := Success(total);
  }

  method EvaluateFeed(feed: Feed) returns (r: Result<Evaluation, Error>)
    ensures r == Evaluate(feed)
  {
    var p := feed.policy;
    var bribery := AddCheapest(BribeCosts(feed.sources, p), p.sourceQuorum);
    if bribery.Failure? {
      return Failure(bribery.error);
    }
    var collusion := AddCheapest(CollusionCosts(feed.sources, p), p.sourceQuorum);
    if collusion.Failure? {
      return Failure(collusion.error);
    }
    var keys := AddCheapest(CompromiseCosts(feed.operators, p), p.keyQuorum);
    if keys.Failure? {
      return Failure(keys.error);
    }
    var attack := bribery.value;
    if collusion.value < attack {
      attack := collusion.value;
    }
    if keys.value < attack {
      attack := keys.value;
    }
    var payout := MaxSupportablePayout(attack, p.safetyFactorBps);
    if payout.Failure? {
      return Failure(payout.error);
    }
    var bond := ImpliedMinimumBond(feed.maxPayoutExposure, p.keyQuorum, p.safetyFactorBps);
    if bond.Failure? {
      return Failure(bond.error);
    }
    r := Success(Evaluation(bribery.value, collusion.value, keys.value, attack, payout.value, bond.value,
                            feed.maxPayoutExposure <= payout.value));
  }
}
