/**
 What each transaction of the finality service does to a row, in the rows' own terms:
 which readings are promoted, invalidated and cited, and what the evidence says.
 */
module FinalityRules {
  import opened Wrappers
  import opened Lists
  import opened Finality

  // ---------------------------------------------------------------------------
  // Decisions
  // ---------------------------------------------------------------------------

  /** Every id names a reading that is final, or provisional where the policy allows it. */
  predicate MayCite(db: Db, ids: seq<nat>, policy: Policy) {
    ids != [] &&
    forall k :: 0 <= k < |ids| ==>
      && ids[k] < |db.readings|
      && (|| db.readings[ids[k]].finality == Final
          || (db.readings[ids[k]].finality == Provisional && policy == AllowProvisional))
  }

  /** A decision is recorded exactly if its readings may be cited; it is then active, cites
      these and is linked from them. Otherwise nothing changes. */
  lemma DecisionIff(db: Db, coverage: string, ids: seq<nat>, policy: Policy)
    ensures var t, d := Decide(db, coverage, ids, policy), |db.decisions|;
      && (DecisionRefused(db, ids, policy).None? <==> MayCite(db, ids, policy))
      && (DecisionRefused(db, ids, policy) == Some(NoReadings) <==> ids == [])
      && (!MayCite(db, ids, policy) ==> t == db)
      && (MayCite(db, ids, policy) ==>
            && t.ledgers == db.ledgers && t.evidence == db.evidence && t.checkpoint == db.checkpoint
            && |t.decisions| == d + 1 && t.decisions[..d] == db.decisions
            && t.decisions[d].coverage == coverage && t.decisions[d].status == Active
            && (forall i: nat :: i in t.decisions[d].cites <==> i in ids)
            && |t.readings| == |db.readings|
            && forall i :: 0 <= i < |db.readings| ==>
                 t.readings[i] == if i in ids then db.readings[i].(decision := Some(d)) else db.readings[i])
  {
    if ids != [] && DecisionRefused(db, ids, policy).None? {
      forall k | 0 <= k < |ids|
        ensures ids[k] < |db.readings| && Eligible(db.readings[ids[k]], policy)
      {
      }
    }
  }

  /** No decision cites a provisional reading. */
  ghost predicate CitesSettled(db: Db) {
    forall d: nat, i: nat :: Cites(db, d, i) ==> i < |db.readings| && db.readings[i].finality != Provisional
  }

  /** A reading that is settled stays so. */
  ghost predicate StaysSettled(db: Db, t: Db) {
    |db.readings| <= |t.readings| &&
    forall i :: 0 <= i < |db.readings| && db.readings[i].finality != Provisional ==> t.readings[i].finality != Provisional
  }

  lemma ReorgStaysSettled(db: Db, q: int, o: Hash, n: Hash)
    ensures StaysSettled(db, Reorg(db, q, o, n)) && |Reorg(db, q, o, n).readings| == |db.readings|
    ensures forall d: nat, i: nat :: Cites(Reorg(db, q, o, n), d, i) <==> Cites(db, d, i)
  {
    var t := Reorg(db, q, o, n);
    forall d: nat, i: nat
      ensures Cites(t, d, i) <==> Cites(db, d, i)
    {
      if d < |db.decisions| {
        ReorgSupersedes(db, q, o, n, d);
      }
    }
  }

  lemma ObserveStaysSettled(db: Db, q: int, hash: Hash, prevHash: Option<Hash>)
    ensures StaysSettled(db, Observe(db, q, hash, prevHash))
    ensures forall d: nat, i: nat :: Cites(Observe(db, q, hash, prevHash), d, i) <==> Cites(db, d, i)
  {
    var db1, db2 := AfterOwnReorg(db, q, hash), AfterReorgs(db, q, hash, prevHash);
    if Diverges(db, q, hash) {
      ReorgStaysSettled(db, q, db.ledgers[q].hash, hash);
    }
    if ParentDiverges(db1, q, prevHash) {
      ReorgStaysSettled(db1, q - 1, db1.ledgers[q - 1].hash, prevHash.value);
    }
    forall d: nat, i: nat
      ensures Cites(Observe(db, q, hash, prevHash), d, i) <==> Cites(db, d, i)
    {
      assert Cites(db1, d, i) <==> Cites(db, d, i);
      assert Cites(db2, d, i) <==> Cites(db1, d, i);
    }
  }

  lemma StepCitesSettled(db: Db, step: Step, depth: nat)
    requires CitesSettled(db)
    ensures CitesSettled(Apply(db, step, depth, FinalOnly))
  {
    var t := Apply(db, step, depth, FinalOnly);
    match step
    case ObserveStep(q, hash, prevHash) => ObserveStaysSettled(db, q, hash, prevHash);
    case RecordStep(_, _, _, _, _) => assert forall d: nat, i: nat :: Cites(t, d, i) ==> Cites(db, d, i);
    case PromoteStep(_) => assert forall d: nat, i: nat :: Cites(t, d, i) ==> Cites(db, d, i);
    case DecideStep(coverage, ids) =>
      DecisionIff(db, coverage, ids, FinalOnly);
      forall d: nat, i: nat | Cites(t, d, i)
        ensures i < |t.readings| && t.readings[i].finality != Provisional
      {
        assert Cites(db, d, i) || (MayCite(db, ids, FinalOnly) && i in ids);
      }
  }

  lemma {:induction false} RunCitesSettled(db: Db, steps: seq<Step>, depth: nat)
    requires CitesSettled(db)
    ensures CitesSettled(Run(db, steps, depth, FinalOnly))
    decreases |steps|
  {
    if steps != [] {
      StepCitesSettled(db, steps[0], depth);
      RunCitesSettled(Apply(db, steps[0], depth, FinalOnly), steps[1..], depth);
    }
  }

  /** Under the default policy no run ever leaves a decision citing a provisional reading:
      what it cites was final when it was recorded. */
  lemma NeverOnProvisional(steps: seq<Step>, depth: nat)
    ensures CitesSettled(Run(Empty, steps, depth, FinalOnly))
  {
    RunCitesSettled(Empty, steps, depth);
  }

  lemma CitedWhenFinal(db: Db, coverage: string, ids: seq<nat>, i: nat)
    requires Cites(Decide(db, coverage, ids, FinalOnly), |db.decisions|, i)
    ensures i < |db.readings| && db.readings[i].finality == Final
  {
    DecisionIff(db, coverage, ids, FinalOnly);
  }

  // ---------------------------------------------------------------------------
  // Promotion
  // ---------------------------------------------------------------------------

  /** A promotion makes final exactly the provisional readings at least `depth` ledgers behind
      the latest that are on the stored hash, changes nothing else about readings, and moves
      the checkpoint up to that depth if it was behind. */
  lemma PromotesIff(db: Db, latest: int, depth: nat, i: nat)
    requires i < |db.readings|
    ensures var t, r := Promote(db, latest, depth), db.readings[i];
      && |t.readings| == |db.readings| && t.decisions == db.decisions && t.ledgers == db.ledgers
      && t.evidence == db.evidence && t.readings[i] == r.(finality := t.readings[i].finality)
      && (t.readings[i].finality != r.finality <==>
            && r.finality == Provisional && latest - depth >= 1 && latest - r.ledger >= depth
            && r.ledger in db.ledgers && db.ledgers[r.ledger].hash == r.hash)
      && (t.readings[i].finality != r.finality ==> t.readings[i].finality == Final)
  {
  }

  lemma PromotionMovesCheckpoint(db: Db, latest: int, depth: nat)
    ensures var t := Promote(db, latest, depth);
      && (latest - depth < 1 ==> t.checkpoint == db.checkpoint)
      && (latest - depth >= 1 ==>
            && t.checkpoint.Some? && t.checkpoint.value.ledger >= latest - depth
            && (db.checkpoint.Some? ==> t.checkpoint.value.ledger >= db.checkpoint.value.ledger)
            && (t.checkpoint == db.checkpoint || t.checkpoint.value ==
                  Checkpoint(latest - depth, if latest - depth in db.ledgers then Some(db.ledgers[latest - depth].hash) else None)))
  {
  }

  /** Polling resumes behind the checkpoint: after a promotion that moves it, one past the
      promoted depth; after a reorg it had passed, at the reorged ledger, or at 1. */
  lemma ResumesBehindCheckpoint(db: Db, latest: int, depth: nat, q: int, hash: Hash, prevHash: Option<Hash>)
    ensures ResumeLedger(db).None? <==> db.checkpoint.None?
    ensures latest - depth >= 1 && (db.checkpoint.None? || db.checkpoint.value.ledger <= latest - depth) ==>
              ResumeLedger(Promote(db, latest, depth)) == Some(latest - depth + 1)
    ensures db.checkpoint.Some? && db.checkpoint.value.ledger >= q && Contradicts(db, q, hash) && !ParentContradicts(db, q, prevHash) ==>
              ResumeLedger(Observe(db, q, hash, prevHash)) == Some(if q > 1 then q else 1)
  {
    assert ParentDiverges(AfterOwnReorg(db, q, hash), q, prevHash) <==> ParentContradicts(db, q, prevHash);
  }

  /** Some promotion of the run was at least `depth` ledgers past `ledger`. */
  predicate PromotedPast(steps: seq<Step>, depth: nat, ledger: int) {
    exists k :: 0 <= k < |steps| && steps[k].PromoteStep? && steps[k].latest - depth >= ledger
  }

  lemma ReorgMakesNoneFinal(db: Db, q: int, o: Hash, n: Hash, i: nat)
    requires i < |db.readings|
    ensures Reorg(db, q, o, n).readings[i].finality == Final ==> db.readings[i].finality == Final
  {
  }

  lemma ObserveMakesNoneFinal(db: Db, q: int, hash: Hash, prevHash: Option<Hash>, i: nat)
    requires i < |db.readings|
    ensures |Observe(db, q, hash, prevHash).readings| == |db.readings|
    ensures Observe(db, q, hash, prevHash).readings[i].finality == Final ==> db.readings[i].finality == Final
  {
    var db1 := AfterOwnReorg(db, q, hash);
    if Diverges(db, q, hash) {
      ReorgMakesNoneFinal(db, q, db.ledgers[q].hash, hash, i);
    }
    if ParentDiverges(db1, q, prevHash) {
      ReorgMakesNoneFinal(db1, q - 1, db1.ledgers[q - 1].hash, prevHash.value, i);
    }
  }

  lemma OnlyPromotionMakesFinal(db: Db, step: Step, depth: nat, policy: Policy, i: nat)
    requires i < |Apply(db, step, depth, policy).readings| && Apply(db, step, depth, policy).readings[i].finality == Final
    ensures
      || (i < |db.readings| && db.readings[i].finality == Final)
      || (step.PromoteStep? && step.latest - depth >= Apply(db, step, depth, policy).readings[i].ledger)
  {
    match step
    case ObserveStep(q, hash, prevHash) =>
      ObserveMovesForward(db, q, hash, prevHash);
      SameReadingCount(db, q, hash, prevHash);
      ObserveMakesNoneFinal(db, q, hash, prevHash, i);
    case RecordStep(_, _, _, _, _) =>
    case PromoteStep(latest) =>
      assert |Promote(db, latest, depth).readings| == |db.readings|;
      PromotesIff(db, latest, depth, i);
    case DecideStep(coverage, ids) => DecisionIff(db, coverage, ids, policy);
  }

  lemma SameReadingCount(db: Db, q: int, hash: Hash, prevHash: Option<Hash>)
    ensures |Observe(db, q, hash, prevHash).readings| == |db.readings|
  {
  }

  lemma {:induction false} RunFinalIsDeep(db: Db, steps: seq<Step>, depth: nat, policy: Policy, i: nat)
    requires var t := Run(db, steps, depth, policy); i < |t.readings| && t.readings[i].finality == Final
    ensures (i < |db.readings| && db.readings[i].finality == Final)
            || PromotedPast(steps, depth, Run(db, steps, depth, policy).readings[i].ledger)
    decreases |steps|
  {
    if steps != [] {
      var next, t := Apply(db, steps[0], depth, policy), Run(db, steps, depth, policy);
      RunFinalIsDeep(next, steps[1..], depth, policy, i);
      if PromotedPast(steps[1..], depth, t.readings[i].ledger) {
        var k :| 0 <= k < |steps[1..]| && steps[1..][k].PromoteStep? && steps[1..][k].latest - depth >= t.readings[i].ledger;
        assert steps[k + 1] == steps[1..][k];
      } else {
        OnlyPromotionMakesFinal(db, steps[0], depth, policy, i);
        RunMovesForward(next, steps[1..], depth, policy);
        assert ReadingForward(next.readings[i], t.readings[i]);
      }
    }
  }

  /** In every run a final reading lies at least `depth` ledgers behind the latest of some
      promotion. */
  lemma FinalIsDeep(steps: seq<Step>, depth: nat, policy: Policy, i: nat)
    requires var t := Run(Empty, steps, depth, policy); i < |t.readings| && t.readings[i].finality == Final
    ensures PromotedPast(steps, depth, Run(Empty, steps, depth, policy).readings[i].ledger)
  {
    RunFinalIsDeep(Empty, steps, depth, policy, i);
  }

  // ---------------------------------------------------------------------------
  // Observation
  // ---------------------------------------------------------------------------

  /** `hash` contradicts a non-empty stored hash of ledger `q`. */
  predicate Contradicts(db: Db, q: int, hash: Hash) {
    q in db.ledgers && db.ledgers[q].hash != "" && db.ledgers[q].hash != hash
  }

  predicate ParentContradicts(db: Db, q: int, prevHash: Option<Hash>) {
    prevHash.Some? && prevHash.value != "" && q > 1 && Contradicts(db, q - 1, prevHash.value)
  }

  /** The observation replaces the hash the reading was taken under. */
  predicate Orphans(db: Db, q: int, hash: Hash, prevHash: Option<Hash>, r: Reading) {
    || (r.ledger == q && Contradicts(db, q, hash) && r.hash != hash)
    || (r.ledger == q - 1 && ParentContradicts(db, q, prevHash) && r.hash != prevHash.value)
  }

  lemma ReorgInvalidatesIff(db: Db, q: int, o: Hash, n: Hash, i: nat)
    requires i < |db.readings|
    ensures var t := Reorg(db, q, o, n);
      && |t.readings| == |db.readings| && t.readings[i] == db.readings[i].(finality := t.readings[i].finality)
      && t.readings[i].finality ==
           if db.readings[i].ledger == q && db.readings[i].hash != n then Invalidated else db.readings[i].finality
  {
  }

  /** An observation invalidates exactly the readings it orphans, and stores the ledger. */
  lemma ObserveInvalidatesIff(db: Db, q: int, hash: Hash, prevHash: Option<Hash>, i: nat)
    requires i < |db.readings|
    ensures var t := Observe(db, q, hash, prevHash);
      && |t.readings| == |db.readings| && t.readings[i] == db.readings[i].(finality := t.readings[i].finality)
      && t.readings[i].finality ==
           if Orphans(db, q, hash, prevHash, db.readings[i]) then Invalidated else db.readings[i].finality
  {
    var db1 := AfterOwnReorg(db, q, hash);
    if Diverges(db, q, hash) {
      ReorgInvalidatesIff(db, q, db.ledgers[q].hash, hash, i);
    }
    assert ParentDiverges(db1, q, prevHash) <==> ParentContradicts(db, q, prevHash);
    if ParentDiverges(db1, q, prevHash) {
      ReorgInvalidatesIff(db1, q - 1, db1.ledgers[q - 1].hash, prevHash.value, i);
    }
  }

  /** Afterwards the observed ledger is stored as observed, the parent's hash is the one
      observed if it contradicted the stored one, and no other ledger has changed. */
  lemma ObserveStores(db: Db, q: int, hash: Hash, prevHash: Option<Hash>, p: int)
    ensures var t := Observe(db, q, hash, prevHash);
      && q in t.ledgers && t.ledgers[q] == Ledger(hash, prevHash)
      && (p != q ==> (p in t.ledgers <==> p in db.ledgers))
      && (p != q && p in db.ledgers ==>
            t.ledgers[p] == if p == q - 1 && ParentContradicts(db, q, prevHash)
                            then db.ledgers[p].(hash := prevHash.value) else db.ledgers[p])
  {
    var db1 := AfterOwnReorg(db, q, hash);
    assert ParentDiverges(db1, q, prevHash) <==> ParentContradicts(db, q, prevHash);
  }

  // ---------------------------------------------------------------------------
  // Evidence
  // ---------------------------------------------------------------------------

  /** The row tells of ledger `q` changing from hash `o` to `n`. */
  predicate Tells(e: Evidence, q: int, o: Hash, n: Hash) {
    e.ledger == q && e.oldHash == o && e.newHash == n
  }

  ghost predicate AllTell(ev: seq<Evidence>, q: int, o: Hash, n: Hash) {
    forall k :: 0 <= k < |ev| ==> Tells(ev[k], q, o, n)
  }

  lemma {:induction false} InvalidationsTell(ids: seq<nat>, k: nat, q: int, o: Hash, n: Hash)
    requires k <= |ids|
    ensures AllTell(Invalidations(ids, k, q, o, n), q, o, n)
  {
    if k > 0 {
      InvalidationsTell(ids, k - 1, q, o, n);
    }
  }

  lemma {:induction false} SupersessionsTell(ds: seq<Decision>, linked: seq<nat>, k: nat, q: int, o: Hash, n: Hash)
    requires k <= |linked|
    ensures AllTell(Supersessions(ds, linked, k, q, o, n), q, o, n)
  {
    if k > 0 {
      SupersessionsTell(ds, linked, k - 1, q, o, n);
    }
  }

  /** A reorg records itself first, and every row it adds tells of it. */
  lemma ReorgTells(db: Db, q: int, o: Hash, n: Hash)
    ensures var t := Reorg(db, q, o, n);
      && |db.evidence| < |t.evidence| && t.evidence[..|db.evidence|] == db.evidence
      && t.evidence[|db.evidence|] == LedgerReorg(q, o, n) && AllTell(t.evidence[|db.evidence|..], q, o, n)
  {
    var ids, linked := Hits(db, q, n), LinkedToHits(db, q, n);
    InvalidationsTell(ids, |ids|, q, o, n);
    SupersessionsTell(db.decisions, linked, |linked|, q, o, n);
    var t, added := Reorg(db, q, o, n), ReorgEvidence(db, q, o, n);
    assert t.evidence == db.evidence + added;
    assert t.evidence[|db.evidence|..] == added;
  }

  ghost predicate TellsOf(db: Db, q: int, hash: Hash, prevHash: Option<Hash>, e: Evidence) {
    || (Contradicts(db, q, hash) && Tells(e, q, db.ledgers[q].hash, hash))
    || (ParentContradicts(db, q, prevHash) && Tells(e, q - 1, db.ledgers[q - 1].hash, prevHash.value))
  }

  /** An observation adds evidence only of the hashes it contradicts: the stored one and the
      one observed. */
  lemma ObserveTells(db: Db, q: int, hash: Hash, prevHash: Option<Hash>, k: nat)
    requires |db.evidence| <= k < |Observe(db, q, hash, prevHash).evidence|
    ensures TellsOf(db, q, hash, prevHash, Observe(db, q, hash, prevHash).evidence[k])
  {
    var db1, db2 := AfterOwnReorg(db, q, hash), AfterReorgs(db, q, hash, prevHash);
    assert ParentDiverges(db1, q, prevHash) <==> ParentContradicts(db, q, prevHash);
    if Diverges(db, q, hash) {
      ReorgTells(db, q, db.ledgers[q].hash, hash);
      if k < |db1.evidence| {
        assert db1.evidence[k] == db1.evidence[|db.evidence|..][k - |db.evidence|];
      }
    }
    if ParentDiverges(db1, q, prevHash) {
      ReorgTells(db1, q - 1, db1.ledgers[q - 1].hash, prevHash.value);
      if k < |db1.evidence| {
        assert db2.evidence[k] == db2.evidence[..|db1.evidence|][k];
      } else {
        assert db2.evidence[k] == db2.evidence[|db1.evidence|..][k - |db1.evidence|];
      }
    }
  }

  // ---------------------------------------------------------------------------
  // What an observation reports
  // ---------------------------------------------------------------------------

  lemma ReportIs(db: Db, q: int, newHash: Hash, oldHash: Hash, sofar: ReorgResult, i: nat)
    ensures var r, t := Report(db, q, newHash, sofar), Reorg(db, q, oldHash, newHash);
      && r.reorgedAt == Some(q)
      && (i in r.invalidated <==> i in sofar.invalidated || (IsInvalidated(t, i) && !IsInvalidated(db, i)))
      && (i in r.superseded <==> i in sofar.superseded || (IsSuperseded(t, i) && !IsSuperseded(db, i)))
  {
    var ids, linked := Hits(db, q, newHash), LinkedToHits(db, q, newHash);
    AffectedAreHit(db.readings, q, newHash, |db.readings|);
    StillActiveAre(db.decisions, linked, |linked|, i);
    assert linked[..|linked|] == linked;
    if i < |db.decisions| {
      SupersedeEach(db.decisions, linked, |linked|, i);
    }
  }

  lemma {:induction false} StillActiveAre(ds: seq<Decision>, linked: seq<nat>, k: nat, d: nat)
    requires k <= |linked|
    ensures d in StillActive(ds, linked, k) <==> d in linked[..k] && d < |ds| && ds[d].status.Active?
  {
    if k > 0 {
      StillActiveAre(ds, linked, k - 1, d);
      assert linked[..k] == linked[..k - 1] + [linked[k - 1]];
    }
  }

  lemma ReorgKeepsEnds(db: Db, q: int, o: Hash, n: Hash, i: nat)
    ensures IsInvalidated(db, i) ==> IsInvalidated(Reorg(db, q, o, n), i)
    ensures IsSuperseded(db, i) ==> IsSuperseded(Reorg(db, q, o, n), i)
  {
    ReorgMovesForward(db, q, o, n);
    if IsInvalidated(db, i) {
      assert ReadingForward(db.readings[i], Reorg(db, q, o, n).readings[i]);
    }
    if IsSuperseded(db, i) {
      assert DecisionForward(db.decisions[i], Reorg(db, q, o, n).decisions[i]);
    }
  }

  /** The report names exactly the readings the observation invalidates and the decisions it
      supersedes, and the lowest ledger it reorgs. */
  lemma ReportsWhatChanged(db: Db, q: int, hash: Hash, prevHash: Option<Hash>, i: nat)
    ensures var r, t := ReportAll(db, q, hash, prevHash), Observe(db, q, hash, prevHash);
      && (i in r.invalidated <==> IsInvalidated(t, i) && !IsInvalidated(db, i))
      && (i in r.superseded <==> IsSuperseded(t, i) && !IsSuperseded(db, i))
      && r.reorgedAt == (if ParentContradicts(db, q, prevHash) then Some(q - 1)
                         else if Contradicts(db, q, hash) then Some(q) else None)
  {
    var none := ReorgResult(None, [], []);
    var own := if Diverges(db, q, hash) then Report(db, q, hash, none) else none;
    var db1 := AfterOwnReorg(db, q, hash);
    if Diverges(db, q, hash) {
      ReportIs(db, q, hash, db.ledgers[q].hash, none, i);
      ReorgKeepsEnds(db, q, db.ledgers[q].hash, hash, i);
    }
    assert ParentDiverges(db1, q, prevHash) <==> ParentContradicts(db, q, prevHash);
    if ParentDiverges(db1, q, prevHash) {
      ReportIs(db1, q - 1, prevHash.value, db1.ledgers[q - 1].hash, own, i);
      ReorgKeepsEnds(db1, q - 1, db1.ledgers[q - 1].hash, prevHash.value, i);
    }
  }
}
