/**
 Finality of Horizon-derived readings.

 The five tables are one database value; each transaction is one atomic step.
 Rows are numbered by position in the order they were inserted. In every run
 invalidation is terminal, recorded exactly once, and never leaves an active
 decision linked to an invalidated reading. Final readings and the checkpoint stay
 anchored to the stored ledger hashes exactly as long as no observation replaces an
 empty stored hash under one of them.
 */
module Finality {
  import opened Wrappers
  import opened Lists

  type Hash = string

  datatype Level = Provisional | Final | Invalidated

  datatype Policy = FinalOnly | AllowProvisional

  datatype Reading = Reading(coverage: string, source: string, value: real, ledger: int, hash: Hash,
                             finality: Level, decision: Option<nat>)

  datatype Ledger = Ledger(hash: Hash, prevHash: Option<Hash>)

  datatype Status = Active | Superseded

  /** `cites` are the readings the decision was recorded with. */
  datatype Decision = Decision(coverage: string, status: Status, cites: set<nat>)

  datatype Checkpoint = Checkpoint(ledger: int, hash: Option<Hash>)

  datatype Evidence =
    | LedgerReorg(ledger: int, oldHash: Hash, newHash: Hash)
    | ReadingInvalidated(ledger: int, reading: nat, oldHash: Hash, newHash: Hash)
    | DecisionSuperseded(ledger: int, decision: nat, oldHash: Hash, newHash: Hash)

  datatype Db = Db(ledgers: map<int, Ledger>, readings: seq<Reading>, decisions: seq<Decision>,
                   evidence: seq<Evidence>, checkpoint: Option<Checkpoint>)

  const Empty := Db(map[], [], [], [], None)

  // ---------------------------------------------------------------------------
  // Reorg handling
  // ---------------------------------------------------------------------------

  /** The reading sits on ledger `q` under a hash other than the new one. */
  predicate Hit(r: Reading, q: int, newHash: Hash) {
    r.ledger == q && r.hash != newHash && !r.finality.Invalidated?
  }

  function Invalidate(r: Reading, q: int, newHash: Hash): Reading {
    if Hit(r, q, newHash) then r.(finality := Invalidated) else r
  }

  function InvalidateAll(rs: seq<Reading>, q: int, newHash: Hash): (out: seq<Reading>)
    ensures |out| == |rs|
    ensures forall i :: 0 <= i < |rs| ==> out[i] == Invalidate(rs[i], q, newHash)
  {
    seq(|rs|, i requires 0 <= i < |rs| => Invalidate(rs[i], q, newHash))
  }

  /** The ids of the hit readings among the first `k`, in order. */
  function Affected(rs: seq<Reading>, q: int, newHash: Hash, k: nat): seq<nat>
    requires k <= |rs|
  {
    if k == 0 then []
    else Affected(rs, q, newHash, k - 1) + (if Hit(rs[k - 1], q, newHash) then [k - 1] else [])
  }

  lemma {:induction false} AffectedAreHit(rs: seq<Reading>, q: int, newHash: Hash, k: nat)
    requires k <= |rs|
    ensures var ids := Affected(rs, q, newHash, k);
      Distinct(ids) && forall i :: i in ids <==> 0 <= i < k && Hit(rs[i], q, newHash)
  {
    if k > 0 {
      AffectedAreHit(rs, q, newHash, k - 1);
      var front := Affected(rs, q, newHash, k - 1);
      assert forall a :: 0 <= a < |front| ==> front[a] in front;
    }
  }

  /** The decisions linked from the first `k` readings of `ids`, each once, in order of first link. */
  function Linked(rs: seq<Reading>, ids: seq<nat>, k: nat): seq<nat>
    requires k <= |ids|
  {
    if k == 0 then []
    else
      var before, i := Linked(rs, ids, k - 1), ids[k - 1];
      if i < |rs| && rs[i].decision.Some? && rs[i].decision.value !in before then before + [rs[i].decision.value]
      else before
  }

  predicate LinksTo(rs: seq<Reading>, i: nat, d: nat) {
    i < |rs| && rs[i].decision == Some(d)
  }

  lemma {:induction false} LinkedAreLinked(rs: seq<Reading>, ids: seq<nat>, k: nat)
    requires k <= |ids|
    ensures var ds := Linked(rs, ids, k);
      Distinct(ds) && forall d :: d in ds <==> exists j :: 0 <= j < k && LinksTo(rs, ids[j], d)
  {
    if k > 0 {
      LinkedAreLinked(rs, ids, k - 1);
      var before := Linked(rs, ids, k - 1);
      assert forall a :: 0 <= a < |before| ==> before[a] in before;
    }
  }

  /** Supersedes the first `k` linked decisions, one after the other. */
  function SupersedeAll(ds: seq<Decision>, linked: seq<nat>, k: nat): (out: seq<Decision>)
    requires k <= |linked|
    ensures |out| == |ds|
  {
    if k == 0 then ds
    else
      var out, d := SupersedeAll(ds, linked, k - 1), linked[k - 1];
      if d < |ds| && out[d].status.Active? then out[d := out[d].(status := Superseded)] else out
  }

  /** The first `k` linked decisions that are still active. */
  function StillActive(ds: seq<Decision>, linked: seq<nat>, k: nat): seq<nat>
    requires k <= |linked|
  {
    if k == 0 then []
    else
      var d := linked[k - 1];
      StillActive(ds, linked, k - 1) + (if d < |ds| && ds[d].status.Active? then [d] else [])
  }

  lemma {:induction false} SupersedeEach(ds: seq<Decision>, linked: seq<nat>, k: nat, d: nat)
    requires k <= |linked| && d < |ds|
    ensures SupersedeAll(ds, linked, k)[d]
            == if d in linked[..k] && ds[d].status.Active? then ds[d].(status := Superseded) else ds[d]
  {
    if k > 0 {
      SupersedeEach(ds, linked, k - 1, d);
      assert linked[..k] == linked[..k - 1] + [linked[k - 1]];
    }
  }

  function Invalidations(ids: seq<nat>, k: nat, q: int, oldHash: Hash, newHash: Hash): seq<Evidence>
    requires k <= |ids|
  {
    if k == 0 then []
    else Invalidations(ids, k - 1, q, oldHash, newHash) + [ReadingInvalidated(q, ids[k - 1], oldHash, newHash)]
  }

  /** One row per linked decision that was still active. */
  function Supersessions(ds: seq<Decision>, linked: seq<nat>, k: nat, q: int, oldHash: Hash, newHash: Hash): seq<Evidence>
    requires k <= |linked|
  {
    if k == 0 then []
    else
      var d := linked[k - 1];
      Supersessions(ds, linked, k - 1, q, oldHash, newHash)
      + (if d < |ds| && ds[d].status.Active? then [DecisionSuperseded(q, d, oldHash, newHash)] else [])
  }

  /** The checkpoint never stays at or past a ledger that is no longer canonical. */
  function Rewind(c: Option<Checkpoint>, q: int): Option<Checkpoint> {
    if c.Some? && c.value.ledger >= q then Some(Checkpoint(if q - 1 > 0 then q - 1 else 0, None)) else c
  }

  function Hits(db: Db, q: int, newHash: Hash): seq<nat> {
    Affected(db.readings, q, newHash, |db.readings|)
  }

  function LinkedToHits(db: Db, q: int, newHash: Hash): seq<nat> {
    var ids := Hits(db, q, newHash);
    Linked(db.readings, ids, |ids|)
  }

  function ReorgEvidence(db: Db, q: int, oldHash: Hash, newHash: Hash): seq<Evidence> {
    var ids, linked := Hits(db, q, newHash), LinkedToHits(db, q, newHash);
    [LedgerReorg(q, oldHash, newHash)] + Invalidations(ids, |ids|, q, oldHash, newHash)
    + Supersessions(db.decisions, linked, |linked|, q, oldHash, newHash)
  }

  function Reorg(db: Db, q: int, oldHash: Hash, newHash: Hash): Db {
    var linked := LinkedToHits(db, q, newHash);
    Db(if q in db.ledgers then db.ledgers[q := db.ledgers[q].(hash := newHash)] else db.ledgers,
       InvalidateAll(db.readings, q, newHash),
       SupersedeAll(db.decisions, linked, |linked|),
       db.evidence + ReorgEvidence(db, q, oldHash, newHash),
       Rewind(db.checkpoint, q))
  }

  /** A reorg supersedes exactly the active decisions linked from a hit reading. */
  lemma ReorgSupersedes(db: Db, q: int, oldHash: Hash, newHash: Hash, d: nat)
    requires d < |db.decisions|
    ensures Reorg(db, q, oldHash, newHash).decisions[d]
      == if (exists i :: 0 <= i < |db.readings| && Hit(db.readings[i], q, newHash) && LinksTo(db.readings, i, d))
            && db.decisions[d].status.Active?
         then db.decisions[d].(status := Superseded) else db.decisions[d]
  {
    var ids, linked := Hits(db, q, newHash), LinkedToHits(db, q, newHash);
    AffectedAreHit(db.readings, q, newHash, |db.readings|);
    LinkedAreLinked(db.readings, ids, |ids|);
    SupersedeEach(db.decisions, linked, |linked|, d);
    assert linked[..|linked|] == linked;
    assert forall j :: 0 <= j < |ids| ==> ids[j] in ids;
  }

  // ---------------------------------------------------------------------------
  // The transactions
  // ---------------------------------------------------------------------------

  function Record(db: Db, coverage: string, source: string, value: real, ledger: int, hash: Hash): Db {
    db.(readings := db.readings + [Reading(coverage, source, value, ledger, hash, Provisional, None)])
  }

  /** A stored hash is compared only when it is not the empty string. */
  predicate Diverges(db: Db, q: int, hash: Hash) {
    q in db.ledgers && db.ledgers[q].hash != "" && db.ledgers[q].hash != hash
  }

  function AfterOwnReorg(db: Db, q: int, hash: Hash): Db {
    if Diverges(db, q, hash) then Reorg(db, q, db.ledgers[q].hash, hash) else db
  }

  predicate ParentDiverges(db: Db, q: int, prevHash: Option<Hash>) {
    prevHash.Some? && prevHash.value != "" && q > 1 && Diverges(db, q - 1, prevHash.value)
  }

  function AfterReorgs(db: Db, q: int, hash: Hash, prevHash: Option<Hash>): Db {
    var db1 := AfterOwnReorg(db, q, hash);
    if ParentDiverges(db1, q, prevHash) then Reorg(db1, q - 1, db1.ledgers[q - 1].hash, prevHash.value) else db1
  }

  function Observe(db: Db, q: int, hash: Hash, prevHash: Option<Hash>): Db {
    var db2 := AfterReorgs(db, q, hash, prevHash);
    db2.(ledgers := db2.ledgers[q := Ledger(hash, prevHash)])
  }

  predicate Promotable(db: Db, r: Reading, upTo: int) {
    r.finality.Provisional? && r.ledger <= upTo && r.ledger in db.ledgers && db.ledgers[r.ledger].hash == r.hash
  }

  function PromoteOne(db: Db, r: Reading, upTo: int): Reading {
    if Promotable(db, r, upTo) then r.(finality := Final) else r
  }

  function StoredHash(db: Db, q: int): Option<Hash> {
    if q in db.ledgers then Some(db.ledgers[q].hash) else None
  }

  function Promote(db: Db, latest: int, depth: nat): Db {
    var upTo := latest - depth;
    if upTo < 1 then db
    else
      db.(readings := seq(|db.readings|, i requires 0 <= i < |db.readings| => PromoteOne(db, db.readings[i], upTo)),
          checkpoint := Some(
            if db.checkpoint.None? || upTo >= db.checkpoint.value.ledger then Checkpoint(upTo, StoredHash(db, upTo))
            else db.checkpoint.value))
  }

  /** First ledger a restarted poller fetches. */
  function ResumeLedger(db: Db): Option<int> {
    if db.checkpoint.Some? then Some(db.checkpoint.value.ledger + 1) else None
  }

  predicate Eligible(r: Reading, policy: Policy) {
    r.finality.Final? || (policy.AllowProvisional? && r.finality.Provisional?)
  }

  datatype DecisionError = NoReadings | NotEligible

  function DecisionRefused(db: Db, ids: seq<nat>, policy: Policy): Option<DecisionError> {
    if ids == [] then Some(NoReadings)
    else if exists k :: 0 <= k < |ids| && !(ids[k] < |db.readings| && Eligible(db.readings[ids[k]], policy))
    then Some(NotEligible)
    else None
  }

  function Decide(db: Db, coverage: string, ids: seq<nat>, policy: Policy): Db {
    if DecisionRefused(db, ids, policy).Some? then db
    else
      var d := |db.decisions|;
      db.(decisions := db.decisions + [Decision(coverage, Active, set i | i in ids)],
          readings := seq(|db.readings|, i requires 0 <= i < |db.readings| =>
            if i in ids then db.readings[i].(decision := Some(d)) else db.readings[i]))
  }

  datatype Step =
    | RecordStep(coverage: string, source: string, value: real, ledger: int, hash: Hash)
    | ObserveStep(ledger: int, hash: Hash, prevHash: Option<Hash>)
    | PromoteStep(latest: int)
    | DecideStep(coverage: string, ids: seq<nat>)

  function Apply(db: Db, step: Step, depth: nat, policy: Policy): Db {
    match step
    case RecordStep(coverage, source, value, ledger, hash) => Record(db, coverage, source, value, ledger, hash)
    case ObserveStep(ledger, hash, prevHash) => Observe(db, ledger, hash, prevHash)
    case PromoteStep(latest) => Promote(db, latest, depth)
    case DecideStep(coverage, ids) => Decide(db, coverage, ids, policy)
  }

  function Run(db: Db, steps: seq<Step>, depth: nat, policy: Policy): Db
    decreases |steps|
  {
    if steps == [] then db else Run(Apply(db, steps[0], depth, policy), steps[1..], depth, policy)
  }

  // ---------------------------------------------------------------------------
  // What every transaction keeps
  // ---------------------------------------------------------------------------

  /** Every final reading carries the stored hash of its ledger. */
  ghost predicate FinalAnchored(db: Db) {
    forall i :: 0 <= i < |db.readings| && db.readings[i].finality.Final? ==>
      StoredHash(db, db.readings[i].ledger) == Some(db.readings[i].hash)
  }

  /** A checkpoint hash, when present, is the stored hash at the checkpoint. */
  ghost predicate CheckpointAnchored(db: Db) {
    db.checkpoint.Some? && db.checkpoint.value.hash.Some? ==>
      StoredHash(db, db.checkpoint.value.ledger) == db.checkpoint.value.hash
  }

  function CountReading(ev: seq<Evidence>, i: nat): nat {
    if ev == [] then 0
    else CountReading(ev[..|ev| - 1], i)
         + (var e := ev[|ev| - 1]; if e.ReadingInvalidated? && e.reading == i then 1 else 0)
  }

  function CountDecision(ev: seq<Evidence>, d: nat): nat {
    if ev == [] then 0
    else CountDecision(ev[..|ev| - 1], d)
         + (var e := ev[|ev| - 1]; if e.DecisionSuperseded? && e.decision == d then 1 else 0)
  }

  predicate IsInvalidated(db: Db, i: nat) {
    i < |db.readings| && db.readings[i].finality.Invalidated?
  }

  predicate IsSuperseded(db: Db, d: nat) {
    d < |db.decisions| && db.decisions[d].status.Superseded?
  }

  /** One evidence row for each invalidated reading and superseded decision, none for the others. */
  ghost predicate EvidenceExact(db: Db) {
    && (forall i: nat :: CountReading(db.evidence, i) == if IsInvalidated(db, i) then 1 else 0)
    && (forall d: nat :: CountDecision(db.evidence, d) == if IsSuperseded(db, d) then 1 else 0)
  }

  /** Links go to existing decisions that cite the reading, and an invalidated
      reading is linked only to a superseded one. */
  ghost predicate LinksSound(db: Db) {
    forall i :: 0 <= i < |db.readings| && db.readings[i].decision.Some? ==>
      var d := db.readings[i].decision.value;
      && d < |db.decisions| && i in db.decisions[d].cites
      && (db.readings[i].finality.Invalidated? ==> db.decisions[d].status.Superseded?)
  }

  predicate Cites(db: Db, d: nat, i: nat) {
    d < |db.decisions| && i in db.decisions[d].cites
  }

  predicate LinkedNoEarlier(db: Db, i: nat, d: nat) {
    i < |db.readings| && db.readings[i].decision.Some? && d <= db.readings[i].decision.value
  }

  /** A cited reading is linked to the latest decision that cites it. */
  ghost predicate CitesLinked(db: Db) {
    forall d: nat, i: nat :: Cites(db, d, i) ==> LinkedNoEarlier(db, i, d)
  }

  /** Final readings and the checkpoint match the stored ledgers. */
  ghost predicate Anchored(db: Db) {
    FinalAnchored(db) && CheckpointAnchored(db)
  }

  /** Evidence, links and citations match the readings and decisions. */
  ghost predicate Books(db: Db) {
    EvidenceExact(db) && LinksSound(db) && CitesLinked(db)
  }

  // ---------------------------------------------------------------------------
  // Reorg keeps them
  // ---------------------------------------------------------------------------

  lemma {:induction false} CountsJoin(a: seq<Evidence>, b: seq<Evidence>, i: nat)
    ensures CountReading(a + b, i) == CountReading(a, i) + CountReading(b, i)
    ensures CountDecision(a + b, i) == CountDecision(a, i) + CountDecision(b, i)
    decreases |b|
  {
    if b == [] {
      assert a + b == a;
    } else {
      assert (a + b)[..|a + b| - 1] == a + b[..|b| - 1];
      CountsJoin(a, b[..|b| - 1], i);
    }
  }

  lemma CountSnoc(ev: seq<Evidence>, e: Evidence, i: nat)
    ensures CountReading(ev + [e], i) == CountReading(ev, i) + if e.ReadingInvalidated? && e.reading == i then 1 else 0
    ensures CountDecision(ev + [e], i) == CountDecision(ev, i) + if e.DecisionSuperseded? && e.decision == i then 1 else 0
  {
    assert (ev + [e])[..|ev|] == ev;
  }

  /** How often `i` occurs among the first `k` elements of `ids`. */
  function Occurrences(ids: seq<nat>, k: nat, i: nat): nat
    requires k <= |ids|
  {
    if k == 0 then 0 else Occurrences(ids, k - 1, i) + if ids[k - 1] == i then 1 else 0
  }

  lemma {:induction false} OccursOnce(ids: seq<nat>, k: nat, i: nat)
    requires k <= |ids| && Distinct(ids)
    ensures Occurrences(ids, k, i) == if exists j :: 0 <= j < k && ids[j] == i then 1 else 0
  {
    if k > 0 {
      OccursOnce(ids, k - 1, i);
    }
  }

  lemma {:induction false} CountInvalidations(ids: seq<nat>, k: nat, q: int, o: Hash, n: Hash, i: nat)
    requires k <= |ids|
    ensures CountReading(Invalidations(ids, k, q, o, n), i) == Occurrences(ids, k, i)
    ensures CountDecision(Invalidations(ids, k, q, o, n), i) == 0
  {
    if k > 0 {
      CountInvalidations(ids, k - 1, q, o, n, i);
      CountSnoc(Invalidations(ids, k - 1, q, o, n), ReadingInvalidated(q, ids[k - 1], o, n), i);
    }
  }

  lemma {:induction false} CountSupersessions(ds: seq<Decision>, linked: seq<nat>, k: nat, q: int, o: Hash, n: Hash, d: nat)
    requires k <= |linked|
    ensures CountDecision(Supersessions(ds, linked, k, q, o, n), d)
            == if d < |ds| && ds[d].status.Active? then Occurrences(linked, k, d) else 0
    ensures CountReading(Supersessions(ds, linked, k, q, o, n), d) == 0
  {
    if k > 0 {
      CountSupersessions(ds, linked, k - 1, q, o, n, d);
      var before := Supersessions(ds, linked, k - 1, q, o, n);
      CountSnoc(before, DecisionSuperseded(q, linked[k - 1], o, n), d);
      assert before + [] == before;
    }
  }

  lemma CountReorg(db: Db, q: int, o: Hash, n: Hash, i: nat)
    ensures CountReading(ReorgEvidence(db, q, o, n), i)
            == Occurrences(Hits(db, q, n), |Hits(db, q, n)|, i)
    ensures CountDecision(ReorgEvidence(db, q, o, n), i)
            == if i < |db.decisions| && db.decisions[i].status.Active?
               then Occurrences(LinkedToHits(db, q, n), |LinkedToHits(db, q, n)|, i) else 0
  {
    var ids, linked := Hits(db, q, n), LinkedToHits(db, q, n);
    var a, b := [LedgerReorg(q, o, n)], Invalidations(ids, |ids|, q, o, n);
    var c := Supersessions(db.decisions, linked, |linked|, q, o, n);
    CountInvalidations(ids, |ids|, q, o, n, i);
    CountSupersessions(db.decisions, linked, |linked|, q, o, n, i);
    CountSnoc([], LedgerReorg(q, o, n), i);
    assert [] + a == a;
    CountsJoin(a, b, i);
    CountsJoin(a + b, c, i);
  }

  lemma HitsOnce(db: Db, q: int, n: Hash, i: nat)
    ensures Occurrences(Hits(db, q, n), |Hits(db, q, n)|, i)
            == if i < |db.readings| && Hit(db.readings[i], q, n) then 1 else 0
  {
    var ids := Hits(db, q, n);
    AffectedAreHit(db.readings, q, n, |db.readings|);
    OccursOnce(ids, |ids|, i);
    assert i in ids <==> exists j :: 0 <= j < |ids| && ids[j] == i;
  }

  lemma LinkedOnce(db: Db, q: int, n: Hash, d: nat)
    ensures Occurrences(LinkedToHits(db, q, n), |LinkedToHits(db, q, n)|, d)
            == if d in LinkedToHits(db, q, n) then 1 else 0
  {
    var ids, linked := Hits(db, q, n), LinkedToHits(db, q, n);
    LinkedAreLinked(db.readings, ids, |ids|);
    OccursOnce(linked, |linked|, d);
    assert d in linked <==> exists j :: 0 <= j < |linked| && linked[j] == d;
  }

  lemma ReorgKeepsEvidence(db: Db, q: int, o: Hash, n: Hash)
    requires EvidenceExact(db)
    ensures EvidenceExact(Reorg(db, q, o, n))
  {
    var t := Reorg(db, q, o, n);
    var linked := LinkedToHits(db, q, n);
    forall i: nat
      ensures CountReading(t.evidence, i) == if IsInvalidated(t, i) then 1 else 0
      ensures CountDecision(t.evidence, i) == if IsSuperseded(t, i) then 1 else 0
    {
      CountsJoin(db.evidence, ReorgEvidence(db, q, o, n), i);
      CountReorg(db, q, o, n, i);
      HitsOnce(db, q, n, i);
      LinkedOnce(db, q, n, i);
      if i < |db.decisions| {
        SupersedeEach(db.decisions, linked, |linked|, i);
        assert linked[..|linked|] == linked;
      }
    }
  }

  lemma ReorgKeepsLinks(db: Db, q: int, o: Hash, n: Hash)
    requires LinksSound(db) && CitesLinked(db)
    ensures LinksSound(Reorg(db, q, o, n)) && CitesLinked(Reorg(db, q, o, n))
  {
    var t := Reorg(db, q, o, n);
    forall d: nat, i: nat | Cites(t, d, i)
      ensures LinkedNoEarlier(t, i, d)
    {
      ReorgSupersedes(db, q, o, n, d);
      assert Cites(db, d, i);
    }
    forall i | 0 <= i < |t.readings| && t.readings[i].decision.Some?
      ensures var d := t.readings[i].decision.value;
        && d < |t.decisions| && i in t.decisions[d].cites
        && (t.readings[i].finality.Invalidated? ==> t.decisions[d].status.Superseded?)
    {
      var d := db.readings[i].decision.value;
      ReorgSupersedes(db, q, o, n, d);
      assert LinksTo(db.readings, i, d);
    }
  }

  /** A reorg re-anchors: whatever it leaves final on `q` carries the new hash. */
  lemma ReorgKeepsAnchors(db: Db, q: int, o: Hash, n: Hash)
    requires Anchored(db) && q in db.ledgers
    ensures Anchored(Reorg(db, q, o, n))
  {
  }

  // ---------------------------------------------------------------------------
  // Every transaction keeps the books
  // ---------------------------------------------------------------------------

  lemma MaybeReorgKeepsBooks(db: Db, q: int, o: Hash, n: Hash, reorged: bool)
    requires Books(db)
    ensures Books(if reorged then Reorg(db, q, o, n) else db)
  {
    ReorgKeepsEvidence(db, q, o, n);
    ReorgKeepsLinks(db, q, o, n);
  }

  lemma ReorgsKeepBooks(db: Db, q: int, hash: Hash, prevHash: Option<Hash>)
    requires Books(db)
    ensures Books(AfterReorgs(db, q, hash, prevHash))
  {
    var db1 := AfterOwnReorg(db, q, hash);
    var o := if q in db.ledgers then db.ledgers[q].hash else "";
    MaybeReorgKeepsBooks(db, q, o, hash, Diverges(db, q, hash));
    var o1 := if q - 1 in db1.ledgers then db1.ledgers[q - 1].hash else "";
    var n1 := if prevHash.Some? then prevHash.value else "";
    MaybeReorgKeepsBooks(db1, q - 1, o1, n1, ParentDiverges(db1, q, prevHash));
  }

  lemma SameTablesKeepBooks(db: Db, t: Db)
    requires Books(db) && t == db.(ledgers := t.ledgers, checkpoint := t.checkpoint)
    ensures Books(t)
  {
    assert forall d: nat, i: nat :: Cites(t, d, i) ==> Cites(db, d, i);
  }

  lemma RecordKeepsBooks(db: Db, coverage: string, source: string, value: real, ledger: int, hash: Hash)
    requires Books(db)
    ensures Books(Record(db, coverage, source, value, ledger, hash))
  {
    var t := Record(db, coverage, source, value, ledger, hash);
    assert forall d: nat, i: nat :: Cites(t, d, i) ==> Cites(db, d, i);
  }

  lemma PromoteKeepsBooks(db: Db, latest: int, depth: nat)
    requires Books(db)
    ensures Books(Promote(db, latest, depth))
  {
    var t := Promote(db, latest, depth);
    assert forall d: nat, i: nat :: Cites(t, d, i) ==> Cites(db, d, i);
  }

  lemma DecideKeepsBooks(db: Db, coverage: string, ids: seq<nat>, policy: Policy)
    requires Books(db)
    ensures Books(Decide(db, coverage, ids, policy))
  {
    var t := Decide(db, coverage, ids, policy);
    if DecisionRefused(db, ids, policy).None? {
      assert forall i :: i in ids ==> i < |db.readings| && Eligible(db.readings[i], policy);
      assert forall d :: 0 <= d < |db.decisions| ==> t.decisions[d] == db.decisions[d];
      assert forall d: nat, i: nat :: Cites(t, d, i) ==> Cites(db, d, i) || (d == |db.decisions| && i in ids);
    }
  }

  lemma StepKeepsBooks(db: Db, step: Step, depth: nat, policy: Policy)
    requires Books(db)
    ensures Books(Apply(db, step, depth, policy))
  {
    match step
    case RecordStep(coverage, source, value, ledger, hash) =>
      RecordKeepsBooks(db, coverage, source, value, ledger, hash);
    case ObserveStep(q, hash, prevHash) =>
      ReorgsKeepBooks(db, q, hash, prevHash);
      SameTablesKeepBooks(AfterReorgs(db, q, hash, prevHash), Observe(db, q, hash, prevHash));
    case PromoteStep(latest) => PromoteKeepsBooks(db, latest, depth);
    case DecideStep(coverage, ids) => DecideKeepsBooks(db, coverage, ids, policy);
  }

  lemma {:induction false} RunKeepsBooks(db: Db, steps: seq<Step>, depth: nat, policy: Policy)
    requires Books(db)
    ensures Books(Run(db, steps, depth, policy))
    decreases |steps|
  {
    if steps != [] {
      StepKeepsBooks(db, steps[0], depth, policy);
      RunKeepsBooks(Apply(db, steps[0], depth, policy), steps[1..], depth, policy);
    }
  }

  /** From the empty database on, whatever hashes are observed: each invalidated reading
      and superseded decision has exactly one evidence row and no other has one, an
      invalidated reading is linked only to a superseded decision, and a cited reading
      to the latest decision that cites it. */
  lemma BooksAlwaysExact(steps: seq<Step>, depth: nat, policy: Policy)
    ensures Books(Run(Empty, steps, depth, policy))
  {
    RunKeepsBooks(Empty, steps, depth, policy);
  }

  // ---------------------------------------------------------------------------
  // What the anchors need
  // ---------------------------------------------------------------------------

  /** Observing `hash` at `q` replaces a stored empty hash without noticing. */
  predicate MissedReorg(db: Db, q: int, hash: Hash) {
    q in db.ledgers && db.ledgers[q].hash == "" && hash != ""
  }

  predicate HasFinal(db: Db, q: int) {
    exists i :: 0 <= i < |db.readings| && db.readings[i].ledger == q && db.readings[i].finality.Final?
  }

  predicate CheckpointAt(db: Db, q: int) {
    db.checkpoint.Some? && db.checkpoint.value.ledger == q && db.checkpoint.value.hash.Some?
  }

  lemma ReorgsKeepAnchors(db: Db, q: int, hash: Hash, prevHash: Option<Hash>)
    requires Anchored(db)
    ensures var t := AfterReorgs(db, q, hash, prevHash);
      Anchored(t) && StoredHash(t, q) == (if Diverges(db, q, hash) then Some(hash) else StoredHash(db, q))
  {
    var db1 := AfterOwnReorg(db, q, hash);
    if Diverges(db, q, hash) {
      ReorgKeepsAnchors(db, q, db.ledgers[q].hash, hash);
    }
    if ParentDiverges(db1, q, prevHash) {
      ReorgKeepsAnchors(db1, q - 1, db1.ledgers[q - 1].hash, prevHash.value);
    }
  }

  /** An observation breaks the anchor of a final reading exactly when it replaces
      an empty stored hash under one: the comparison treats an empty hash as absent. */
  lemma ObserveAnchorsFinalIff(db: Db, q: int, hash: Hash, prevHash: Option<Hash>)
    requires Anchored(db)
    ensures FinalAnchored(Observe(db, q, hash, prevHash)) <==> !(MissedReorg(db, q, hash) && HasFinal(db, q))
  {
    var db2, t := AfterReorgs(db, q, hash, prevHash), Observe(db, q, hash, prevHash);
    ReorgsKeepAnchors(db, q, hash, prevHash);
    assert |db2.readings| == |db.readings|;
    if MissedReorg(db, q, hash) {
      forall i | 0 <= i < |db.readings| && db.readings[i].ledger == q && db.readings[i].finality.Final?
        ensures !FinalAnchored(t)
      {
        assert db2.readings[i] == db.readings[i];
        assert t.readings[i].finality.Final? && StoredHash(t, t.readings[i].ledger) != Some(t.readings[i].hash);
      }
    }
  }

  /** It breaks the anchor of the checkpoint exactly when it replaces an empty stored
      hash under that and no reorg of the parent rewinds it. */
  lemma ObserveAnchorsCheckpointIff(db: Db, q: int, hash: Hash, prevHash: Option<Hash>)
    requires Anchored(db)
    ensures CheckpointAnchored(Observe(db, q, hash, prevHash)) <==>
            !(MissedReorg(db, q, hash) && CheckpointAt(db, q) && !ParentDiverges(db, q, prevHash))
  {
    ReorgsKeepAnchors(db, q, hash, prevHash);
  }

  /** The step replaces an empty stored hash under a final reading or the checkpoint. */
  predicate Unanchors(db: Db, step: Step) {
    && step.ObserveStep? && MissedReorg(db, step.ledger, step.hash)
    && (HasFinal(db, step.ledger) || (CheckpointAt(db, step.ledger) && !ParentDiverges(db, step.ledger, step.prevHash)))
  }

  lemma PromoteKeepsAnchors(db: Db, latest: int, depth: nat)
    requires Anchored(db)
    ensures Anchored(Promote(db, latest, depth))
  {
  }

  lemma DecideKeepsAnchors(db: Db, coverage: string, ids: seq<nat>, policy: Policy)
    requires Anchored(db)
    ensures Anchored(Decide(db, coverage, ids, policy))
  {
  }

  /** A transaction keeps the anchors exactly if it is no such observation. */
  lemma StepAnchoredIff(db: Db, step: Step, depth: nat, policy: Policy)
    requires Anchored(db)
    ensures Anchored(Apply(db, step, depth, policy)) <==> !Unanchors(db, step)
  {
    match step
    case RecordStep(_, _, _, _, _) =>
    case ObserveStep(q, hash, prevHash) =>
      ObserveAnchorsFinalIff(db, q, hash, prevHash);
      ObserveAnchorsCheckpointIff(db, q, hash, prevHash);
    case PromoteStep(latest) => PromoteKeepsAnchors(db, latest, depth);
    case DecideStep(coverage, ids) => DecideKeepsAnchors(db, coverage, ids, policy);
  }

  /** Every database of the run is anchored. */
  ghost predicate AnchoredAlong(db: Db, steps: seq<Step>, depth: nat, policy: Policy)
    decreases |steps|
  {
    && Anchored(db)
    && (steps != [] ==> AnchoredAlong(Apply(db, steps[0], depth, policy), steps[1..], depth, policy))
  }

  predicate NeverUnanchors(db: Db, steps: seq<Step>, depth: nat, policy: Policy)
    decreases |steps|
  {
    steps != [] ==>
      !Unanchors(db, steps[0]) && NeverUnanchors(Apply(db, steps[0], depth, policy), steps[1..], depth, policy)
  }

  lemma {:induction false} RunAnchoredIff(db: Db, steps: seq<Step>, depth: nat, policy: Policy)
    requires Anchored(db)
    ensures AnchoredAlong(db, steps, depth, policy) <==> NeverUnanchors(db, steps, depth, policy)
    ensures NeverUnanchors(db, steps, depth, policy) ==> Anchored(Run(db, steps, depth, policy))
    decreases |steps|
  {
    if steps != [] {
      StepAnchoredIff(db, steps[0], depth, policy);
      if !Unanchors(db, steps[0]) {
        RunAnchoredIff(Apply(db, steps[0], depth, policy), steps[1..], depth, policy);
      }
    }
  }

  /** From the empty database on, final readings and the checkpoint stay anchored in
      exactly the runs that never replace an empty stored hash under one of them. */
  lemma AlwaysAnchoredIff(steps: seq<Step>, depth: nat, policy: Policy)
    ensures AnchoredAlong(Empty, steps, depth, policy) <==> NeverUnanchors(Empty, steps, depth, policy)
  {
    RunAnchoredIff(Empty, steps, depth, policy);
  }

  ghost predicate HashesPresent(db: Db) {
    forall q :: q in db.ledgers ==> db.ledgers[q].hash != ""
  }

  lemma {:induction false} NonEmptyNeverUnanchors(db: Db, steps: seq<Step>, depth: nat, policy: Policy)
    requires HashesPresent(db)
    requires forall k :: 0 <= k < |steps| && steps[k].ObserveStep? ==> steps[k].hash != ""
    ensures NeverUnanchors(db, steps, depth, policy)
    decreases |steps|
  {
    if steps != [] {
      assert steps[0].ObserveStep? ==> steps[0].hash != "";
      NonEmptyNeverUnanchors(Apply(db, steps[0], depth, policy), steps[1..], depth, policy);
    }
  }

  /** In particular they stay anchored in every run whose observed hashes are not empty. */
  lemma AlwaysAnchored(steps: seq<Step>, depth: nat, policy: Policy)
    requires forall k :: 0 <= k < |steps| && steps[k].ObserveStep? ==> steps[k].hash != ""
    ensures Anchored(Run(Empty, steps, depth, policy))
  {
    NonEmptyNeverUnanchors(Empty, steps, depth, policy);
    RunAnchoredIff(Empty, steps, depth, policy);
  }

  /** A run that loses both anchors: ledger 1 is observed with an empty hash, a reading on
      it becomes final and the checkpoint reaches it, and then its hash appears. */
  lemma EmptyHashLosesAnchors(reading: Step, policy: Policy)
    requires reading.RecordStep? && reading.ledger == 1 && reading.hash == ""
    ensures var t := Run(Empty, [ObserveStep(1, "", None), reading, PromoteStep(1), ObserveStep(1, "x", None)], 0, policy);
      !FinalAnchored(t) && !CheckpointAnchored(t)
  {
    var steps := [ObserveStep(1, "", None), reading, PromoteStep(1), ObserveStep(1, "x", None)];
    var a := Observe(Empty, 1, "", None);
    var b := Apply(a, reading, 0, policy);
    var c := Promote(b, 1, 0);
    var t := Observe(c, 1, "x", None);
    assert c.readings[0].finality.Final?;
    assert t.readings[0].finality.Final? && StoredHash(t, 1) == Some("x");
    assert steps[1..] == [reading, PromoteStep(1), ObserveStep(1, "x", None)];
    assert steps[1..][1..] == [PromoteStep(1), ObserveStep(1, "x", None)];
    assert steps[1..][1..][1..] == [ObserveStep(1, "x", None)];
    assert Run(b, steps[1..][1..], 0, policy) == Run(c, steps[1..][1..][1..], 0, policy) == t;
    assert Run(Empty, steps, 0, policy) == Run(a, steps[1..], 0, policy) == t;
  }

  // ---------------------------------------------------------------------------
  // Runs only move forward
  // ---------------------------------------------------------------------------

  /** The reading keeps what it was recorded with, and stays invalidated once it is. */
  predicate ReadingForward(r: Reading, r': Reading) {
    && r' == r.(finality := r'.finality, decision := r'.decision)
    && (r.finality.Invalidated? ==> r'.finality.Invalidated?)
  }

  predicate DecisionForward(d: Decision, d': Decision) {
    d' == d.(status := d'.status) && (d.status.Superseded? ==> d'.status.Superseded?)
  }

  ghost predicate Forward(db: Db, t: Db) {
    && |db.readings| <= |t.readings| && |db.decisions| <= |t.decisions| && db.evidence <= t.evidence
    && (forall i :: 0 <= i < |db.readings| ==> ReadingForward(db.readings[i], t.readings[i]))
    && (forall d :: 0 <= d < |db.decisions| ==> DecisionForward(db.decisions[d], t.decisions[d]))
  }

  lemma ReorgMovesForward(db: Db, q: int, o: Hash, n: Hash)
    ensures Forward(db, Reorg(db, q, o, n))
  {
    var t := Reorg(db, q, o, n);
    forall d: nat | d < |db.decisions|
      ensures DecisionForward(db.decisions[d], t.decisions[d])
    {
      ReorgSupersedes(db, q, o, n, d);
    }
  }

  lemma ForwardJoins(a: Db, b: Db, c: Db)
    requires Forward(a, b) && Forward(b, c)
    ensures Forward(a, c)
  {
  }

  lemma ForwardIsReflexive(db: Db)
    ensures Forward(db, db)
  {
  }

  lemma MaybeReorgMovesForward(db: Db, q: int, o: Hash, n: Hash, reorged: bool)
    ensures Forward(db, if reorged then Reorg(db, q, o, n) else db)
  {
    ForwardIsReflexive(db);
    ReorgMovesForward(db, q, o, n);
  }

  lemma ObserveMovesForward(db: Db, q: int, hash: Hash, prevHash: Option<Hash>)
    ensures Forward(db, Observe(db, q, hash, prevHash))
  {
    var db1 := AfterOwnReorg(db, q, hash);
    var db2 := AfterReorgs(db, q, hash, prevHash);
    var o := if q in db.ledgers then db.ledgers[q].hash else "";
    MaybeReorgMovesForward(db, q, o, hash, Diverges(db, q, hash));
    var o1 := if q - 1 in db1.ledgers then db1.ledgers[q - 1].hash else "";
    var n1 := if prevHash.Some? then prevHash.value else "";
    MaybeReorgMovesForward(db1, q - 1, o1, n1, ParentDiverges(db1, q, prevHash));
    ForwardJoins(db, db1, db2);
    SameTablesForward(db2, Observe(db, q, hash, prevHash));
    ForwardJoins(db, db2, Observe(db, q, hash, prevHash));
  }

  lemma SameTablesForward(db: Db, t: Db)
    requires t == db.(ledgers := t.ledgers, checkpoint := t.checkpoint)
    ensures Forward(db, t)
  {
  }

  lemma StepMovesForward(db: Db, step: Step, depth: nat, policy: Policy)
    ensures Forward(db, Apply(db, step, depth, policy))
  {
    if step.ObserveStep? {
      ObserveMovesForward(db, step.ledger, step.hash, step.prevHash);
    }
  }

  /** Over any run, invalidated and superseded are terminal, recorded values never
      change, and the evidence ledger is only appended to. */
  lemma {:induction false} RunMovesForward(db: Db, steps: seq<Step>, depth: nat, policy: Policy)
    ensures Forward(db, Run(db, steps, depth, policy))
    decreases |steps|
  {
    if steps != [] {
      StepMovesForward(db, steps[0], depth, policy);
      var next := Apply(db, steps[0], depth, policy);
      RunMovesForward(next, steps[1..], depth, policy);
      ForwardJoins(db, next, Run(db, steps, depth, policy));
    }
  }

  // ---------------------------------------------------------------------------
  // The checkpoint
  // ---------------------------------------------------------------------------

  /** The lowest ledger whose stored hash the observation contradicts. */
  function ReorgedAt(db: Db, q: int, hash: Hash, prevHash: Option<Hash>): Option<int> {
    if ParentDiverges(AfterOwnReorg(db, q, hash), q, prevHash) then Some(q - 1)
    else if Diverges(db, q, hash) then Some(q)
    else None
  }

  function ReorgOf(db: Db, step: Step): Option<int> {
    if step.ObserveStep? then ReorgedAt(db, step.ledger, step.hash, step.prevHash) else None
  }

  /** Where a reorg at `q` puts a checkpoint that has reached it. */
  function Before(q: int): int {
    if q - 1 > 0 then q - 1 else 0
  }

  /** One transaction moves the checkpoint back only to before a reorg, and a reorg leaves
      it nowhere past that. */
  lemma StepMovesCheckpoint(db: Db, step: Step, depth: nat, policy: Policy)
    requires db.checkpoint.Some?
    ensures var t, reorged := Apply(db, step, depth, policy), ReorgOf(db, step);
      && t.checkpoint.Some?
      && (t.checkpoint.value.ledger < db.checkpoint.value.ledger ==>
            reorged.Some? && t.checkpoint.value.ledger == Before(reorged.value))
      && (reorged.Some? ==> t.checkpoint.value.ledger <= Before(reorged.value))
  {
  }

  /** Some transaction of the run is a reorg at a ledger whose predecessor is at most `low`. */
  predicate ReorgsBackTo(db: Db, steps: seq<Step>, depth: nat, policy: Policy, low: int)
    decreases |steps|
  {
    steps != [] &&
    (|| (ReorgOf(db, steps[0]).Some? && Before(ReorgOf(db, steps[0]).value) <= low)
     || ReorgsBackTo(Apply(db, steps[0], depth, policy), steps[1..], depth, policy, low))
  }

  /** Over any run the checkpoint falls only if a reorg on the way reaches back to where
      it is in the end. */
  lemma {:induction false} CheckpointFallsOnlyOnReorg(db: Db, steps: seq<Step>, depth: nat, policy: Policy)
    requires db.checkpoint.Some?
    ensures var t := Run(db, steps, depth, policy);
      && t.checkpoint.Some?
      && (t.checkpoint.value.ledger < db.checkpoint.value.ledger ==>
            ReorgsBackTo(db, steps, depth, policy, t.checkpoint.value.ledger))
    decreases |steps|
  {
    if steps != [] {
      StepMovesCheckpoint(db, steps[0], depth, policy);
      CheckpointFallsOnlyOnReorg(Apply(db, steps[0], depth, policy), steps[1..], depth, policy);
    }
  }

  predicate NoPromotion(steps: seq<Step>) {
    forall k :: 0 <= k < |steps| ==> !steps[k].PromoteStep?
  }

  lemma {:induction false} CheckpointWaits(db: Db, steps: seq<Step>, depth: nat, policy: Policy)
    requires db.checkpoint.Some? && NoPromotion(steps)
    ensures var t := Run(db, steps, depth, policy);
      t.checkpoint.Some? && t.checkpoint.value.ledger <= if db.checkpoint.value.ledger > 0 then db.checkpoint.value.ledger else 0
    decreases |steps|
  {
    if steps != [] {
      assert !steps[0].PromoteStep?;
      CheckpointWaits(Apply(db, steps[0], depth, policy), steps[1..], depth, policy);
    }
  }

  /** After a reorg, until readings are promoted again, the poller resumes at the reorged
      ledger or before it (at ledger 1 at the earliest), whatever else happens. */
  lemma ResumesBeforeReorg(db: Db, step: Step, more: seq<Step>, depth: nat, policy: Policy)
    requires db.checkpoint.Some? && ReorgOf(db, step).Some? && NoPromotion(more)
    ensures var t := Run(Apply(db, step, depth, policy), more, depth, policy);
      var q := ReorgOf(db, step).value;
      ResumeLedger(t).Some? && ResumeLedger(t).value <= if q > 1 then q else 1
  {
    StepMovesCheckpoint(db, step, depth, policy);
    CheckpointWaits(Apply(db, step, depth, policy), more, depth, policy);
  }

  // ---------------------------------------------------------------------------
  // Decisions
  // ---------------------------------------------------------------------------

  /** An active decision rests on an invalidated reading only if a later decision
      cites that reading too. */
  lemma ActiveDecisionsRestOnLiveReadings(db: Db, d: nat, i: nat)
    requires Books(db) && Cites(db, d, i) && db.decisions[d].status.Active? && IsInvalidated(db, i)
    ensures exists e :: e > d && Cites(db, e, i)
  {
    assert LinkedNoEarlier(db, i, d);
    assert Cites(db, db.readings[i].decision.value, i);
  }

  /** When no reading is cited by two decisions, no active decision cites an invalidated reading. */
  lemma UniqueCitationsAreSafe(db: Db)
    requires Books(db)
    requires forall d: nat, e: nat, i: nat :: Cites(db, d, i) && Cites(db, e, i) ==> d == e
    ensures forall d: nat, i: nat :: Cites(db, d, i) && db.decisions[d].status.Active? ==> !IsInvalidated(db, i)
  {
    forall d: nat, i: nat | Cites(db, d, i) && db.decisions[d].status.Active? && IsInvalidated(db, i)
      ensures false
    {
      ActiveDecisionsRestOnLiveReadings(db, d, i);
    }
  }

  /** So it is after every run, whatever hashes are observed. */
  lemma UniqueCitationsStaySafe(steps: seq<Step>, depth: nat, policy: Policy)
    ensures var db := Run(Empty, steps, depth, policy);
      (forall d: nat, e: nat, i: nat :: Cites(db, d, i) && Cites(db, e, i) ==> d == e) ==>
        forall d: nat, i: nat :: Cites(db, d, i) && db.decisions[d].status.Active? ==> !IsInvalidated(db, i)
  {
    var db := Run(Empty, steps, depth, policy);
    BooksAlwaysExact(steps, depth, policy);
    if forall d: nat, e: nat, i: nat :: Cites(db, d, i) && Cites(db, e, i) ==> d == e {
      UniqueCitationsAreSafe(db);
    }
  }

  /** Citing a reading again takes its link away from the first decision: when nothing
      else links to that decision, it stays active after the reading is invalidated. */
  lemma SecondCitationHidesTheFirst(db: Db, d: nat, i: nat, policy: Policy, newHash: Hash)
    requires FinalAnchored(db) && CitesLinked(db) && Cites(db, d, i)
    requires db.decisions[d].status.Active? && db.readings[i].finality.Final? && db.readings[i].hash != ""
    requires forall j :: 0 <= j < |db.readings| && j != i ==> db.readings[j].decision != Some(d)
    requires newHash != db.readings[i].hash
    ensures var r := db.readings[i];
      var t := Observe(Decide(db, r.coverage, [i], policy), r.ledger, newHash, None);
      Cites(t, d, i) && t.decisions[d].status.Active? && IsInvalidated(t, i)
  {
    var r := db.readings[i];
    var cited := Decide(db, r.coverage, [i], policy);
    assert forall k :: 0 <= k < |[i]| ==> [i][k] == i;
    assert cited.readings[i].decision == Some(|db.decisions|);
    assert Diverges(cited, r.ledger, newHash);
    assert Hit(cited.readings[i], r.ledger, newHash);
    ReorgSupersedes(cited, r.ledger, cited.ledgers[r.ledger].hash, newHash, d);
  }

  // ---------------------------------------------------------------------------
  // The service
  // ---------------------------------------------------------------------------

  datatype ReorgResult = ReorgResult(reorgedAt: Option<int>, invalidated: seq<nat>, superseded: seq<nat>)

  /** What one observation reports: the readings and decisions its reorgs hit, in order. */
  function Report(db: Db, q: int, newHash: Hash, sofar: ReorgResult): ReorgResult {
    var linked := LinkedToHits(db, q, newHash);
    ReorgResult(Some(q), sofar.invalidated + Hits(db, q, newHash),
                sofar.superseded + StillActive(db.decisions, linked, |linked|))
  }

  function ReportAll(db: Db, q: int, hash: Hash, prevHash: Option<Hash>): ReorgResult {
    var none := ReorgResult(None, [], []);
    var own := if Diverges(db, q, hash) then Report(db, q, hash, none) else none;
    var db1 := AfterOwnReorg(db, q, hash);
    if ParentDiverges(db1, q, prevHash) then Report(db1, q - 1, prevHash.value, own) else own
  }

  lemma {:induction false} SameLinks(rs: seq<Reading>, rs': seq<Reading>, ids: seq<nat>, k: nat)
    requires k <= |ids| && |rs| == |rs'| && forall i :: 0 <= i < |rs| ==> rs[i].decision == rs'[i].decision
    ensures Linked(rs, ids, k) == Linked(rs', ids, k)
  {
    if k > 0 {
      SameLinks(rs, rs', ids, k - 1);
    }
  }

  lemma LogJoined(a: seq<Evidence>, b: seq<Evidence>, c: seq<Evidence>, d: seq<Evidence>)
    ensures a + b + c + d == a + (b + c + d)
  {
  }

  class HorizonFinalityService {
    const depth: nat
    const policy: Policy
    var ledgers: map<int, Ledger>
    var readings: seq<Reading>
    var decisions: seq<Decision>
    var evidence: seq<Evidence>
    var checkpoint: Option<Checkpoint>

    function View(): Db
      reads this
    {
      Db(ledgers, readings, decisions, evidence, checkpoint)
    }

    constructor (depth: nat, policy: Policy)
      ensures View() == Empty && this.depth == depth && this.policy == policy
    {
      this.depth, this.policy := depth, policy;
      ledgers, readings, decisions, evidence, checkpoint := map[], [], [], [], None;
    }

    method RecordReading(coverage: string, source: string, value: real, ledger: int, hash: Hash) returns (id: nat)
      modifies this
      ensures View() == Record(old(View()), coverage, source, value, ledger, hash)
      ensures id == old(|readings|)
    {
      id := |readings|;
      readings := readings + [Reading(coverage, source, value, ledger, hash, Provisional, None)];
    }

    /** Invalidates the hit readings one by one and returns their ids. */
    method InvalidateReadings(q: int, newHash: Hash) returns (affected: seq<nat>)
      modifies this`readings
      ensures readings == InvalidateAll(old(readings), q, newHash)
      ensures affected == Affected(old(readings), q, newHash, |old(readings)|)
    {
      affected := [];
      ghost var was := readings;
      for i := 0 to |readings|
        invariant |readings| == |was|
        invariant forall k :: 0 <= k < i ==> readings[k] == Invalidate(was[k], q, newHash)
        invariant forall k :: i <= k < |was| ==> readings[k] == was[k]
        invariant affected == Affected(was, q, newHash, i)
      {
        if readings[i].ledger == q && readings[i].hash != newHash && readings[i].finality != Invalidated {
          readings := readings[i := readings[i].(finality := Invalidated)];
          affected := affected + [i];
        }
      }
    }

    /** Records each invalidation and collects the decisions the readings link to. */
    method RecordInvalidations(affected: seq<nat>, q: int, oldHash: Hash, newHash: Hash) returns (linked: seq<nat>)
      modifies this`evidence
      ensures linked == Linked(readings, affected, |affected|)
      ensures evidence == old(evidence) + Invalidations(affected, |affected|, q, oldHash, newHash)
    {
      linked := [];
      for k := 0 to |affected|
        invariant linked == Linked(readings, affected, k)
        invariant evidence == old(evidence) + Invalidations(affected, k, q, oldHash, newHash)
      {
        var i := affected[k];
        evidence := evidence + [ReadingInvalidated(q, i, oldHash, newHash)];
        if i < |readings| && readings[i].decision.Some? && readings[i].decision.value !in linked {
          linked := linked + [readings[i].decision.value];
        }
      }
    }

    /** Supersedes the linked decisions that are still active, recording each. */
    method SupersedeDecisions(linked: seq<nat>, q: int, oldHash: Hash, newHash: Hash) returns (gone: seq<nat>)
      requires Distinct(linked)
      modifies this`decisions, this`evidence
      ensures decisions == SupersedeAll(old(decisions), linked, |linked|)
      ensures gone == StillActive(old(decisions), linked, |linked|)
      ensures evidence == old(evidence) + Supersessions(old(decisions), linked, |linked|, q, oldHash, newHash)
    {
      gone := [];
      ghost var was, log := decisions, evidence;
      for k := 0 to |linked|
        invariant decisions == SupersedeAll(was, linked, k)
        invariant gone == StillActive(was, linked, k)
        invariant evidence == log + Supersessions(was, linked, k, q, oldHash, newHash)
      {
        var d := linked[k];
        if d < |was| {
          SupersedeEach(was, linked, k, d);
        }
        if d < |decisions| && decisions[d].status.Active? {
          decisions := decisions[d := decisions[d].(status := Superseded)];
          gone := gone + [d];
          evidence := evidence + [DecisionSuperseded(q, d, oldHash, newHash)];
        }
      }
    }

    method HandleReorg(q: int, oldHash: Hash, newHash: Hash, sofar: ReorgResult) returns (result: ReorgResult)
      modifies this
      ensures View() == Reorg(old(View()), q, oldHash, newHash)
      ensures result == Report(old(View()), q, newHash, sofar)
    {
      evidence := evidence + [LedgerReorg(q, oldHash, newHash)];
      var affected := InvalidateReadings(q, newHash);
      var linked := RecordInvalidations(affected, q, oldHash, newHash);
      SameLinks(readings, old(readings), affected, |affected|);
      LinkedAreLinked(readings, affected, |affected|);
      var gone := SupersedeDecisions(linked, q, oldHash, newHash);
      if checkpoint.Some? && checkpoint.value.ledger >= q {
        checkpoint := Some(Checkpoint(if q - 1 > 0 then q - 1 else 0, None));
      }
      if q in ledgers {
        ledgers := ledgers[q := ledgers[q].(hash := newHash)];
      }
      LogJoined(old(evidence), [LedgerReorg(q, oldHash, newHash)],
                Invalidations(affected, |affected|, q, oldHash, newHash),
                Supersessions(old(decisions), linked, |linked|, q, oldHash, newHash));
      result := ReorgResult(Some(q), sofar.invalidated + affected, sofar.superseded + gone);
    }

    method ObserveLedger(q: int, hash: Hash, prevHash: Option<Hash>) returns (result: ReorgResult)
      modifies this
      ensures View() == Observe(old(View()), q, hash, prevHash)
      ensures result == ReportAll(old(View()), q, hash, prevHash)
    {
      result := ReorgResult(None, [], []);
      if q in ledgers && ledgers[q].hash != "" && ledgers[q].hash != hash {
        result := HandleReorg(q, ledgers[q].hash, hash, result);
      }
      if prevHash.Some? && prevHash.value != "" && q > 1 {
        if q - 1 in ledgers && ledgers[q - 1].hash != "" && ledgers[q - 1].hash != prevHash.value {
          result := HandleReorg(q - 1, ledgers[q - 1].hash, prevHash.value, result);
        }
      }
      ledgers := ledgers[q := Ledger(hash, prevHash)];
    }

    method PromoteFinalized(latest: int) returns (promoted: seq<nat>)
      modifies this
      ensures View() == Promote(old(View()), latest, depth)
      ensures forall i :: i in promoted <==>
                latest - depth >= 1 && 0 <= i < |old(readings)| && Promotable(old(View()), old(readings)[i], latest - depth)
    {
      promoted := [];
      var upTo := latest - depth;
      if upTo < 1 {
        return;
      }
      ghost var was := View();
      for i := 0 to |readings|
        invariant |readings| == |was.readings| && ledgers == was.ledgers && decisions == was.decisions
        invariant evidence == was.evidence && checkpoint == was.checkpoint
        invariant forall k :: 0 <= k < i ==> readings[k] == PromoteOne(was, was.readings[k], upTo)
        invariant forall k :: i <= k < |was.readings| ==> readings[k] == was.readings[k]
        invariant forall k :: k in promoted <==> 0 <= k < i && Promotable(was, was.readings[k], upTo)
      {
        var r := readings[i];
        if r.finality.Provisional? && r.ledger <= upTo && r.ledger in ledgers && ledgers[r.ledger].hash == r.hash {
          readings := readings[i := r.(finality := Final)];
          promoted := promoted + [i];
        }
      }
      var hash := if upTo in ledgers then Some(ledgers[upTo].hash) else None;
      if checkpoint.None? || upTo >= checkpoint.value.ledger {
        checkpoint := Some(Checkpoint(upTo, hash));
      }
    }

    method GetResumeLedger() returns (next: Option<int>)
      ensures next == ResumeLedger(View())
    {
      next := if checkpoint.None? then None else Some(checkpoint.value.ledger + 1);
    }

    method RecordDecision(coverage: string, ids: seq<nat>) returns (r: Result<nat, DecisionError>)
      modifies this
      ensures View() == Decide(old(View()), coverage, ids, policy)
      ensures match DecisionRefused(old(View()), ids, policy)
              case Some(e) => r == Failure(e)
              case None => r == Success(|old(decisions)|)
    {
      if ids == [] {
        return Failure(NoReadings);
      }
      for k := 0 to |ids|
        invariant forall j :: 0 <= j < k ==> ids[j] < |readings| && Eligible(readings[ids[j]], policy)
        invariant View() == old(View())
      {
        if ids[k] >= |readings| || !Eligible(readings[ids[k]], policy) {
          return Failure(NotEligible);
        }
      }
      ghost var was := readings;
      var d := |decisions|;
      decisions := decisions + [Decision(coverage, Active, set i | i in ids)];
      for k := 0 to |ids|
        invariant |readings| == |was| && decisions == old(decisions) + [Decision(coverage, Active, set i | i in ids)]
        invariant forall i :: 0 <= i < |was| ==>
          readings[i] == if i in ids[..k] then was[i].(decision := Some(d)) else was[i]
        invariant ledgers == old(ledgers) && evidence == old(evidence) && checkpoint == old(checkpoint)
      {
        readings := readings[ids[k] := readings[ids[k]].(decision := Some(d))];
      }
      assert ids[..|ids|] == ids;
      r := Success(d);
    }
  }
}
