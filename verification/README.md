# Verification of the Refract oracle and claims backend

This project models the protocols and algorithms the backend's safety rests on and
proves their properties in Dafny, each in a module of its own:

- `Leader`: the Redis lease that elects one oracle instance. Any number of electors,
  one key with an expiry, one epoch counter, one clock. Sending a command, executing it
  and receiving its reply are separate steps; replies may be lost and abandoned commands
  may still take effect.
- `PublishQueue`, `Publisher`, `BatchPublisher`, `Scheduler`, `PublishOrder`,
  `PublishOutcome`: the durable publish
  queue and the publisher that claims, reconciles, submits, splits, retries and
  dead-letters batches. `Publisher` is the small-step machine in which any number of
  workers, the queue and an adversarial chain interleave; `BatchPublisher` is the
  recursive code, whose every statement is a step of that machine; `Scheduler` is the pass
  that claims batches into free slots; `PublishOutcome` says what becomes of each row.
- `Finality`, `FinalityRules`: Horizon ledgers, readings, decisions, the checkpoint and the evidence log,
  with each transaction one step.
- `UnionFind`, `Independence`, `ClusterCorroboration`, `Corroboration`: independence
  clusters and the two corroboration algorithms.
- `EventIngestion`: paged ingestion of contract events.
- `Simulator`, `SimulatorRules`: the replay of historical readings.
- `Alerting`, `AlertingRules`: incident routing with a storm guard.
- `AttackCost`: the attack-cost model.
- `Decimal`, `Provenance`, `PublishPayload`: printers, parsers and encodings.
- `Pagination`: keyset pagination.
- `RecoveryGate`: the canary gate after a trip.

`Wrappers`, `Lists`, `Sorting`, `Stats`, `OrderedMap`, `Paths`, `Arithmetic` and `Digits`
hold what several modules share. Integers are unbounded, JavaScript numbers are reals
where rounding is not the point, each SQL statement or transaction is atomic, and times
are parameters.

Five promises hold only under a condition, and the project proves both sides:

- Fencing tokens order the leases as long as no late `SET NX` is granted to an instance
  that already holds a grant, whatever the order in which `INCR`s, renewals and releases
  take effect (`Leader.Fencing`). The grants, tokens and key of a run fit together in
  exactly these runs (`Leader.RunFencedIff`); a late grant misleads
  (`Leader.LateGrantMisleads`, `Leader.FencingNeedsSafeGrants`). It is enough that an
  instance's `SET NX` commands take effect in the order they were sent
  (`Leader.FencingIfSetsInOrder`). Exclusion holds in any order until a shutdown release
  takes effect (`Leader.Exclusion`, `Leader.OwnsUntilReleased`,
  `Leader.ReleaseWindowOverlaps`).
- A feed's decisions take effect on chain in id order as long as the last live row a feed
  has in an undecided transaction is not dead-lettered (`Publisher.TakesEffectInOrder`).
  Queue, transactions and chain stay in order in exactly these runs
  (`Publisher.RunOrderedIff`); dead-lettering the last row can reverse two decisions
  (`PublishOrder.OrderNeedsPatience`). That no decision takes effect twice needs no such
  condition (`Publisher.AtMostOnce`).
- Stored events start at the configured ledger if and only if a first query beyond the
  next ledger is refused by the RPC (`EventIngestion.FirstPollKeepsStartIff`,
  `EventIngestion.EarlyStartStoresTooMuch`).
- Clusters do not depend on the order in which sources are listed if and only if entries of
  one id declare the same cluster or none (`Independence.OrderIndependent`,
  `Independence.OrderMatters`).
- Final readings and the checkpoint stay anchored to the stored ledger hashes in exactly
  the runs that never replace an empty stored hash under one of them
  (`Finality.AlwaysAnchoredIff`, `Finality.EmptyHashLosesAnchors`). Evidence and links
  are exact in every run (`Finality.BooksAlwaysExact`).

Smaller ones: a reading cited by two decisions protects only the later one
(`Finality.SecondCitationHidesTheFirst`); a safety factor below one basis point truncates
to zero (`AttackCost.FractionalBoundIff`); values outside the i128 range share
their payload with one inside (`PublishPayload.SameBuiltIff`,
`PublishPayload.OutOfRangeCollides`).

Where the code and its comments differ, the model follows the code: collusion cost is the
dependent share of the bribe cost; the safety factor is the raw basis-point integer, not
a ratio.

## Model

| member | source | states |
|---|---|---|
| Leader.LeaderElector.AssertLeadership | src/leader/leader-elector.service.ts:97-117 | returns the current token exactly while an unexpired lease is held, and refuses otherwise |
| Leader.LeaderElector.Tick | src/leader/leader-elector.service.ts:128-144 | a tick starts only if none is in progress; it acquires without a token and renews with one, remembering the time before the command was sent |
| Leader.LeaderElector.AcquireGranted | src/leader/leader-elector.service.ts:146-152 | only a granted lease goes on to draw a fencing token |
| Leader.LeaderElector.AcquireDone | src/leader/leader-elector.service.ts:152-158 | the drawn counter becomes the token and the deadline runs from before the `SET` |
| Leader.LeaderElector.RenewDone | src/leader/leader-elector.service.ts:160-168 | a successful renewal moves the deadline, a refused one steps down |
| Leader.LeaderElector.HandleRedisError | src/leader/leader-elector.service.ts:184-199 | an error inside a tick ends it and steps down |
| Leader.LeaderElector.Shutdown | src/leader/leader-elector.service.ts:119-126 | shutdown stops the timer and releases the lease only with a token |
| Leader.LeaderElector.ReleaseDone | src/leader/leader-elector.service.ts:170-182 | the instance steps down once the release has returned or failed |
| Leader.StepKeepsInv | src/leader/leader-elector.service.ts:128-199 | every step of every instance keeps: whoever trusts a lease owns the key until its own deadline |
| Leader.Exclusion | src/leader/leader-elector.service.ts:97-102 | in every run, with lost replies, late commands, errors and shutdowns, at most one instance whose release has not taken effect is leader; it owns the key and its deadline is at most the key's expiry |
| Leader.OwnsUntilReleased | src/leader/leader-elector.service.ts:119-126 | a leader that stays one stops owning the key if and only if its own release takes effect |
| Leader.TickAsks | src/leader/leader-elector.service.ts:128-144 | a tick reads the clock, then asks for the lease without a token and for a renewal with one |
| Leader.AcquiredLeads | src/leader/leader-elector.service.ts:146-158 | an acquire that completes leads with the drawn counter exactly until one lease time after the clock read before the `SET` |
| Leader.RenewalAnswered | src/leader/leader-elector.service.ts:160-168 | a successful renewal leads exactly until one lease time after the clock read before it; a refused one never |
| Leader.ErrorStopsLeading | src/leader/leader-elector.service.ts:170-199 | after an error inside a tick, or a finished release, the instance is refused at every time |
| Leader.RefusedUntilAcquired | src/leader/leader-elector.service.ts:97-117 | without a token an instance goes on being refused in every run until an acquire of its own completes |
| Leader.Fencing | src/leader/leader-elector.service.ts:109-182 | in every run that grants no lease to an instance holding one, with `INCR`s, renewals and releases as late as they like, tokens returned under an earlier lease are smaller than tokens returned under a later one, each lease has one token, and a leader acts under the lease the key records |
| Leader.StepFencedIff | src/leader/leader-elector.service.ts:146-182 | a step keeps grants, tokens and the key together if and only if it grants no `SET NX` to an instance that has a token, awaits its `INCR` or has a granted reply waiting |
| Leader.RunFencedIff | src/leader/leader-elector.service.ts:128-182 | they fit together in every state of a run if and only if the run makes no such grant |
| Leader.FencingIfSetsInOrder | src/leader/leader-elector.service.ts:146-152 | no such grant happens, and fencing holds, if no `SET NX` overtakes an earlier one of its instance |
| Leader.FencingIfInOrder | src/leader/leader-elector.service.ts:128-182 | so it does if each instance's commands take effect in the order they were sent |
| Leader.ReleaseWindowOverlaps | src/leader/leader-elector.service.ts:170-182 | between the effect of a release and its reply two instances can both be leader |
| Leader.LateGrantMisleads | src/leader/leader-elector.service.ts:146-168 | from whatever state, once a late `SET NX` is granted to an idle instance with a token, its next renewal makes it leader under a lease other than its token's |
| Leader.FencingNeedsSafeGrants | src/leader/leader-elector.service.ts:146-168 | a run in which an abandoned `SET` is granted late and tokens are not ordered |
| PublishQueue.OraclePublishQueueRepository.InsertDecision | src/oracle/oracle-publish-queue.repository.ts:56-64 | a decision is queued once per key, pending and due at once |
| PublishQueue.OraclePublishQueueRepository.ClaimBatch | src/oracle/oracle-publish-queue.repository.ts:75-105 | claims at most `limit` rows in id order, marks exactly these in flight, and with a row claims every earlier open row of its feed |
| PublishQueue.ClaimTakesPrefixes | src/oracle/oracle-publish-queue.repository.ts:75-105 | a claim takes a prefix of each feed's open rows: pending and due, within the per-feed cap, never of an excluded feed |
| PublishQueue.ClaimRespectsLimit | src/oracle/oracle-publish-queue.repository.ts:75-105 | a claim never exceeds its limit |
| PublishQueue.ClaimPrefersPriority | src/oracle/oracle-publish-queue.repository.ts:66-96 | when a claim takes a row and leaves a claimable one, the first one's feed has a waiting row of priority as high as any of the other's, and if so the other way round, the row taken is older |
| PublishQueue.ClaimIsFull | src/oracle/oracle-publish-queue.repository.ts:75-96 | a claim takes only rows that are pending and due with all earlier waiting rows of their feed, within the cap and not excluded, and as many of these as there are up to its limit |
| PublishQueue.OraclePublishQueueRepository.MarkPublishedRows | src/oracle/oracle-publish-queue.repository.ts:107-115 | exactly the given rows become published with the hash |
| PublishQueue.OraclePublishQueueRepository.ReleaseRows | src/oracle/oracle-publish-queue.repository.ts:118-127 | exactly the given rows become pending and due later; a new hash replaces the old one, none keeps it |
| PublishQueue.OraclePublishQueueRepository.MarkFailedRows | src/oracle/oracle-publish-queue.repository.ts:130-136 | exactly the given rows become failed |
| Publisher.StepKeepsInv | src/oracle/oracle-batch-publisher.service.ts:142-341 | every step keeps: each transaction that may apply a row is known by the row's hash or by the worker holding it, no row has two, workers hold disjoint feeds and prefixes of them |
| Publisher.RunKeepsInv | src/oracle/oracle-batch-publisher.service.ts:142-341 | the same in every reachable state |
| Publisher.AtMostOnce | src/oracle/oracle-batch-publisher.service.ts:238-265 | in every run of any number of workers no decision takes effect on chain twice |
| Publisher.SubmitsInOrder | src/oracle/oracle-batch-publisher.service.ts:214-230 | a submitted row is not on chain and in no transaction that may still apply it, and every earlier row of its feed is published, failed or in the same batch |
| Publisher.NothingIsLost | src/oracle/oracle-batch-publisher.service.ts:209-213 | a row in flight is always held by a worker; with no worker left none is in flight |
| Publisher.TakesEffectInOrder | src/oracle/oracle-batch-publisher.service.ts:209-341 | in every run that never dead-letters the last live row a feed has in an undecided transaction, the decisions of each feed take effect in id order |
| Publisher.StepOrderedIff | src/oracle/oracle-batch-publisher.service.ts:327-341 | a step keeps each feed waiting for its undecided transaction, and queue, transactions and chain in order, if and only if it dead-letters no such last row |
| Publisher.RunOrderedIff | src/oracle/oracle-batch-publisher.service.ts:209-341 | they are in order in every state of a run if and only if no step of the run does |
| Publisher.RunKeepsDecisions | src/oracle/oracle-publish-queue.repository.ts:107-136 | rows are never removed, reordered or given another decision |
| Publisher.ProcessTerminates | src/oracle/oracle-batch-publisher.service.ts:267-325 | however steps interleave, a worker takes only so many steps of its own: every split shortens the batch it recurses on |
| Publisher.ClaimedRank | src/oracle/oracle-batch-publisher.service.ts:214-325 | a fresh batch of n rows is done within 2n(n+4) steps |
| BatchPublisher.OracleBatchPublisher.Process | src/oracle/oracle-batch-publisher.service.ts:214-230 | whatever the chain answers, processing ends by steps of the machine and leaves every row of the batch published, pending or failed |
| BatchPublisher.OracleBatchPublisher.ProcessBatch | src/oracle/oracle-batch-publisher.service.ts:214-230 | reconciling, submitting and splitting finish with the worker holding nothing |
| BatchPublisher.OracleBatchPublisher.ReconcileBatch | src/oracle/oracle-batch-publisher.service.ts:238-265 | the hashes are looked up one by one until the batch is done, deferred or ready to submit |
| BatchPublisher.OracleBatchPublisher.ProcessSplit | src/oracle/oracle-batch-publisher.service.ts:288-295 | the second half is processed only after the first is published, and released otherwise |
| BatchPublisher.OracleBatchPublisher.PublishOrRelease | src/oracle/oracle-batch-publisher.service.ts:297-325 | publishes the batch in order, halving it as asked, or leaves the rest to be released |
| BatchPublisher.OracleBatchPublisher.RetryLater | src/oracle/oracle-batch-publisher.service.ts:327-341 | exhausted rows are failed, then the others released |
| BatchPublisher.LetGoHasLanded | src/oracle/oracle-batch-publisher.service.ts:209-213 | rows a finished worker held are published, pending or failed |
| Scheduler.BatchScheduler.Tick | src/oracle/oracle-batch-publisher.service.ts:142-161 | with other batches moving on and settling before every claim, claims batches until the slots are full or nothing is claimable, never starting more than the slots allow, forgetting no running batch; every claim is a step of the machine |
| Scheduler.BatchScheduler.Meanwhile | src/oracle/oracle-batch-publisher.service.ts:153-158 | whatever happens while the pass waits keeps the feeds in flight exact and only frees slots |
| Scheduler.BatchScheduler.StartRun | src/oracle/oracle-batch-publisher.service.ts:150-159 | a claimed batch runs with exactly its feeds added to the feeds in flight |
| Scheduler.BatchScheduler.Settled | src/oracle/oracle-batch-publisher.service.ts:155-158 | when a batch has settled exactly its feeds are free again |
| Scheduler.BatchScheduler.Progress | src/oracle/oracle-batch-publisher.service.ts:214-341 | whatever else happens, the feeds in flight go on being the disjoint feeds of the running batches and covering every row they hold |
| Scheduler.CoveredExcludes | src/oracle/oracle-batch-publisher.service.ts:145-149 | feeds in flight that cover the running batches keep a claim away from every feed a worker holds |
| Scheduler.ClaimKeepsCovered | src/oracle/oracle-batch-publisher.service.ts:150-152 | registering the feeds of a new claim keeps them covered |
| PublishOrder.OrderNeedsPatience | src/oracle/oracle-batch-publisher.service.ts:327-341 | a run that dead-letters the last row of an undecided transaction and reverses two decisions of a feed |
| PublishOutcome.RetryDeadLettersIff | src/oracle/oracle-batch-publisher.service.ts:327-334 | a retry fails exactly the rows of its batch tried `maxAttempts` times, if it counts, and keeps the others |
| PublishOutcome.FailedSubmission | src/oracle/oracle-batch-publisher.service.ts:285-287 | after a failed or ambiguous submission a row is failed if out of attempts, and otherwise pending at the retry time, with the ambiguous hash |
| PublishOutcome.DeferringLookup | src/oracle/oracle-batch-publisher.service.ts:244-254 | a failing lookup counts as an attempt; a pending one dead-letters nothing and the batch waits with its hashes |
| PublishOutcome.ApplyingLookup | src/oracle/oracle-batch-publisher.service.ts:255-260 | a lookup that finds the transaction publishes exactly the rows carrying its hash |
| PublishOutcome.RejectingLookup | src/oracle/oracle-batch-publisher.service.ts:243-261 | one that does not goes on to the next hash and changes no row |
| PublishOutcome.ReconcilingEnds | src/oracle/oracle-batch-publisher.service.ts:262-264 | then exactly the rows not found on chain are submitted, in order |
| PublishOutcome.DrainReturns | src/oracle/oracle-batch-publisher.service.ts:288-295 | when an earlier half did not confirm, the rest goes back untouched |
| PublishOutcome.ConfirmedSubmission | src/oracle/oracle-batch-publisher.service.ts:220-226 | a confirmed submission publishes its rows under its hash |
| PublishOutcome.TooLargeAlone | src/oracle/oracle-batch-publisher.service.ts:268-274 | a row too large on its own fails at once |
| PublishOutcome.TooLargeSplits | src/oracle/oracle-batch-publisher.service.ts:275-283 | a larger batch is cut in the middle, the second half waiting for the first |
| PublishOutcome.AttemptsAreClaims | src/oracle/oracle-publish-queue.repository.ts:98-103 | in every run a row's attempts are the claims that took it |
| PublishOutcome.FailsForAReason | src/oracle/oracle-batch-publisher.service.ts:267-341 | in every run a row fails only if the chain refused it as too large alone or at least `maxAttempts` claims took it |
| PublishOutcome.KeysStayDifferent | src/oracle/oracle-publish-queue.repository.ts:55-64 | in every run no two rows have one decision key |
| Finality.HorizonFinalityService.RecordReading | src/oracle/horizon-finality.service.ts:74-82 | a reading is appended as provisional |
| Finality.HorizonFinalityService.ObserveLedger | src/oracle/horizon-finality.service.ts:89-136 | an observation reorgs the parent and the ledger itself where their hashes differ, then stores the ledger, and reports what it invalidated |
| Finality.HorizonFinalityService.PromoteFinalized | src/oracle/horizon-finality.service.ts:143-186 | exactly the provisional readings deep enough and on the stored hash become final, and the checkpoint only advances |
| Finality.HorizonFinalityService.GetResumeLedger | src/oracle/horizon-finality.service.ts:192-199 | polling resumes behind the checkpoint |
| Finality.HorizonFinalityService.RecordDecision | src/oracle/horizon-finality.service.ts:235-271 | a decision is recorded and linked from its readings, or refused with nothing changed |
| Finality.HorizonFinalityService.HandleReorg | src/oracle/horizon-finality.service.ts:273-341 | a reorg invalidates, supersedes, logs, rewinds and rewrites in one step |
| Finality.ReorgSupersedes | src/oracle/horizon-finality.service.ts:291-327 | a reorg supersedes exactly the active decisions linked from a reading it invalidates |
| Finality.StepKeepsBooks | src/oracle/horizon-finality.service.ts:74-341 | every transaction, whatever hashes it brings, keeps evidence, links and citations exact |
| Finality.BooksAlwaysExact | src/oracle/horizon-finality.service.ts:74-341 | in every reachable state each invalidated reading and superseded decision has exactly one evidence row and no other has one, an invalidated reading is linked only to a superseded decision, and a cited reading to the latest decision citing it |
| Finality.StepAnchoredIff | src/oracle/horizon-finality.service.ts:89-186 | a transaction keeps final readings and the checkpoint anchored if and only if it replaces no empty stored hash under one of them |
| Finality.AlwaysAnchoredIff | src/oracle/horizon-finality.service.ts:89-199 | every state of a run from the empty database is anchored if and only if no transaction of the run does that |
| Finality.AlwaysAnchored | src/oracle/horizon-finality.service.ts:89-199 | in every run whose observed hashes are not empty a final reading's hash is the stored hash of its ledger, and so is a checkpoint hash |
| Finality.ObserveAnchorsFinalIff | src/oracle/horizon-finality.service.ts:97-128 | an observation breaks the anchor of a final reading if and only if it replaces an empty stored hash under one |
| Finality.ObserveAnchorsCheckpointIff | src/oracle/horizon-finality.service.ts:97-128 | it breaks the anchor of the checkpoint if and only if it replaces an empty stored hash under that and no reorg of the parent rewinds it |
| Finality.EmptyHashLosesAnchors | src/oracle/horizon-finality.service.ts:97-128 | a run after which neither the final reading nor the checkpoint is anchored |
| Finality.RunMovesForward | src/oracle/horizon-finality.service.ts:291-327 | over any run invalidated and superseded are terminal, recorded values never change and evidence is only appended |
| Finality.CheckpointFallsOnlyOnReorg | src/oracle/horizon-finality.service.ts:329-340 | over any run the checkpoint falls only if a reorg on the way reaches back to where it ends up |
| Finality.ResumesBeforeReorg | src/oracle/horizon-finality.service.ts:192-199 | after a reorg, until readings are promoted again, polling resumes at the reorged ledger or before |
| Finality.ActiveDecisionsRestOnLiveReadings | src/oracle/horizon-finality.service.ts:235-271 | an active decision cites an invalidated reading only if a later decision cites it too |
| Finality.UniqueCitationsStaySafe | src/oracle/horizon-finality.service.ts:235-327 | after every run, if no reading is cited twice, no active decision cites an invalidated reading |
| Finality.SecondCitationHidesTheFirst | src/oracle/horizon-finality.service.ts:255-262 | citing a reading again takes its link from the first decision, which then survives the reading's invalidation |
| FinalityRules.DecisionIff | src/oracle/horizon-finality.service.ts:235-271 | a decision is recorded if and only if it names readings, all known, and each final or, where allowed, provisional; it is then active and linked from exactly these |
| FinalityRules.NeverOnProvisional | src/oracle/horizon-finality.service.ts:229-254 | under the default policy no run leaves a decision citing a provisional reading |
| FinalityRules.CitedWhenFinal | src/oracle/horizon-finality.service.ts:229-254 | what a decision cites under it was final when it was recorded |
| FinalityRules.PromotesIff | src/oracle/horizon-finality.service.ts:143-170 | exactly the provisional readings at least `depth` ledgers behind the latest and on the stored hash become final |
| FinalityRules.PromotionMovesCheckpoint | src/oracle/horizon-finality.service.ts:171-186 | the checkpoint moves up to that depth, with the stored hash, if it was behind |
| FinalityRules.ResumesBehindCheckpoint | src/oracle/horizon-finality.service.ts:192-199 | polling resumes one past the checkpoint: past the promoted depth, or at a ledger reorged below it |
| FinalityRules.FinalIsDeep | src/oracle/horizon-finality.service.ts:143-170 | in every run a final reading lies at least `depth` ledgers behind the latest of some promotion |
| FinalityRules.ObserveInvalidatesIff | src/oracle/horizon-finality.service.ts:97-128 | an observation invalidates exactly the readings whose stored hash it contradicts |
| FinalityRules.ObserveStores | src/oracle/horizon-finality.service.ts:117-136 | afterwards the ledger is stored as observed, a contradicted parent hash is replaced and no other ledger changes |
| FinalityRules.ObserveTells | src/oracle/horizon-finality.service.ts:273-327 | every evidence row names the ledger, the stored hash and the observed hash that contradicts it |
| FinalityRules.ReportsWhatChanged | src/oracle/horizon-finality.service.ts:89-136 | the report names exactly the readings invalidated, the decisions superseded and the lowest ledger reorged |
| UnionFind.DisjointSets.Find | src/oracle/independence-graph.ts:69-75 | path compression terminates, returns the root and changes no root |
| UnionFind.DisjointSets.Union | src/oracle/independence-graph.ts:76-80 | exactly the classes of the two nodes are merged, and classes stay the connected components of the edges |
| UnionFind.LinksEndAtRoot | src/oracle/independence-graph.ts:69-75 | from every node the parent links end at its root |
| UnionFind.SameRootIffLinked | src/oracle/independence-graph.ts:69-80 | two nodes have one root if and only if edges connect them |
| Independence.SameRootIffSharing | src/oracle/independence-graph.ts:82-94 | two undeclared sources have one root if and only if a chain of shared attribute values links them |
| Independence.ResolveIndependence | src/oracle/independence-graph.ts:65-122 | the last entry of each id decides: a declared one keeps its cluster at weight 1, any other is in the cluster named after the least source linked to it, at weight 0.5; every entry is resolved as it says if and only if entries of one id declare alike |
| Independence.SameClusterIffLinked | src/oracle/independence-graph.ts:60-64 | two undeclared sources share a cluster if and only if a chain of shared non-empty operator, origin or network values among undeclared sources connects them |
| Independence.OrderIndependent | src/oracle/independence-graph.ts:60-64 | if entries of one id declare alike, the resolution is the same for every order of the sources |
| Independence.OrderMatters | src/oracle/independence-graph.ts:60-64 | otherwise two orders of the sources give an id different resolutions |
| ClusterCorroboration.Corroborate | src/oracle/independence-graph.ts:166-199 | refuses a quorum that is not a positive integer, and otherwise returns the median of the cluster medians and the sum of the clusters' heaviest weights |
| ClusterCorroboration.MajorityOfClusters | src/oracle/independence-graph.ts:160-199 | if more than half of the clusters vote inside [lo, hi] and the quorum is met, the value is in [lo, hi] whatever and however often the others vote |
| ClusterCorroboration.ExtraVotesAddNoWeight | src/oracle/independence-graph.ts:47-49 | extra votes no heavier than their cluster's heaviest change neither weight nor quorum, wherever inserted |
| ClusterCorroboration.QuorumCountsClusters | src/oracle/independence-graph.ts:166-199 | with full-weight votes the quorum is met if and only if at least `minClusters` clusters vote |
| ClusterCorroboration.OutcomeIs | src/oracle/independence-graph.ts:166-199 | each cluster counts its heaviest weight and the median of its votes; the value is the median of these if and only if the weights reach the quorum |
| ClusterCorroboration.CorroboratedForgetsOrder | src/oracle/independence-graph.ts:177-199 | the outcome does not depend on the order of votes |
| Stats.MajorityHoldsMedian | src/oracle/independence-graph.ts:201-205 | if more than half of the values lie in an interval, so does the median |
| Stats.MedianForgetsOrder | src/oracle/corroboration.ts:139-145 | the median does not depend on the order of the values |
| Stats.MedianIff | src/oracle/corroboration.ts:139-145 | a value is the median if and only if it has at least half of all values on either side, or is the mean of the two values that split them in halves |
| Corroboration.Corroborate | src/oracle/corroboration.ts:64-130 | computes the outcome from the first usable reading of each source that does not contradict itself |
| Corroboration.VerdictForgetsOrder | src/oracle/corroboration.ts:64-130 | status and value are the same for every order of the readings |
| Corroboration.RestsOnSources | src/oracle/corroboration.ts:73-118 | a corroborated value has at least `minSources` distinct sources with a fresh, valid reading none of their fresh readings contradicts |
| Corroboration.StaysInBand | src/oracle/corroboration.ts:103-130 | a corroborated value lies between two of its readings and within tolerance of the provisional median |
| Corroboration.QuorumIff | src/oracle/corroboration.ts:73-101 | the quorum fails if and only if fewer than `minSources` sources have a usable reading that none of their usable readings contradicts |
| Corroboration.CorroboratedIff | src/oracle/corroboration.ts:103-130 | given a quorum, a value is returned if and only if `minSources` of these sources lie within tolerance of their median, and these are the participants |
| Corroboration.OutcomeIs | src/oracle/corroboration.ts:64-130 | the outcome from what each source says alone: too few sources, too few near their median, or the median of those near it |
| EventIngestion.PoolEventIngestionService.IngestNextPage | src/events/pool-event-ingestion.service.ts:159-217 | one poll commits the page's recognised events and the new checkpoint, or on an RPC error or malformed event nothing |
| EventIngestion.PoolEventIngestionService.Insert | src/events/pool-event-ingestion.service.ts:219-243 | an event is stored once per id |
| EventIngestion.PollKeepsExact | src/events/pool-event-ingestion.service.ts:190-204 | a poll from a full, exactly full or short page leaves the stored events exactly those up to the new checkpoint |
| EventIngestion.StoresExactly | src/events/pool-event-ingestion.service.ts:159-217 | in every run of polls, failures and new ledgers the stored events are exactly the recognised events from the start ledger up to the checkpoint, each once |
| EventIngestion.PollsCatchUp | src/events/pool-event-ingestion.service.ts:195-197 | without malformed events, more than remaining/100 polls store everything there is |
| EventIngestion.PollIs | src/events/pool-event-ingestion.service.ts:177-204 | a poll commits if and only if the RPC answers and none of the next hundred events is malformed; it goes on behind a full page or at the next ledger to close |
| EventIngestion.MalformedBlocks | src/events/pool-event-ingestion.service.ts:190-193 | a malformed event among the next hundred stops ingestion however the chain grows |
| EventIngestion.FirstPollKeepsStartIff | src/events/pool-event-ingestion.service.ts:195-197 | a first answered poll keeps the checkpoint at or after the start ledger if and only if that is at most the next ledger to close |
| EventIngestion.EarlyStartStoresTooMuch | src/events/pool-event-ingestion.service.ts:195-197 | otherwise events before the start ledger get stored |
| Simulator.GroupDecisionWindows | src/oracle/oracle-simulator.ts:106-121 | one window per coverage type and second, with its readings in time order, sorted by time then name |
| Simulator.SlideHolds | src/oracle/oracle-simulator.ts:180-192 | adding a window and dropping stale entries gives the latest fresh reading of each source, as recomputed from all readings |
| Simulator.DoneIsUpto | src/oracle/oracle-simulator.ts:106-121 | the windows up to a second hold exactly the readings up to it |
| Simulator.DecisionRestsOnInliers | src/oracle/oracle-simulator.ts:196-221 | a decision is made if and only if a quorum of values are inliers; it triggers only with an inlier past the threshold and holds back only with one that is not |
| SimulatorRules.WindowHolds | src/oracle/oracle-simulator.ts:106-121 | a window holds exactly the readings of its coverage type and second |
| SimulatorRules.WindowsInOrder | src/oracle/oracle-simulator.ts:117-120 | windows come in order of time, then of name |
| SimulatorRules.ActiveIff | src/oracle/oracle-simulator.ts:184-192 | a reading is active if and only if it is its source's last and inside the freshness window |
| SimulatorRules.ValuesAreActive | src/oracle/oracle-simulator.ts:200-200 | a decision considers one value per source with an active reading |
| SimulatorRules.ThresholdIs | src/oracle/oracle-simulator.ts:201-202 | a candidate's own threshold counts, else the default of the coverage type |
| SimulatorRules.VerdictIs | src/oracle/oracle-simulator.ts:203-218 | values too far from their median are dropped; a quorum of the rest triggers if and only if their median is past the threshold |
| SimulatorRules.TallyCounts | src/oracle/oracle-simulator.ts:196-221 | each counter is the number of decisions of its kind in the period |
| Simulator.Simulate | src/oracle/oracle-simulator.ts:128-222 | invalid input is refused, and the sliding replay reports exactly what recomputing every decision from scratch gives |
| Simulator.TallyBalances | src/oracle/oracle-simulator.ts:196-221 | candidate triggers minus baseline triggers equals changes to trigger minus changes to no trigger |
| Alerting.AlertRoutingService.EmitAlert | src/alerting/alerting.service.ts:318-361 | dedupes, renotifies, suppresses, opens or resolves |
| Alerting.RepeatsAreQuiet | src/alerting/alerting.service.ts:318-346 | a repeated alert opens nothing and is delivered exactly when its dedup window has passed and the incident's limit is not reached |
| AlertingRules.NewAlertOpens | src/alerting/alerting.service.ts:348-361 | a new alert opens a new, indexed, open incident notified once if and only if fewer than the limit were created in the window |
| AlertingRules.ResolvingAlertCloses | src/alerting/alerting.service.ts:464-490 | a resolving alert resolves the unresolved incident of its fingerprint, frees it and notifies within the limit, or does nothing |
| AlertingRules.ExistingIs | src/alerting/alerting.service.ts:329-333 | an alert repeats exactly the unresolved incident of its fingerprint |
| AlertingRules.AcknowledgedIsQuiet | src/alerting/alerting.service.ts:364-381 | an acknowledged incident is left alone by every tick |
| AlertingRules.ResolvedByHand | src/alerting/alerting.service.ts:384-394 | resolving by hand resolves, frees the fingerprint and notifies once, and repeats nothing |
| AlertingRules.TickAllIs | src/alerting/alerting.service.ts:400-419 | a tick escalates exactly the open incidents silent for the escalation delay, renotifies exactly what is due within the limit and leaves the others |
| Alerting.AlertRoutingService.OpenIncident | src/alerting/alerting.service.ts:348-356 | times out of the window are dropped, and an incident is opened only below the limit |
| Alerting.AlertRoutingService.CreateIncident | src/alerting/alerting.service.ts:434-462 | a new id, an index entry, a creation time and one delivery |
| Alerting.AlertRoutingService.FinalizeResolution | src/alerting/alerting.service.ts:476-490 | the incident leaves the index and one delivery is attempted |
| Alerting.AlertRoutingService.AcknowledgeIncident | src/alerting/alerting.service.ts:364-381 | an unresolved incident becomes acknowledged; a resolved or unknown one stays as it is |
| Alerting.AlertRoutingService.ResolveIncident | src/alerting/alerting.service.ts:384-394 | an unresolved incident is resolved and its resolution delivered within the limit; otherwise nothing changes |
| Alerting.AlertRoutingService.DeliverNotification | src/alerting/alerting.service.ts:509-514 | a delivery is counted unless the limit is reached |
| Alerting.AlertRoutingService.PruneCreationTimestamps | src/alerting/alerting.service.ts:573-578 | exactly the leading times before the cutoff are dropped |
| Alerting.AlertRoutingService.Tick | src/alerting/alerting.service.ts:400-419 | every incident known when it starts is escalated or renotified when due, by steps of the machine |
| Alerting.StepKeepsInv | src/alerting/alerting.service.ts:318-535 | every step between two suspension points keeps index, timeline, ids and delivery counts consistent |
| Alerting.NextIdIsNew | src/alerting/alerting.service.ts:246-250 | a new incident id is never in use: ids of one millisecond differ in the counter |
| Alerting.OnePerFingerprint | src/alerting/alerting.service.ts:277-278 | in every run at most one unresolved incident per fingerprint, and the index holds exactly these |
| Alerting.StormBound | src/alerting/alerting.service.ts:348-356 | in every run no interval as long as the window sees more creations than the limit |
| Alerting.DeliveriesBounded | src/alerting/alerting.service.ts:509-514 | in every run no created incident is delivered more often than the limit |
| Alerting.EmitIsRun | src/alerting/alerting.service.ts:318-361 | a whole call is a run of steps |
| Alerting.ResolveIsRun | src/alerting/alerting.service.ts:476-490 | a whole resolution is a run of steps |
| AttackCost.AddCheapest | scripts/attack-cost-model.ts:206-231 | sorts the costs and adds up the first quorum of them, or refuses |
| AttackCost.QuorumCostIsMinimum | scripts/attack-cost-model.ts:206-313 | each cost is the minimum total over all selections of quorum size: attained by one and undercut by none |
| AttackCost.CollusionAtMostBribery | scripts/attack-cost-model.ts:246-275 | for non-negative costs collusion is never dearer than bribery |
| AttackCost.EvaluateFeed | scripts/attack-cost-model.ts:366-407 | the evaluation takes the cheapest of the three paths and fails as its parts do |
| AttackCost.AttackIsCheapestPath | scripts/attack-cost-model.ts:366-383 | the three costs are the cheapest quorums of bribes, colluding sources and operators, and the attack costs the least of the three |
| AttackCost.CollusionIsShare | scripts/attack-cost-model.ts:246-275 | a colluding source costs the least amount that covers its dependent share of the bribe |
| AttackCost.IndependenceIs | scripts/attack-cost-model.ts:164-178 | independence is the whole basis points of the weight between 0 and 10000, none if unknown |
| AttackCost.CompromiseIsDearer | scripts/attack-cost-model.ts:299-307 | an operator costs its key or its bond, whichever is more |
| AttackCost.PayoutAndBond | scripts/attack-cost-model.ts:321-356 | the payout is the largest the attack cost supports and the bond the least that lets a key quorum cover the exposure |
| AttackCost.EvaluationFailsIff | scripts/attack-cost-model.ts:366-407 | the evaluation fails if and only if a quorum asks for too many, the factor is not positive, or is a fraction while an attack costs something |
| AttackCost.WithinBoundIff | scripts/attack-cost-model.ts:321-332 | for non-negative costs, within bound if and only if exposure times the truncated factor is at most the attack cost |
| AttackCost.FractionalBoundIff | scripts/attack-cost-model.ts:325-331 | with a factor below one basis point that equivalence holds exactly for exposures that are not positive |
| AttackCost.FractionalFactorRefuses | scripts/attack-cost-model.ts:325-331 | a feed for which it fails |
| AttackCost.BondsCoverExposure | scripts/attack-cost-model.ts:343-356 | if every bond is at least the implied minimum, compromising a key quorum costs at least exposure times the factor |
| AttackCost.CeilDivIsLeast | scripts/attack-cost-model.ts:181-189 | rounding up gives the least integer that covers the numerator |
| Decimal.ParseFormat | src/oracle/oracle-encoding.ts:82-115 | every integer survives printing and parsing at every scale from 0 to 38 |
| Decimal.FormatParse | src/oracle/oracle-encoding.ts:82-115 | every canonical decimal string survives parsing and printing |
| Decimal.ParseAccepts | src/oracle/oracle-encoding.ts:82-97 | a string parses if and only if the scale is valid and the string is an optional minus sign, digits and optionally a dot with at most `scale` digits |
| Decimal.ParseFormatFixed | src/common/fixed-point.ts:75-101 | every fixed-point value survives printing and parsing |
| Decimal.ParseFixedTruncates | src/common/fixed-point.ts:75-101 | printing with fewer digits drops less than one unit of the last digit, toward zero |
| Decimal.ParseFixedReads | src/common/fixed-point.ts:90-101 | a plain decimal, with spaces around it or not, parses to its sign, whole part and first seven fraction digits |
| Decimal.ParseFixedAccepts | src/common/fixed-point.ts:90-94 | nothing else parses |
| Decimal.RoundsUp | src/common/fixed-point.ts:32-40 | the quotient is the least integer that covers the numerator |
| Decimal.DivisionRefusedIff | src/common/fixed-point.ts:32-38 | division is refused exactly for a denominator that is not positive, and else for a negative numerator |
| Decimal.MulDivRoundsUp | src/common/fixed-point.ts:66-68 | the product is rounded up once |
| Provenance.UnpackPack | src/oracle/oracle-encoding.ts:268-329 | unpacking inverts packing for every publishable provenance |
| Provenance.PackUnpack | src/oracle/oracle-encoding.ts:297-329 | packing inverts unpacking for every number that unpacks |
| Provenance.UnpacksIffPacked | src/oracle/oracle-encoding.ts:268-329 | a number unpacks if and only if some provenance packs to it; what unpacks is a non-zero u128 and never unverified |
| Provenance.PackIsInjective | src/oracle/oracle-encoding.ts:268-306 | different provenance packs to different numbers |
| Provenance.PacksIff | src/oracle/oracle-encoding.ts:268-296 | provenance packs if and only if tier and number of sources fit together, the id is 16 hexadecimal digits and the timestamp has 40 bits |
| PublishPayload.WriteUIntBE | src/oracle/oracle-encoding.ts:397-401 | big-endian bytes are written into their place and nothing else changes |
| PublishPayload.BuildPublishPayload | src/oracle/oracle-encoding.ts:390-415 | the payload is the five length-prefixed fields; unknown, composite and overlong input is refused |
| PublishPayload.ReadPayloadOf | src/oracle/oracle-encoding.ts:385-415 | the fields can be read back from the bytes |
| PublishPayload.SamePayloadIff | src/oracle/oracle-encoding.ts:390-415 | two payloads are equal if and only if ids and code are and the values agree modulo 2^128 |
| PublishPayload.PayloadIsInjective | src/oracle/oracle-encoding.ts:385-415 | on i128 values the payload determines contract, coverage code, value and decision |
| PublishPayload.SameBuiltIff | src/oracle/oracle-encoding.ts:390-415 | two readings give the same payload if and only if contract, coverage type and decision are the same and their scaled values agree modulo 2^128 |
| PublishPayload.ScalesToNearest | src/oracle/oracle-encoding.ts:160-183 | a value is scaled to the nearest integer, halves up, under its coverage type's decimals and code |
| PublishPayload.OnlyPublishedScale | src/oracle/oracle-encoding.ts:160-183 | other coverage types are refused |
| PublishPayload.OutOfRangeCollides | src/oracle/oracle-encoding.ts:390-415 | flight delays of 0 and 2^128 have the same payload |
| Pagination.CompareIsOrder | src/common/pagination.ts:58-62 | the comparison of keys is a total order |
| Pagination.NewestFirst | src/common/pagination.ts:58-62 | a later time comes first, and of equal times the greater id |
| Pagination.LessByCharacter | src/common/pagination.ts:58-62 | ids compare by their first different character |
| Pagination.FollowCursorsIs | src/common/pagination.ts:70-88 | a client that follows the cursors it is given is never refused and gets the pages of the sorted rows |
| Pagination.FollowIsPages | src/common/pagination.ts:76-88 | following cursors cuts what is left behind the first one into pages |
| Pagination.FollowsAllRows | src/common/pagination.ts:64-88 | following `nextCursor` to null yields all rows newest first, each once, in max(1, ceil(n/limit)) pages |
| Pagination.InsertsChangeNoLaterPage | src/common/pagination.ts:64-69 | rows inserted between requests that are not older than the cursor change no later page |
| RecoveryGate.CreateGate | src/oracle/oracle-recovery-gate.ts:37-49 | exactly valid configurations make a gate |
| RecoveryGate.OracleRecoveryGate.TripGate | src/oracle/oracle-recovery-gate.ts:51-59 | a trip opens the gate of its coverage type until the cooldown and forgets the canary |
| RecoveryGate.OracleRecoveryGate.AdmitReading | src/oracle/oracle-recovery-gate.ts:61-113 | answers and moves only the gate of the reading's coverage type |
| RecoveryGate.RunConsistent | src/oracle/oracle-recovery-gate.ts:51-113 | after every run the state of a gate matches its history since the last trip: holds, then canaries, then publishes and holds |
| RecoveryGate.PublishIffCanary | src/oracle/oracle-recovery-gate.ts:28-32 | a reading after a trip is published if and only if it is healthy and corroborated and since the trip there were enough canary answers in a row, at strictly increasing times, none before the cooldown, spanning the minimum duration, all healthy and corroborated |
| RecoveryGate.CanaryIff | src/oracle/oracle-recovery-gate.ts:84-113 | a reading after a trip gets a canary answer if and only if it is good, the canaries have not graduated, and it is the first at or past the cooldown or later than the last |
| RecoveryGate.GraduatesIff | src/oracle/oracle-recovery-gate.ts:84-113 | a tripped gate is back to normal exactly once there were enough good readings since the cooldown, spanning the minimum duration |
| RecoveryGate.UntrippedPublishes | src/oracle/oracle-recovery-gate.ts:80-82 | a coverage type that was never tripped publishes exactly healthy, corroborated readings |

## Left out

- Leader: election disabled by configuration, clocks that differ between instances, and a client that resends commands on reconnect are not modelled.
- Publisher: crashes, failing queue writes and `recoverInflight` are not modelled; hashes are non-empty and new for each submission, only an ambiguous submission may be applied later, and lookups are truthful and final.
- Publisher: backpressure, polling multipliers, latency smoothing and the backoff formula are not modelled; a retry time is a parameter.
- BatchPublisher: the recursive methods run on the queue rows and the chain as one value that each step replaces, with the submitter's answers given as a list.
- Scheduler: claiming a batch and registering its feeds are one step, and the claims of one pass share one time.
- Finality: quorum reads, the policy lookup and table timestamps are not modelled.
- Independence.ResolveIndependence: the order of ids is given as distinct positions; `localeCompare` calling two different ids equal is not modelled.
- ClusterCorroboration: correlation flags are not modelled, and votes are finite numbers.
- Corroboration: the list of rejected readings and `dispersionBps` are not modelled; `minSources` is at least 1, which the configuration bounds guarantee.
- EventIngestion: normalising an event is abstracted to recognised, unknown or malformed, and the RPC serves any ledger range in one page.
- Simulator: payout estimates are not modelled.
- Alerting: timelines, severities, the audit log, notifiers and persistence are not modelled; the window is not negative, at most 1000000 incidents fit a window, and stored incidents are unresolved, one per fingerprint and older than the start.
- Alerting.AlertRoutingService.Tick: the loop goes over the incidents known when it starts; incidents opened while it notifies, which the live map would also visit, are not visited.
- AttackCost: coercion of strings and numbers to integers is not modelled; quorums are integers.
- AttackCost.AddCheapest: the source sorts its array in place; the model sorts values.
- PublishPayload: identifiers are their UTF-8 bytes, and scaling works on reals.
- Pagination: cursor text encoding is an abstract round trip, and limits are at least 1 as the query validation demands.
- RecoveryGate: times and peer counts are finite numbers.
- Controllers, configuration loading, metrics, logging, cryptography, `ClaimService`, gossip, degraded mode and time-zone conversion would add modules without harder invariants.
