/**
 The batch publisher against an adversarial chain.

 Workers process claimed batches concurrently. A worker's control state is the
 batch it is working on plus the split-off segments still to come, so the mutual
 recursion of the publisher is a stack of segments. Every queue write, lookup
 and submission is one step; producers, other workers and the chain may act
 between any two steps. A submission may be confirmed, rejected as too large,
 fail, or have an unknown outcome, in which case its transaction settles later
 or never.
 */
module Publisher {
  import opened Wrappers
  import opened PublishQueue

  // ---------------------------------------------------------------------------
  // State
  // ---------------------------------------------------------------------------

  datatype TxStatus = Unsettled | Applied | Rejected

  datatype Tx = Tx(ids: seq<nat>, status: TxStatus)

  /** A segment waiting for the ones before it. `top` segments are run by
      `process` (which reconciles first), the others by `publishOrRelease`. */
  datatype Segment = Segment(ids: seq<nat>, top: bool)

  datatype Stage =
    | Reconcile(todo: seq<Hash>, done: set<nat>)
    | Submit(top: bool)
    | Confirm(hash: Hash)                            // confirmed on chain; markPublished is next
    | DeadLetter                                     // too large on its own; markFailed is next
    | Retry(counted: bool, kept: Option<Hash>)       // retryLater: markFailed of exhausted rows is next
    | ReleaseBatch(kept: Option<Hash>)               // retryLater: release of the others is next
    | Drain                                          // an earlier half did not confirm; release the rest

  datatype Worker = Worker(stage: Stage, ids: seq<nat>, rest: seq<Segment>)

  /** `chain` lists the decisions in the order they took effect. */
  datatype Sys = Sys(rows: Rows, txs: map<Hash, Tx>, chain: seq<nat>, workers: map<nat, Worker>)

  const Start := Sys([], map[], [], map[])

  function Concat(segs: seq<Segment>): seq<nat> {
    if segs == [] then [] else segs[0].ids + Concat(segs[1..])
  }

  /** Every row the worker is responsible for, in publish order. */
  function Held(w: Worker): seq<nat> {
    w.ids + Concat(w.rest)
  }

  // ---------------------------------------------------------------------------
  // Worker control
  // ---------------------------------------------------------------------------

  /** The distinct hashes carried by the first `k` rows of a batch. */
  function Hashes(rows: Rows, ids: seq<nat>, k: nat): seq<Hash>
    requires k <= |ids|
  {
    if k == 0 then []
    else
      var before, i := Hashes(rows, ids, k - 1), ids[k - 1];
      if i < |rows| && rows[i].hash.Some? && rows[i].hash.value !in before then before + [rows[i].hash.value]
      else before
  }

  /** `process(batch)` starts by reconciling the hashes of its rows. */
  function Process(rows: Rows, ids: seq<nat>, rest: seq<Segment>): Worker {
    Worker(Reconcile(Hashes(rows, ids, |ids|), {}), ids, rest)
  }

  /** What a worker does once the segments before `rest` are published. */
  function Continue(rows: Rows, rest: seq<Segment>): Option<Worker> {
    if rest == [] then None
    else if rest[0].top then Some(Process(rows, rest[0].ids, rest[1..]))
    else Some(Worker(Submit(false), rest[0].ids, rest[1..]))
  }

  function Half(n: nat): nat { (n + 1) / 2 }

  /** Halves a batch the chain refused as too large; the second half keeps its caller. */
  function Split(ids: seq<nat>, top: bool, rest: seq<Segment>): Worker
    requires |ids| > 1
  {
    Worker(Submit(false), ids[..Half(|ids|)], [Segment(ids[Half(|ids|)..], top)] + rest)
  }

  /** Rows of the batch that have used up their attempts. */
  function Exhausted(rows: Rows, ids: seq<nat>, counted: bool, maxAttempts: nat, k: nat): seq<nat>
    requires k <= |ids|
  {
    if k == 0 then []
    else
      var before, i := Exhausted(rows, ids, counted, maxAttempts, k - 1), ids[k - 1];
      if counted && i < |rows| && rows[i].attempts >= maxAttempts then before + [i] else before
  }

  /** The ids not in `gone`, in order. */
  function Keep(ids: seq<nat>, gone: set<nat>, k: nat): seq<nat>
    requires k <= |ids|
  {
    if k == 0 then [] else Keep(ids, gone, k - 1) + if ids[k - 1] in gone then [] else [ids[k - 1]]
  }

  /** The ids of the batch carrying `hash`. */
  function Carrying(rows: Rows, ids: seq<nat>, hash: Hash, k: nat): seq<nat>
    requires k <= |ids|
  {
    if k == 0 then []
    else
      var before, i := Carrying(rows, ids, hash, k - 1), ids[k - 1];
      if i < |rows| && rows[i].hash == Some(hash) then before + [i] else before
  }

  // ---------------------------------------------------------------------------
  // Steps
  // ---------------------------------------------------------------------------

  datatype Outcome =
    | Confirmed(hash: Hash)      // the transaction is final on chain
    | TooLarge                   // refused; nothing was broadcast
    | Ambiguous(hash: Hash)      // outcome unknown
    | OtherError                 // failed; nothing was broadcast

  datatype Step =
    | EnqueueRow(key: string, feed: string, value: int, priority: int, now: int)
    | ClaimRows(w: nat, limit: nat, cap: nat, exclude: set<string>, now: int)
    | Lookup(w: nat, fails: bool)           // the next hash is looked up, truthfully unless it fails
    | Answer(w: nat, outcome: Outcome)      // the submission of the worker's batch returns
    | Write(w: nat, due: int)               // the worker's pending queue write commits
    | Settle(hash: Hash, applied: bool)     // an unsettled transaction is decided

  predicate FeedOf(rows: Rows, ids: seq<nat>, feed: string) {
    exists i: nat :: i in ids && i < |rows| && rows[i].feed == feed
  }

  /** The feeds of all current batches; none of them is ever claimed from. */
  ghost predicate ExcludesBusyFeeds(s: Sys, exclude: set<string>) {
    forall w: nat, f: string :: w in s.workers && FeedOf(s.rows, Held(s.workers[w]), f) ==> f in exclude
  }

  ghost predicate Enabled(s: Sys, step: Step) {
    match step
    case EnqueueRow(_, _, _, _, _) => true
    case ClaimRows(w, limit, cap, exclude, now) =>
      w !in s.workers && ExcludesBusyFeeds(s, exclude) && Claim(s.rows, limit, cap, exclude, now) != []
    case Lookup(w, _) => w in s.workers && s.workers[w].stage.Reconcile?
    case Answer(w, outcome) =>
      && w in s.workers && s.workers[w].stage.Submit?
      && (outcome.Confirmed? ==> outcome.hash !in s.txs) && (outcome.Ambiguous? ==> outcome.hash !in s.txs)
    case Write(w, _) => w in s.workers && !s.workers[w].stage.Reconcile? && !s.workers[w].stage.Submit?
    case Settle(hash, _) => hash in s.txs && s.txs[hash].status.Unsettled?
  }

  function SetWorker(s: Sys, w: nat, next: Option<Worker>): Sys {
    s.(workers := if next.Some? then s.workers[w := next.value] else s.workers - {w})
  }

  function AfterLookup(s: Sys, w: nat, fails: bool): Sys
    requires w in s.workers && s.workers[w].stage.Reconcile?
  {
    var k := s.workers[w];
    if k.stage.todo == [] then
      var left := Keep(k.ids, k.stage.done, |k.ids|);
      SetWorker(s, w, if left == [] then Continue(s.rows, k.rest) else Some(Worker(Submit(true), left, k.rest)))
    else
      var h := k.stage.todo[0];
      if fails then SetWorker(s, w, Some(k.(stage := Retry(true, None))))
      else if h in s.txs && s.txs[h].status.Unsettled? then SetWorker(s, w, Some(k.(stage := Retry(false, None))))
      else if h in s.txs && s.txs[h].status.Applied? then
        var ids := Carrying(s.rows, k.ids, h, |k.ids|);
        SetWorker(s, w, Some(k.(stage := Reconcile(k.stage.todo[1..], k.stage.done + set i | i in ids))))
        .(rows := MarkPublished(s.rows, ids, h))
      else SetWorker(s, w, Some(k.(stage := k.stage.(todo := k.stage.todo[1..]))))
  }

  function AfterAnswer(s: Sys, w: nat, outcome: Outcome): Sys
    requires w in s.workers && s.workers[w].stage.Submit?
  {
    var k := s.workers[w];
    match outcome
    case Confirmed(h) =>
      SetWorker(s, w, Some(k.(stage := Confirm(h)))).(txs := s.txs[h := Tx(k.ids, Applied)], chain := s.chain + k.ids)
    case TooLarge =>
      SetWorker(s, w, Some(if |k.ids| > 1 then Split(k.ids, k.stage.top, k.rest) else k.(stage := DeadLetter)))
    case Ambiguous(h) =>
      SetWorker(s, w, Some(k.(stage := Retry(true, Some(h))))).(txs := s.txs[h := Tx(k.ids, Unsettled)])
    case OtherError => SetWorker(s, w, Some(k.(stage := Retry(true, None))))
  }

  function AfterWrite(s: Sys, w: nat, due: int, maxAttempts: nat): Sys
    requires w in s.workers && !s.workers[w].stage.Reconcile? && !s.workers[w].stage.Submit?
  {
    var k := s.workers[w];
    match k.stage
    case Confirm(h) =>
      var rows := MarkPublished(s.rows, k.ids, h);
      SetWorker(s, w, Continue(rows, k.rest)).(rows := rows)
    case DeadLetter =>
      var rows := MarkFailed(s.rows, k.ids);
      SetWorker(s, w, Continue(rows, k.rest)).(rows := rows)
    case Retry(counted, hash) =>
      var gone := Exhausted(s.rows, k.ids, counted, maxAttempts, |k.ids|);
      var left := Keep(k.ids, set i | i in gone, |k.ids|);
      SetWorker(s, w, Some(k.(stage := ReleaseBatch(hash), ids := left))).(rows := MarkFailed(s.rows, gone))
    case ReleaseBatch(hash) =>
      SetWorker(s, w, Some(Worker(Drain, [], k.rest))).(rows := Release(s.rows, k.ids, due, hash))
    case Drain =>
      if k.rest == [] then SetWorker(s, w, None)
      else SetWorker(s, w, Some(k.(rest := k.rest[1..]))).(rows := Release(s.rows, k.rest[0].ids, due, None))
  }

  function AfterSettle(s: Sys, hash: Hash, applied: bool): Sys
    requires hash in s.txs
  {
    var tx := s.txs[hash];
    if applied then s.(txs := s.txs[hash := tx.(status := Applied)], chain := s.chain + tx.ids)
    else s.(txs := s.txs[hash := tx.(status := Rejected)])
  }

  ghost function Apply(s: Sys, step: Step, maxAttempts: nat): Sys
    requires Enabled(s, step)
  {
    match step
    case EnqueueRow(key, feed, value, priority, now) =>
      s.(rows := Enqueue(s.rows, key, feed, value, priority, now))
    case ClaimRows(w, limit, cap, exclude, now) =>
      var ids := Claim(s.rows, limit, cap, exclude, now);
      var rows := MarkInflight(s.rows, ids);
      s.(rows := rows, workers := s.workers[w := Process(rows, ids, [])])
    case Lookup(w, fails) => AfterLookup(s, w, fails)
    case Answer(w, outcome) => AfterAnswer(s, w, outcome)
    case Write(w, due) => AfterWrite(s, w, due, maxAttempts)
    case Settle(hash, applied) => AfterSettle(s, hash, applied)
  }

  /** `steps` leads from `s` to `t`. */
  ghost predicate Run(s: Sys, steps: seq<Step>, t: Sys, maxAttempts: nat)
    decreases |steps|
  {
    if steps == [] then s == t
    else Enabled(s, steps[0]) && Run(Apply(s, steps[0], maxAttempts), steps[1..], t, maxAttempts)
  }

  // ---------------------------------------------------------------------------
  // What every step keeps
  // ---------------------------------------------------------------------------

  predicate HoldsRow(s: Sys, w: nat, i: nat) {
    w in s.workers && i in Held(s.workers[w])
  }

  /** The row is waiting in the queue or held by a worker. */
  ghost predicate Live(s: Sys, i: nat) {
    i < |s.rows| && (s.rows[i].status.Pending? || exists w: nat :: HoldsRow(s, w, i))
  }

  /** A transaction that has applied row `i` or still may. */
  predicate LiveTx(s: Sys, h: Hash, i: nat) {
    h in s.txs && !s.txs[h].status.Rejected? && i in s.txs[h].ids
  }

  predicate AppliedTx(s: Sys, h: Hash, i: nat) {
    h in s.txs && s.txs[h].status.Applied? && i in s.txs[h].ids
  }

  /** No transaction has applied row `i` or still may. */
  ghost predicate Clean(s: Sys, i: nat) {
    forall h: Hash :: !LiveTx(s, h, i)
  }

  /** The hash the worker is about to write for row `i`. */
  function Pledge(w: Worker, i: nat): Option<Hash> {
    if i !in w.ids then None
    else match w.stage
      case Confirm(h) => Some(h)
      case Retry(_, kept) => kept
      case ReleaseBatch(kept) => kept
      case _ => None
  }

  /** The hash under which row `i`, held by `w`, would be found on chain. */
  function KnownHash(s: Sys, w: Worker, i: nat): Option<Hash> {
    if Pledge(w, i).Some? then Pledge(w, i) else if i < |s.rows| then s.rows[i].hash else None
  }

  predicate HasStatus(s: Sys, i: nat, status: Status) {
    i < |s.rows| && s.rows[i].status == status
  }

  predicate SameFeed(s: Sys, i: nat, j: nat) {
    i < |s.rows| && j < |s.rows| && s.rows[i].feed == s.rows[j].feed
  }

  /** Every hash a row carries belongs to a transaction with the row in it. */
  predicate HashOk(s: Sys, i: nat, h: Hash) {
    h in s.txs && i in s.txs[h].ids
  }

  /** What a row's hash and status say about the chain. */
  ghost predicate RowFacts(s: Sys, i: nat) {
    i < |s.rows| ==>
      var r := s.rows[i];
      && (r.hash.Some? ==> HashOk(s, i, r.hash.value))
      && (r.status.Published? ==> r.hash.Some? && AppliedTx(s, r.hash.value, i))
      && (r.status.Pending? ==> forall h: Hash :: LiveTx(s, h, i) ==> r.hash == Some(h))
  }

  ghost predicate RowOk(s: Sys, i: nat) {
    RowFacts(s, i) && (HasStatus(s, i, Inflight) ==> exists w: nat :: HoldsRow(s, w, i))
  }

  /** In flight, and no transaction has applied the row or still may. */
  ghost predicate Untouched(s: Sys, i: nat) {
    HasStatus(s, i, Inflight) && Clean(s, i)
  }

  /** Row `i` is done, needs no reconciling, or has its hash still to be looked up. */
  ghost predicate Reconciling(s: Sys, w: Worker, i: nat)
    requires w.stage.Reconcile?
  {
    if i in w.stage.done then HasStatus(s, i, Published)
    else HasStatus(s, i, Inflight) &&
         (Clean(s, i) || (s.rows[i].hash.Some? && s.rows[i].hash.value in w.stage.todo))
  }

  predicate Shape(w: Worker) {
    && (forall k :: 0 <= k < |w.rest| ==> w.rest[k].ids != [] && (w.rest[k].top ==> k == |w.rest| - 1))
    && (w.stage.Reconcile? ==> w.ids != [] && w.rest == [])
    && (w.stage.Submit? ==> w.ids != [] && (w.stage.top ==> w.rest == []))
    && (w.stage.DeadLetter? ==> |w.ids| == 1)
    && (w.stage.Drain? ==> w.ids == [])
  }

  /** What the worker's stage says of a row of its current batch. */
  ghost predicate StageOk(s: Sys, w: Worker, i: nat) {
    match w.stage
    case Reconcile(_, _) => Reconciling(s, w, i)
    case Submit(_) => Untouched(s, i)
    case DeadLetter => Untouched(s, i)
    case Confirm(h) => HasStatus(s, i, Inflight) && AppliedTx(s, h, i)
    case Retry(_, kept) => (HasStatus(s, i, Inflight) || HasStatus(s, i, Published)) && (kept.Some? ==> HashOk(s, i, kept.value))
    case ReleaseBatch(kept) => (HasStatus(s, i, Inflight) || HasStatus(s, i, Published)) && (kept.Some? ==> HashOk(s, i, kept.value))
    case Drain => true
  }

  ghost predicate HeldOk(s: Sys, w: Worker) {
    && Shape(w) && Ascending(Held(w))
    && (forall i: nat :: i in w.ids ==> i < |s.rows| && StageOk(s, w, i))
    && (forall i: nat :: i in Concat(w.rest) ==> Untouched(s, i))
    && (forall i: nat, h: Hash :: i in Held(w) && LiveTx(s, h, i) ==> KnownHash(s, w, i) == Some(h))
  }

  /** Until it starts giving rows back, a worker holds the first live rows of its feeds. */
  ghost predicate HoldsPrefix(s: Sys, w: Worker) {
    !w.stage.Drain? ==>
      forall i: nat, j: nat :: j in Held(w) && i < j && Live(s, i) && SameFeed(s, i, j) ==> i in Held(w)
  }

  ghost predicate Disjoint(s: Sys) {
    forall v: nat, w: nat, i: nat, j: nat :: v != w && HoldsRow(s, v, i) && HoldsRow(s, w, j) ==> !SameFeed(s, i, j)
  }

  ghost predicate TxOk(s: Sys, h: Hash) {
    h in s.txs ==>
      && Ascending(s.txs[h].ids) && (forall i: nat :: i in s.txs[h].ids ==> i < |s.rows|)
      && (s.txs[h].status.Applied? ==> forall i: nat :: i in s.txs[h].ids ==> i in s.chain)
  }

  ghost predicate UniqueTx(s: Sys) {
    forall g: Hash, h: Hash, i: nat :: LiveTx(s, g, i) && LiveTx(s, h, i) ==> g == h
  }

  /** Each decision has taken effect at most once, and only through an applied transaction. */
  ghost predicate ChainOk(s: Sys) {
    && (forall a, b :: 0 <= a < b < |s.chain| ==> s.chain[a] != s.chain[b])
    && (forall i: nat :: i in s.chain ==> exists h: Hash :: AppliedTx(s, h, i))
  }

  ghost predicate Inv(s: Sys) {
    && (forall i: nat :: RowOk(s, i))
    && (forall w: nat :: w in s.workers ==> HeldOk(s, s.workers[w]) && HoldsPrefix(s, s.workers[w]))
    && Disjoint(s)
    && (forall h: Hash :: TxOk(s, h))
    && UniqueTx(s) && ChainOk(s)
  }

  // ---------------------------------------------------------------------------
  // Frames: what one worker's step leaves alone
  // ---------------------------------------------------------------------------

  predicate KeptBy(next: Option<Worker>, i: nat) {
    next.Some? && i in Held(next.value)
  }

  /** Worker `id` becomes `next`; only rows it held change; rows it lets go are not in flight. */
  ghost predicate Turn(s: Sys, t: Sys, id: nat, next: Option<Worker>) {
    && id in s.workers
    && t.workers == (if next.Some? then s.workers[id := next.value] else s.workers - {id})
    && |t.rows| == |s.rows|
    && (forall i :: 0 <= i < |s.rows| ==> t.rows[i].feed == s.rows[i].feed)
    && (forall i: nat :: i < |s.rows| && !HoldsRow(s, id, i) ==> t.rows[i] == s.rows[i])
    && (forall i: nat :: KeptBy(next, i) ==> HoldsRow(s, id, i))
    && (forall i: nat :: HoldsRow(s, id, i) && !KeptBy(next, i) ==> !HasStatus(t, i, Inflight))
  }

  /** Existing transactions are unchanged; new ones contain only rows of worker `id`. */
  ghost predicate TxsGrew(s: Sys, t: Sys, id: nat) {
    && (forall h: Hash :: h in s.txs ==> h in t.txs && t.txs[h] == s.txs[h])
    && (forall h: Hash, i: nat :: h in t.txs && h !in s.txs && i in t.txs[h].ids ==> HoldsRow(s, id, i))
  }

  /** Only rows of worker `id` changed, and nobody holds a row it did not hold before. */
  ghost predicate Moved(s: Sys, t: Sys, id: nat) {
    && id in s.workers && |t.rows| == |s.rows|
    && (forall i :: 0 <= i < |s.rows| ==> t.rows[i].feed == s.rows[i].feed)
    && (forall i: nat :: i < |s.rows| && !HoldsRow(s, id, i) ==> t.rows[i] == s.rows[i])
    && (forall w: nat, i: nat :: HoldsRow(t, w, i) ==> HoldsRow(s, w, i))
  }

  lemma TurnMoves(s: Sys, t: Sys, id: nat, next: Option<Worker>)
    requires Turn(s, t, id, next)
    ensures Moved(s, t, id)
  {
    forall w: nat, i: nat | HoldsRow(t, w, i)
      ensures HoldsRow(s, w, i)
    {
      assert w == id ==> KeptBy(next, i);
    }
  }

  lemma TurnKeepsLive(s: Sys, t: Sys, id: nat, next: Option<Worker>, i: nat)
    requires Turn(s, t, id, next) && Live(t, i)
    ensures Live(s, i)
  {
    if !HoldsRow(s, id, i) && !HasStatus(t, i, Pending) {
      var w: nat :| HoldsRow(t, w, i);
      assert HoldsRow(s, w, i);
    }
  }

  lemma OthersSeeSameTxs(s: Sys, t: Sys, id: nat, i: nat)
    requires TxsGrew(s, t, id) && !HoldsRow(s, id, i)
    ensures forall h: Hash :: LiveTx(t, h, i) ==> LiveTx(s, h, i)
    ensures Clean(s, i) ==> Clean(t, i)
  {
  }

  lemma TurnKeepsOther(s: Sys, t: Sys, id: nat, next: Option<Worker>, v: nat)
    requires Inv(s) && Turn(s, t, id, next) && TxsGrew(s, t, id)
    requires v in s.workers && v != id
    ensures HeldOk(t, s.workers[v]) && HoldsPrefix(t, s.workers[v])
  {
    var w := s.workers[v];
    forall i: nat | i in Held(w)
      ensures !HoldsRow(s, id, i) && i < |s.rows| && t.rows[i] == s.rows[i]
    {
      assert HoldsRow(s, v, i);
      assert i in w.ids || i in Concat(w.rest);
      assert i < |s.rows|;
      assert SameFeed(s, i, i);
    }
    forall i: nat | i in w.ids
      ensures i < |t.rows| && StageOk(t, w, i)
    {
      assert StageOk(s, w, i) && i in Held(w);
      OthersSeeSameTxs(s, t, id, i);
    }
    forall i: nat | i in Concat(w.rest)
      ensures Untouched(t, i)
    {
      assert Untouched(s, i) && i in Held(w);
      OthersSeeSameTxs(s, t, id, i);
    }
    forall i: nat, h: Hash | i in Held(w) && LiveTx(t, h, i)
      ensures KnownHash(t, w, i) == Some(h)
    {
      OthersSeeSameTxs(s, t, id, i);
    }
    forall i: nat, j: nat | !w.stage.Drain? && j in Held(w) && i < j && Live(t, i) && SameFeed(t, i, j)
      ensures i in Held(w)
    {
      TurnKeepsLive(s, t, id, next, i);
      assert SameFeed(s, i, j);
    }
  }

  lemma TurnKeepsOtherRow(s: Sys, t: Sys, id: nat, next: Option<Worker>, i: nat)
    requires Inv(s) && Turn(s, t, id, next) && TxsGrew(s, t, id) && !HoldsRow(s, id, i)
    ensures RowOk(t, i)
  {
    assert RowOk(s, i);
    OthersSeeSameTxs(s, t, id, i);
    if HasStatus(t, i, Inflight) {
      var w: nat :| HoldsRow(s, w, i);
      assert HoldsRow(t, w, i);
    }
  }

  lemma TurnKeepsDisjoint(s: Sys, t: Sys, id: nat, next: Option<Worker>)
    requires Disjoint(s) && Turn(s, t, id, next)
    ensures Disjoint(t)
  {
    forall v: nat, w: nat, i: nat, j: nat | v != w && HoldsRow(t, v, i) && HoldsRow(t, w, j)
      ensures !SameFeed(t, i, j)
    {
      assert v == id ==> KeptBy(next, i);
      assert w == id ==> KeptBy(next, j);
      assert HoldsRow(s, v, i) && HoldsRow(s, w, j);
      assert !SameFeed(s, i, j);
    }
  }

  /** The rows a worker lets go are published or failed, so the rest is still a prefix. */
  lemma TurnKeepsPrefix(s: Sys, t: Sys, id: nat, next: Option<Worker>)
    requires Inv(s) && Turn(s, t, id, next) && next.Some? && !s.workers[id].stage.Drain?
    requires forall i: nat :: HoldsRow(s, id, i) && !KeptBy(next, i) ==> !HasStatus(t, i, Pending)
    ensures HoldsPrefix(t, next.value)
  {
    forall i: nat, j: nat | j in Held(next.value) && i < j && Live(t, i) && SameFeed(t, i, j)
      ensures i in Held(next.value)
    {
      assert KeptBy(next, j) && HoldsRow(s, id, j);
      TurnKeepsLive(s, t, id, next, i);
      assert SameFeed(s, i, j);
      assert HoldsPrefix(s, s.workers[id]);
      assert HoldsRow(s, id, i) && SameFeed(s, i, i);
      forall w: nat | w != id
        ensures !HoldsRow(t, w, i)
      {
        assert HoldsRow(t, w, i) ==> HoldsRow(s, w, i);
      }
      assert HoldsRow(t, id, i) ==> KeptBy(next, i);
    }
  }

  lemma TurnKeepsRows(s: Sys, t: Sys, id: nat, next: Option<Worker>)
    requires Inv(s) && Turn(s, t, id, next) && TxsGrew(s, t, id)
    requires forall i: nat :: HoldsRow(s, id, i) ==> RowFacts(t, i)
    ensures forall i: nat :: RowOk(t, i)
  {
    forall i: nat
      ensures RowOk(t, i)
    {
      if !HoldsRow(s, id, i) {
        TurnKeepsOtherRow(s, t, id, next, i);
      } else if HasStatus(t, i, Inflight) {
        assert KeptBy(next, i);
        assert HoldsRow(t, id, i);
      }
    }
  }

  /** Rows let go by a worker that goes on are no longer pending. */
  ghost predicate GoesOn(s: Sys, t: Sys, id: nat, next: Option<Worker>) {
    next.Some? && !next.value.stage.Drain? ==>
      && id in s.workers && !s.workers[id].stage.Drain?
      && forall i: nat :: HoldsRow(s, id, i) && !KeptBy(next, i) ==> !HasStatus(t, i, Pending)
  }

  lemma TurnKeepsWorkers(s: Sys, t: Sys, id: nat, next: Option<Worker>)
    requires Inv(s) && Turn(s, t, id, next) && TxsGrew(s, t, id) && GoesOn(s, t, id, next)
    requires next.Some? ==> HeldOk(t, next.value)
    ensures forall v: nat :: v in t.workers ==> HeldOk(t, t.workers[v]) && HoldsPrefix(t, t.workers[v])
  {
    forall v: nat | v in t.workers
      ensures HeldOk(t, t.workers[v]) && HoldsPrefix(t, t.workers[v])
    {
      if v != id {
        TurnKeepsOther(s, t, id, next, v);
      } else if !next.value.stage.Drain? {
        TurnKeepsPrefix(s, t, id, next);
      }
    }
  }

  /** A step that starts no transaction keeps the invariant if it keeps it for the
      rows and the next state of the worker that takes it. */
  lemma QuietTurnKeepsInv(s: Sys, t: Sys, id: nat, next: Option<Worker>)
    requires Inv(s) && Turn(s, t, id, next) && GoesOn(s, t, id, next) && t.txs == s.txs && t.chain == s.chain
    requires forall i: nat :: HoldsRow(s, id, i) ==> RowFacts(t, i)
    requires next.Some? ==> HeldOk(t, next.value)
    ensures Inv(t) && Moved(s, t, id)
  {
    TurnMoves(s, t, id, next);
    TurnKeepsRows(s, t, id, next);
    TurnKeepsWorkers(s, t, id, next);
    TurnKeepsDisjoint(s, t, id, next);
    SameTxsKeepChain(s, t);
  }

  lemma SameTxsSameFacts(s: Sys, t: Sys, i: nat)
    requires t.txs == s.txs
    ensures Clean(t, i) == Clean(s, i)
    ensures i < |s.rows| && i < |t.rows| && s.rows[i] == t.rows[i] && RowFacts(s, i) ==> RowFacts(t, i)
  {
    assert forall h: Hash :: LiveTx(t, h, i) == LiveTx(s, h, i);
  }

  // ---------------------------------------------------------------------------
  // Lists of rows
  // ---------------------------------------------------------------------------

  lemma {:induction false} KeepKeeps(ids: seq<nat>, gone: set<nat>, k: nat)
    requires k <= |ids| && Ascending(ids)
    ensures var out := Keep(ids, gone, k);
      && Ascending(out) && (forall i: nat :: i in out ==> i in ids && i !in gone)
      && (forall a :: 0 <= a < k && ids[a] !in gone ==> ids[a] in out)
      && (forall a :: 0 <= a < |out| ==> k > 0 && out[a] <= ids[k - 1])
  {
    if k > 0 {
      KeepKeeps(ids, gone, k - 1);
    }
  }

  lemma KeepAll(ids: seq<nat>, gone: set<nat>)
    requires Ascending(ids)
    ensures var out := Keep(ids, gone, |ids|);
      Ascending(out) && forall i: nat :: i in out <==> i in ids && i !in gone
  {
    KeepKeeps(ids, gone, |ids|);
  }

  lemma {:induction false} CarryingCarries(rows: Rows, ids: seq<nat>, hash: Hash, k: nat)
    requires k <= |ids|
    ensures var out := Carrying(rows, ids, hash, k);
      && (forall i: nat :: i in out ==> i in ids && i < |rows| && rows[i].hash == Some(hash))
      && (forall a :: 0 <= a < k && ids[a] < |rows| && rows[ids[a]].hash == Some(hash) ==> ids[a] in out)
  {
    if k > 0 {
      CarryingCarries(rows, ids, hash, k - 1);
    }
  }

  lemma {:induction false} ExhaustedAreBatch(rows: Rows, ids: seq<nat>, counted: bool, maxAttempts: nat, k: nat)
    requires k <= |ids|
    ensures forall i: nat :: i in Exhausted(rows, ids, counted, maxAttempts, k) ==> i in ids
  {
    if k > 0 {
      ExhaustedAreBatch(rows, ids, counted, maxAttempts, k - 1);
    }
  }

  lemma {:induction false} HashesCover(rows: Rows, ids: seq<nat>, k: nat)
    requires k <= |ids|
    ensures forall a :: 0 <= a < k && ids[a] < |rows| && rows[ids[a]].hash.Some? ==>
              rows[ids[a]].hash.value in Hashes(rows, ids, k)
    ensures |Hashes(rows, ids, k)| <= k
  {
    if k > 0 {
      HashesCover(rows, ids, k - 1);
    }
  }

  lemma SplitHoldsTheSame(w: Worker)
    requires w.stage.Submit? && |w.ids| > 1
    ensures Held(Split(w.ids, w.stage.top, w.rest)) == Held(w)
  {
    var m := Half(|w.ids|);
    var rest := [Segment(w.ids[m..], w.stage.top)] + w.rest;
    assert rest[1..] == w.rest;
    assert w.ids == w.ids[..m] + w.ids[m..];
  }

  /** The parts of an ascending batch are ascending and have no row in common. */
  lemma HeldParts(w: Worker)
    requires Ascending(Held(w))
    ensures Ascending(w.ids) && Ascending(Concat(w.rest))
    ensures forall i: nat :: i in w.ids ==> i !in Concat(w.rest)
    ensures forall i: nat, j: nat :: i in w.ids && j in Concat(w.rest) ==> i < j
  {
    var h := Held(w);
    assert forall a :: 0 <= a < |w.ids| ==> h[a] == w.ids[a];
    assert forall b :: 0 <= b < |Concat(w.rest)| ==> h[|w.ids| + b] == Concat(w.rest)[b];
  }

  lemma NextSegment(rest: seq<Segment>)
    requires rest != []
    ensures Concat(rest) == rest[0].ids + Concat(rest[1..])
    ensures forall i: nat :: i in Concat(rest) <==> i in rest[0].ids || i in Concat(rest[1..])
  {
  }

  // ---------------------------------------------------------------------------
  // Reconciling
  // ---------------------------------------------------------------------------

  lemma ReadyToSubmit(t: Sys, ids: seq<nat>)
    requires ids != [] && Ascending(ids) && forall i: nat :: i in ids ==> Untouched(t, i)
    ensures var next := Worker(Submit(true), ids, []); Held(next) == ids && HeldOk(t, next)
  {
    var next := Worker(Submit(true), ids, []);
    assert Held(next) == ids;
  }

  /** Reconciling has left each row of the batch published or untouched. */
  lemma ReconciledRows(s: Sys, t: Sys, w: Worker)
    requires HeldOk(s, w) && w.stage.Reconcile? && w.stage.todo == [] && t.rows == s.rows && t.txs == s.txs
    requires forall i: nat :: RowOk(s, i)
    ensures var left := Keep(w.ids, w.stage.done, |w.ids|);
      && Held(w) == w.ids && Ascending(left) && (forall i: nat :: i in left ==> i in w.ids)
      && (forall i: nat :: i in w.ids ==> RowFacts(t, i) && if i in left then Untouched(t, i) else HasStatus(t, i, Published))
  {
    assert Held(w) == w.ids;
    KeepAll(w.ids, w.stage.done);
    forall i: nat | i in w.ids
      ensures RowFacts(t, i) && if i in w.stage.done then HasStatus(t, i, Published) else Untouched(t, i)
    {
      assert StageOk(s, w, i) && RowOk(s, i);
      SameTxsSameFacts(s, t, i);
    }
  }

  lemma ReconcileLeavesNone(s: Sys, id: nat)
    requires Inv(s) && id in s.workers && s.workers[id].stage.Reconcile? && s.workers[id].stage.todo == []
    requires var w := s.workers[id]; Keep(w.ids, w.stage.done, |w.ids|) == []
    ensures Inv(SetWorker(s, id, None))
    ensures Moved(s, SetWorker(s, id, None), id)
  {
    var t := SetWorker(s, id, None);
    ReconciledRows(s, t, s.workers[id]);
    QuietTurnKeepsInv(s, t, id, None);
  }

  lemma ReconcileTurns(s: Sys, id: nat, left: seq<nat>)
    requires id in s.workers && s.workers[id].stage.Reconcile? && Held(s.workers[id]) == s.workers[id].ids
    requires forall i: nat :: i in left ==> i in s.workers[id].ids
    requires forall i: nat :: i in s.workers[id].ids && i !in left ==> HasStatus(s, i, Published)
    ensures var next := Some(Worker(Submit(true), left, []));
      Turn(s, SetWorker(s, id, next), id, next) && GoesOn(s, SetWorker(s, id, next), id, next)
  {
    var next := Some(Worker(Submit(true), left, []));
    assert Held(next.value) == left;
    assert forall i: nat :: HoldsRow(s, id, i) <==> i in s.workers[id].ids;
  }

  lemma ReconcileLeavesSome(s: Sys, id: nat, left: seq<nat>)
    requires Inv(s) && id in s.workers && s.workers[id].stage.Reconcile? && s.workers[id].stage.todo == []
    requires var w := s.workers[id]; left == Keep(w.ids, w.stage.done, |w.ids|) && left != []
    ensures Inv(SetWorker(s, id, Some(Worker(Submit(true), left, []))))
    ensures Moved(s, SetWorker(s, id, Some(Worker(Submit(true), left, []))), id)
  {
    var next := Some(Worker(Submit(true), left, []));
    var t := SetWorker(s, id, next);
    ReconciledRows(s, t, s.workers[id]);
    ReadyToSubmit(t, left);
    ReconcileTurns(s, id, left);
    QuietTurnKeepsInv(s, t, id, next);
  }

  lemma ReconcileEndsKeepsInv(s: Sys, id: nat, fails: bool)
    requires Inv(s) && Enabled(s, Lookup(id, fails)) && s.workers[id].stage.todo == []
    ensures Inv(AfterLookup(s, id, fails))
    ensures Moved(s, AfterLookup(s, id, fails), id)
  {
    var w := s.workers[id];
    var left := Keep(w.ids, w.stage.done, |w.ids|);
    if left == [] {
      ReconcileLeavesNone(s, id);
    } else {
      ReconcileLeavesSome(s, id, left);
    }
  }

  /** Rows under reconciliation may be given back as they are. */
  lemma DeferredIsOk(s: Sys, id: nat, counted: bool)
    requires Inv(s) && id in s.workers && s.workers[id].stage.Reconcile?
    ensures var next := s.workers[id].(stage := Retry(counted, None));
      var t := SetWorker(s, id, Some(next));
      HeldOk(t, next) && forall i: nat :: RowFacts(t, i)
  {
    var w := s.workers[id];
    var next := w.(stage := Retry(counted, None));
    var t := SetWorker(s, id, Some(next));
    forall i: nat | i in w.ids && StageOk(s, w, i)
      ensures StageOk(t, next, i)
    {
    }
    StillHeldOk(s, t, w, next);
  }

  lemma LookupDefersKeepsInv(s: Sys, id: nat, counted: bool)
    requires Inv(s) && id in s.workers && s.workers[id].stage.Reconcile?
    ensures Inv(SetWorker(s, id, Some(s.workers[id].(stage := Retry(counted, None)))))
    ensures Moved(s, SetWorker(s, id, Some(s.workers[id].(stage := Retry(counted, None)))), id)
  {
    var w := s.workers[id];
    var next := Some(w.(stage := Retry(counted, None)));
    var t := SetWorker(s, id, next);
    DeferredIsOk(s, id, counted);
    QuietTurnKeepsInv(s, t, id, next);
  }

  /** Nothing but the stage changes, and the new stage fits the rows. */
  lemma StillHeldOk(s: Sys, t: Sys, w: Worker, next: Worker)
    requires HeldOk(s, w) && next == w.(stage := next.stage) && Shape(next)
    requires t.rows == s.rows && t.txs == s.txs
    requires forall i: nat :: i in w.ids ==> Pledge(next, i) == Pledge(w, i)
    requires forall i: nat :: i in w.ids && StageOk(s, w, i) ==> StageOk(t, next, i)
    requires forall i: nat :: RowOk(s, i)
    ensures HeldOk(t, next)
    ensures forall i: nat :: RowFacts(t, i)
  {
    forall i: nat
      ensures RowFacts(t, i) && Clean(t, i) == Clean(s, i)
    {
      assert RowOk(s, i);
      SameTxsSameFacts(s, t, i);
    }
    assert Held(next) == Held(w);
    forall i: nat, h: Hash | i in Held(next) && LiveTx(t, h, i)
      ensures KnownHash(t, next, i) == Some(h)
    {
      assert LiveTx(s, h, i) && KnownHash(s, w, i) == Some(h);
    }
  }

  lemma AppliedRowFits(s: Sys, t: Sys, w: Worker, next: Worker, h: Hash, i: nat)
    requires w.stage.Reconcile? && w.stage.todo != [] && h == w.stage.todo[0] && i in w.ids
    requires t.txs == s.txs && h in s.txs && s.txs[h].status.Applied?
    requires t.rows == MarkPublished(s.rows, Carrying(s.rows, w.ids, h, |w.ids|), h)
    requires next == w.(stage := Reconcile(w.stage.todo[1..],
                                           w.stage.done + set x | x in Carrying(s.rows, w.ids, h, |w.ids|)))
    requires StageOk(s, w, i) && RowOk(s, i)
    ensures StageOk(t, next, i) && RowFacts(t, i) && KnownHash(t, next, i) == KnownHash(s, w, i)
  {
    CarryingCarries(s.rows, w.ids, h, |w.ids|);
    SameTxsSameFacts(s, t, i);
  }

  lemma LookupAppliedKeepsInv(s: Sys, id: nat)
    requires Inv(s) && Enabled(s, Lookup(id, false)) && s.workers[id].stage.todo != []
    requires var h := s.workers[id].stage.todo[0]; h in s.txs && s.txs[h].status.Applied?
    ensures Inv(AfterLookup(s, id, false))
    ensures Moved(s, AfterLookup(s, id, false), id)
  {
    var w, t := s.workers[id], AfterLookup(s, id, false);
    var h := w.stage.todo[0];
    var next := Some(t.workers[id]);
    assert Held(next.value) == Held(w) == w.ids;
    CarryingCarries(s.rows, w.ids, h, |w.ids|);
    forall i: nat | i in w.ids
      ensures StageOk(t, next.value, i) && RowFacts(t, i) && KnownHash(t, next.value, i) == KnownHash(s, w, i)
    {
      assert StageOk(s, w, i) && RowOk(s, i);
      AppliedRowFits(s, t, w, next.value, h, i);
    }
    assert HeldOk(t, next.value) by {
      assert forall i: nat, g: Hash :: LiveTx(t, g, i) == LiveTx(s, g, i);
    }
    QuietTurnKeepsInv(s, t, id, next);
  }

  /** Without the rejected hash on its list the worker still reconciles every row. */
  lemma RejectedRowFits(s: Sys, w: Worker, next: Worker, i: nat)
    requires HeldOk(s, w) && w.stage.Reconcile? && w.stage.todo != [] && i in w.ids && i in Held(w)
    requires var h := w.stage.todo[0]; h !in s.txs || s.txs[h].status.Rejected?
    requires next == w.(stage := Reconcile(w.stage.todo[1..], w.stage.done))
    ensures StageOk(s, next, i)
  {
    assert StageOk(s, w, i);
    assert forall g: Hash :: LiveTx(s, g, i) ==> KnownHash(s, w, i) == Some(g);
  }

  lemma LookupRejectedKeepsInv(s: Sys, id: nat)
    requires Inv(s) && Enabled(s, Lookup(id, false)) && s.workers[id].stage.todo != []
    requires var h := s.workers[id].stage.todo[0]; h !in s.txs || s.txs[h].status.Rejected?
    ensures Inv(AfterLookup(s, id, false))
    ensures Moved(s, AfterLookup(s, id, false), id)
  {
    var w, t := s.workers[id], AfterLookup(s, id, false);
    var h := w.stage.todo[0];
    var next := Some(t.workers[id]);
    forall i: nat | i in w.ids
      ensures StageOk(t, next.value, i)
    {
      assert i in Held(w);
      RejectedRowFits(s, w, next.value, i);
      SameTxsSameFacts(s, t, i);
    }
    StillHeldOk(s, t, w, next.value);
    QuietTurnKeepsInv(s, t, id, next);
  }

  lemma LookupKeepsInv(s: Sys, id: nat, fails: bool)
    requires Inv(s) && Enabled(s, Lookup(id, fails))
    ensures Inv(AfterLookup(s, id, fails))
    ensures Moved(s, AfterLookup(s, id, fails), id)
  {
    var w := s.workers[id];
    if w.stage.todo == [] {
      ReconcileEndsKeepsInv(s, id, fails);
    } else {
      var h := w.stage.todo[0];
      if fails {
        LookupDefersKeepsInv(s, id, true);
      } else if h in s.txs && s.txs[h].status.Unsettled? {
        LookupDefersKeepsInv(s, id, false);
      } else if h in s.txs && s.txs[h].status.Applied? {
        LookupAppliedKeepsInv(s, id);
      } else {
        LookupRejectedKeepsInv(s, id);
      }
    }
  }

  // ---------------------------------------------------------------------------
  // Submitting
  // ---------------------------------------------------------------------------

  /** The worker's batch goes into a new transaction `h`, applied or not yet settled. */
  function Broadcast(s: Sys, id: nat, h: Hash, stage: Stage, status: TxStatus): Sys
    requires id in s.workers
  {
    var w := s.workers[id];
    SetWorker(s, id, Some(w.(stage := stage)))
    .(txs := s.txs[h := Tx(w.ids, status)], chain := if status.Applied? then s.chain + w.ids else s.chain)
  }

  lemma BroadcastTxs(s: Sys, id: nat, h: Hash, stage: Stage, status: TxStatus)
    requires id in s.workers && h !in s.txs && !status.Rejected?
    ensures var t := Broadcast(s, id, h, stage, status);
      && (forall g: Hash, i: nat :: LiveTx(t, g, i) <==> LiveTx(s, g, i) || (g == h && i in s.workers[id].ids))
      && (forall g: Hash, i: nat :: AppliedTx(t, g, i) <==>
            AppliedTx(s, g, i) || (g == h && status.Applied? && i in s.workers[id].ids))
      && (forall g: Hash, i: nat :: HashOk(s, i, g) ==> HashOk(t, i, g))
      && TxsGrew(s, t, id)
  {
    assert forall i: nat :: i in s.workers[id].ids ==> HoldsRow(s, id, i);
  }

  lemma BroadcastKeepsChain(s: Sys, id: nat, h: Hash, stage: Stage)
    requires Inv(s) && id in s.workers && s.workers[id].stage.Submit? && h !in s.txs
    ensures ChainOk(Broadcast(s, id, h, stage, Applied))
  {
    var w, t := s.workers[id], Broadcast(s, id, h, stage, Applied);
    HeldParts(w);
    BroadcastTxs(s, id, h, stage, Applied);
    forall i: nat | i in w.ids
      ensures i !in s.chain
    {
      assert StageOk(s, w, i);
      assert forall g: Hash :: AppliedTx(s, g, i) ==> LiveTx(s, g, i);
    }
    forall i: nat | i in t.chain
      ensures exists g: Hash :: AppliedTx(t, g, i)
    {
      if i in s.chain {
        var g: Hash :| AppliedTx(s, g, i);
        assert AppliedTx(t, g, i);
      } else {
        assert AppliedTx(t, h, i);
      }
    }
    DistinctJoins(s.chain, w.ids);
  }

  lemma DistinctJoins(a: seq<nat>, b: seq<nat>)
    requires forall x, y :: 0 <= x < y < |a| ==> a[x] != a[y]
    requires Ascending(b) && forall i: nat :: i in b ==> i !in a
    ensures forall x, y :: 0 <= x < y < |a + b| ==> (a + b)[x] != (a + b)[y]
  {
    assert forall x :: 0 <= x < |a| ==> a[x] in a;
    assert forall x :: 0 <= x < |b| ==> b[x] in b;
  }

  lemma BroadcastKeepsTxs(s: Sys, id: nat, h: Hash, stage: Stage, status: TxStatus)
    requires Inv(s) && id in s.workers && s.workers[id].stage.Submit? && h !in s.txs && !status.Rejected?
    ensures var t := Broadcast(s, id, h, stage, status); UniqueTx(t) && forall g: Hash :: TxOk(t, g)
  {
    var w, t := s.workers[id], Broadcast(s, id, h, stage, status);
    HeldParts(w);
    BroadcastTxs(s, id, h, stage, status);
    assert forall i: nat :: i in w.ids ==> StageOk(s, w, i);
    forall g: Hash
      ensures TxOk(t, g)
    {
      assert TxOk(s, g);
    }
    forall f: Hash, g: Hash, i: nat | LiveTx(t, f, i) && LiveTx(t, g, i)
      ensures f == g
    {
      assert i in w.ids ==> Clean(s, i);
    }
  }

  lemma BroadcastRowFits(s: Sys, id: nat, h: Hash, stage: Stage, status: TxStatus, i: nat)
    requires id in s.workers && s.workers[id].stage.Submit? && h !in s.txs && RowOk(s, i) && Untouched(s, i)
    requires (stage == Confirm(h) && status.Applied?) || (stage == Retry(true, Some(h)) && status.Unsettled?)
    ensures var w, t := s.workers[id], Broadcast(s, id, h, stage, status);
      && RowFacts(t, i)
      && (i in w.ids ==> StageOk(t, w.(stage := stage), i))
      && (i !in w.ids ==> Untouched(t, i))
      && (forall g: Hash :: LiveTx(t, g, i) ==> KnownHash(t, w.(stage := stage), i) == Some(g))
  {
    BroadcastTxs(s, id, h, stage, status);
    var t := Broadcast(s, id, h, stage, status);
    assert forall g: Hash :: LiveTx(t, g, i) ==> LiveTx(s, g, i) || (g == h && i in s.workers[id].ids);
  }

  /** What the worker holds fits its new stage. */
  lemma BroadcastHeldFits(s: Sys, id: nat, h: Hash, stage: Stage, status: TxStatus)
    requires Inv(s) && id in s.workers && s.workers[id].stage.Submit? && h !in s.txs
    requires (stage == Confirm(h) && status.Applied?) || (stage == Retry(true, Some(h)) && status.Unsettled?)
    ensures var t, next := Broadcast(s, id, h, stage, status), s.workers[id].(stage := stage);
      HeldOk(t, next) && forall i: nat :: i in Held(next) ==> RowFacts(t, i)
  {
    var w, t := s.workers[id], Broadcast(s, id, h, stage, status);
    var next := w.(stage := stage);
    HeldParts(w);
    assert Held(next) == Held(w);
    forall i: nat | i in Held(w)
      ensures RowFacts(t, i)
      ensures i in w.ids ==> StageOk(t, next, i)
      ensures i !in w.ids ==> Untouched(t, i)
      ensures forall g: Hash :: LiveTx(t, g, i) ==> KnownHash(t, next, i) == Some(g)
    {
      assert i in w.ids || i in Concat(w.rest);
      assert i in w.ids ==> StageOk(s, w, i);
      assert RowOk(s, i);
      BroadcastRowFits(s, id, h, stage, status, i);
    }
  }

  lemma BroadcastKeepsInv(s: Sys, id: nat, h: Hash, stage: Stage, status: TxStatus)
    requires Inv(s) && id in s.workers && s.workers[id].stage.Submit? && h !in s.txs
    requires (stage == Confirm(h) && status.Applied?) || (stage == Retry(true, Some(h)) && status.Unsettled?)
    ensures Inv(Broadcast(s, id, h, stage, status))
    ensures Moved(s, Broadcast(s, id, h, stage, status), id)
  {
    var w, t := s.workers[id], Broadcast(s, id, h, stage, status);
    var next := w.(stage := stage);
    BroadcastTxs(s, id, h, stage, status);
    BroadcastKeepsTxs(s, id, h, stage, status);
    BroadcastHeldFits(s, id, h, stage, status);
    assert Held(next) == Held(w);
    TurnKeepsRows(s, t, id, Some(next));
    TurnKeepsWorkers(s, t, id, Some(next));
    TurnKeepsDisjoint(s, t, id, Some(next));
    TurnMoves(s, t, id, Some(next));
    if status.Applied? {
      BroadcastKeepsChain(s, id, h, stage);
    } else {
      assert forall i: nat :: i in s.chain ==> exists g: Hash :: AppliedTx(s, g, i) && AppliedTx(t, g, i);
    }
  }

  lemma SplitKeepsInv(s: Sys, id: nat)
    requires Inv(s) && id in s.workers && s.workers[id].stage.Submit? && |s.workers[id].ids| > 1
    ensures var w, t := s.workers[id], SetWorker(s, id, Some(Split(s.workers[id].ids, s.workers[id].stage.top, s.workers[id].rest)));
      Inv(t) && Moved(s, t, id)
  {
    var w := s.workers[id];
    var next := Split(w.ids, w.stage.top, w.rest);
    var t := SetWorker(s, id, Some(next));
    SplitHoldsTheSame(w);
    forall i: nat | i in Held(w)
      ensures Untouched(t, i) && RowFacts(t, i)
    {
      assert i in w.ids || i in Concat(w.rest);
      assert Untouched(s, i) && RowOk(s, i);
      SameTxsSameFacts(s, t, i);
    }
    assert forall i: nat :: i in next.ids || i in Concat(next.rest) ==> i in Held(next);
    assert Shape(next);
    QuietTurnKeepsInv(s, t, id, Some(next));
  }

  lemma SubmitFailsKeepsInv(s: Sys, id: nat, stage: Stage)
    requires Inv(s) && id in s.workers && s.workers[id].stage.Submit?
    requires stage == Retry(true, None) || (stage == DeadLetter && |s.workers[id].ids| <= 1)
    ensures Inv(SetWorker(s, id, Some(s.workers[id].(stage := stage))))
    ensures Moved(s, SetWorker(s, id, Some(s.workers[id].(stage := stage))), id)
  {
    var w := s.workers[id];
    var next := w.(stage := stage);
    var t := SetWorker(s, id, Some(next));
    forall i: nat | i in w.ids && StageOk(s, w, i)
      ensures StageOk(t, next, i)
    {
      SameTxsSameFacts(s, t, i);
    }
    StillHeldOk(s, t, w, next);
    QuietTurnKeepsInv(s, t, id, Some(next));
  }

  lemma AnswerKeepsInv(s: Sys, id: nat, outcome: Outcome)
    requires Inv(s) && Enabled(s, Answer(id, outcome))
    ensures Inv(AfterAnswer(s, id, outcome))
    ensures Moved(s, AfterAnswer(s, id, outcome), id)
  {
    match outcome
    case Confirmed(h) => BroadcastKeepsInv(s, id, h, Confirm(h), Applied);
    case Ambiguous(h) => BroadcastKeepsInv(s, id, h, Retry(true, Some(h)), Unsettled);
    case TooLarge =>
      if |s.workers[id].ids| > 1 {
        SplitKeepsInv(s, id);
      } else {
        SubmitFailsKeepsInv(s, id, DeadLetter);
      }
    case OtherError => SubmitFailsKeepsInv(s, id, Retry(true, None));
  }

  // ---------------------------------------------------------------------------
  // Queue writes
  // ---------------------------------------------------------------------------

  /** A worker may start from rows nobody has touched. */
  lemma UntouchedIsOk(t: Sys, w: Worker)
    requires Shape(w) && Ascending(Held(w)) && (w.stage == Submit(false) || (w.stage.Reconcile? && w.stage.done == {}))
    requires forall i: nat :: i in Held(w) ==> Untouched(t, i)
    ensures HeldOk(t, w)
  {
    assert forall i: nat :: i in Held(w) <==> i in w.ids || i in Concat(w.rest);
  }

  lemma ContinueShape(rows: Rows, rest: seq<Segment>)
    requires Continue(rows, rest).Some?
    requires forall k :: 0 <= k < |rest| ==> rest[k].ids != [] && (rest[k].top ==> k == |rest| - 1)
    ensures var next := Continue(rows, rest).value; Shape(next) && Held(next) == Concat(rest)
  {
    NextSegment(rest);
    var next := Continue(rows, rest).value;
    assert next.ids == rest[0].ids && next.rest == rest[1..];
    assert forall k :: 0 <= k < |next.rest| ==> next.rest[k] == rest[k + 1];
  }

  lemma ContinueIsOk(t: Sys, rest: seq<Segment>)
    requires Continue(t.rows, rest).Some? && Ascending(Concat(rest))
    requires forall k :: 0 <= k < |rest| ==> rest[k].ids != [] && (rest[k].top ==> k == |rest| - 1)
    requires forall i: nat :: i in Concat(rest) ==> Untouched(t, i)
    ensures var next := Continue(t.rows, rest).value; HeldOk(t, next) && Held(next) == Concat(rest)
  {
    ContinueShape(t.rows, rest);
    UntouchedIsOk(t, Continue(t.rows, rest).value);
  }

  /** Closing the worker's batch publishes or fails its rows and leaves the others. */
  lemma ClosedRow(s: Sys, t: Sys, w: Worker, i: nat)
    requires i in Held(w) && RowOk(s, i) && t.txs == s.txs && (w.stage.Confirm? || w.stage.DeadLetter?)
    requires t.rows == if w.stage.Confirm? then MarkPublished(s.rows, w.ids, w.stage.hash) else MarkFailed(s.rows, w.ids)
    requires (i in w.ids ==> i < |s.rows| && StageOk(s, w, i)) && (i in Concat(w.rest) ==> Untouched(s, i) && i !in w.ids)
    ensures RowFacts(t, i)
    ensures i in w.ids ==> HasStatus(t, i, Published) || HasStatus(t, i, Failed)
    ensures i in Concat(w.rest) ==> Untouched(t, i)
  {
    assert i in w.ids || i in Concat(w.rest);
    SameTxsSameFacts(s, t, i);
  }

  lemma ClosedRows(s: Sys, t: Sys, w: Worker)
    requires HeldOk(s, w) && (forall i: nat :: RowOk(s, i)) && t.txs == s.txs && (w.stage.Confirm? || w.stage.DeadLetter?)
    requires t.rows == if w.stage.Confirm? then MarkPublished(s.rows, w.ids, w.stage.hash) else MarkFailed(s.rows, w.ids)
    ensures forall i: nat :: i in Held(w) ==> RowFacts(t, i) && (i in w.ids || i in Concat(w.rest))
    ensures forall i: nat :: i in w.ids ==> HasStatus(t, i, Published) || HasStatus(t, i, Failed)
    ensures forall i: nat :: i in Concat(w.rest) ==> Untouched(t, i) && i in Held(w)
  {
    HeldParts(w);
    assert forall i: nat :: i in Held(w) <==> i in w.ids || i in Concat(w.rest);
    forall i: nat | i in Held(w)
      ensures RowFacts(t, i)
      ensures i in w.ids ==> HasStatus(t, i, Published) || HasStatus(t, i, Failed)
      ensures i in Concat(w.rest) ==> Untouched(t, i)
    {
      assert RowOk(s, i);
      ClosedRow(s, t, w, i);
    }
  }

  /** A write that closes the worker's batch and goes on with the rest. */
  lemma CloseKeepsInv(s: Sys, t: Sys, id: nat)
    requires Inv(s) && id in s.workers && (s.workers[id].stage.Confirm? || s.workers[id].stage.DeadLetter?)
    requires var w := s.workers[id];
      t.rows == if w.stage.Confirm? then MarkPublished(s.rows, w.ids, w.stage.hash) else MarkFailed(s.rows, w.ids)
    requires t == SetWorker(s, id, Continue(t.rows, s.workers[id].rest)).(rows := t.rows)
    ensures Inv(t)
    ensures Moved(s, t, id)
  {
    var w := s.workers[id];
    var next := Continue(t.rows, w.rest);
    HeldParts(w);
    ClosedRows(s, t, w);
    if next.Some? {
      ContinueIsOk(t, w.rest);
    }
    assert forall i: nat :: KeptBy(next, i) <==> i in Concat(w.rest);
    QuietTurnKeepsInv(s, t, id, next);
  }

  /** Dead-lettering the exhausted rows of a batch leaves the others as they were. */
  lemma ExhaustedRowFits(s: Sys, t: Sys, w: Worker, next: Worker, gone: seq<nat>, i: nat)
    requires t.txs == s.txs && t.rows == MarkFailed(s.rows, gone) && i in Held(w) && RowOk(s, i)
    requires w.stage.Retry? && next.stage == ReleaseBatch(w.stage.kept) && next.rest == w.rest
    requires (i in w.ids ==> i < |s.rows| && StageOk(s, w, i)) && (i in Concat(w.rest) ==> Untouched(s, i) && i !in gone)
    requires i in next.ids <==> i in w.ids && i !in gone
    ensures RowFacts(t, i)
    ensures i in next.ids ==> StageOk(t, next, i)
    ensures i in Concat(w.rest) ==> Untouched(t, i)
    ensures i in Held(next) ==> KnownHash(t, next, i) == KnownHash(s, w, i)
    ensures i !in Held(next) ==> HasStatus(t, i, Failed)
  {
    assert i in w.ids || i in Concat(w.rest);
    SameTxsSameFacts(s, t, i);
    assert forall h: Hash :: LiveTx(t, h, i) == LiveTx(s, h, i);
    assert i in Held(next) <==> i in next.ids || i in Concat(w.rest);
  }

  lemma ExhaustedRowsFit(s: Sys, t: Sys, w: Worker, next: Worker, gone: seq<nat>)
    requires t.txs == s.txs && t.rows == MarkFailed(s.rows, gone) && HeldOk(s, w) && (forall i: nat :: RowOk(s, i))
    requires w.stage.Retry? && next.stage == ReleaseBatch(w.stage.kept) && next.rest == w.rest
    requires forall i: nat :: i in gone ==> i in w.ids
    requires forall i: nat :: i in next.ids <==> i in w.ids && i !in gone
    ensures forall i: nat :: i in Held(w) ==> RowFacts(t, i)
    ensures forall i: nat :: i in next.ids ==> StageOk(t, next, i)
    ensures forall i: nat :: i in Concat(w.rest) ==> Untouched(t, i)
    ensures forall i: nat :: i in Held(next) ==> i in Held(w) && KnownHash(t, next, i) == KnownHash(s, w, i)
    ensures forall i: nat :: i in Held(w) && i !in Held(next) ==> HasStatus(t, i, Failed)
  {
    HeldParts(w);
    assert forall i: nat :: i in Held(next) <==> i in next.ids || i in Concat(w.rest);
    assert forall i: nat :: i in Held(w) <==> i in w.ids || i in Concat(w.rest);
    forall i: nat | i in Held(w)
      ensures RowFacts(t, i)
      ensures i in next.ids ==> StageOk(t, next, i)
      ensures i in Concat(w.rest) ==> Untouched(t, i)
      ensures i in Held(next) ==> KnownHash(t, next, i) == KnownHash(s, w, i)
      ensures i !in Held(next) ==> HasStatus(t, i, Failed)
    {
      assert RowOk(s, i);
      ExhaustedRowFits(s, t, w, next, gone, i);
    }
  }

  lemma ExhaustedTurns(s: Sys, t: Sys, id: nat, next: Worker, gone: seq<nat>)
    requires id in s.workers && s.workers[id].stage.Retry?
    requires t == SetWorker(s, id, Some(next)).(rows := MarkFailed(s.rows, gone))
    requires forall i: nat :: i in gone ==> i in s.workers[id].ids
    requires forall i: nat :: i in Held(next) ==> i in Held(s.workers[id])
    requires forall i: nat :: i in Held(s.workers[id]) && i !in Held(next) ==> HasStatus(t, i, Failed)
    ensures Turn(s, t, id, Some(next)) && GoesOn(s, t, id, Some(next))
  {
    assert forall i: nat :: i in gone ==> HoldsRow(s, id, i);
  }

  lemma DeadLetterExhaustedKeepsInv(s: Sys, id: nat, due: int, maxAttempts: nat)
    requires Inv(s) && id in s.workers && s.workers[id].stage.Retry?
    ensures Inv(AfterWrite(s, id, due, maxAttempts))
    ensures Moved(s, AfterWrite(s, id, due, maxAttempts), id)
  {
    var w, t := s.workers[id], AfterWrite(s, id, due, maxAttempts);
    var gone := Exhausted(s.rows, w.ids, w.stage.counted, maxAttempts, |w.ids|);
    ExhaustedAreBatch(s.rows, w.ids, w.stage.counted, maxAttempts, |w.ids|);
    HeldParts(w);
    KeepAll(w.ids, set i | i in gone);
    var next := t.workers[id];
    ExhaustedRowsFit(s, t, w, next, gone);
    LaterAscends(next.ids, w.ids, Concat(w.rest));
    ExhaustedHeldOk(s, t, w, next);
    ExhaustedTurns(s, t, id, next, gone);
    QuietTurnKeepsInv(s, t, id, Some(next));
  }

  lemma ExhaustedHeldOk(s: Sys, t: Sys, w: Worker, next: Worker)
    requires HeldOk(s, w) && t.txs == s.txs && Shape(next) && Ascending(Held(next)) && next.rest == w.rest
    requires forall i: nat :: i in next.ids ==> i in w.ids && StageOk(t, next, i) && i < |t.rows|
    requires forall i: nat :: i in Concat(w.rest) ==> Untouched(t, i)
    requires forall i: nat :: i in Held(next) ==> KnownHash(t, next, i) == KnownHash(s, w, i)
    ensures HeldOk(t, next)
  {
    forall i: nat, h: Hash | i in Held(next) && LiveTx(t, h, i)
      ensures KnownHash(t, next, i) == Some(h)
    {
      assert LiveTx(s, h, i);
      assert i in next.ids || i in Concat(w.rest);
      assert i in Held(w);
    }
  }

  lemma LaterAscends(some: seq<nat>, all: seq<nat>, later: seq<nat>)
    requires Ascending(some) && Ascending(later)
    requires forall i: nat :: i in some ==> i in all
    requires forall i: nat, j: nat :: i in all && j in later ==> i < j
    ensures Ascending(some + later)
  {
    assert forall a :: 0 <= a < |some| ==> some[a] in some;
    assert forall b :: 0 <= b < |later| ==> later[b] in later;
  }

  lemma ReleasedRow(s: Sys, t: Sys, w: Worker, due: int, i: nat)
    requires HeldOk(s, w) && w.stage.ReleaseBatch? && i in Held(w) && RowOk(s, i)
    requires t.txs == s.txs && t.rows == Release(s.rows, w.ids, due, w.stage.kept)
    ensures RowFacts(t, i)
    ensures i in w.ids ==> HasStatus(t, i, Pending)
    ensures i in Concat(w.rest) ==> Untouched(t, i)
  {
    HeldParts(w);
    assert i in w.ids || i in Concat(w.rest);
    assert i in w.ids ==> StageOk(s, w, i);
    assert i in Concat(w.rest) ==> Untouched(s, i);
    SameTxsSameFacts(s, t, i);
    assert forall h: Hash :: LiveTx(t, h, i) ==> LiveTx(s, h, i) && KnownHash(s, w, i) == Some(h);
  }

  lemma ReleasedRows(s: Sys, t: Sys, w: Worker, due: int)
    requires HeldOk(s, w) && w.stage.ReleaseBatch? && (forall i: nat :: RowOk(s, i))
    requires t.txs == s.txs && t.rows == Release(s.rows, w.ids, due, w.stage.kept)
    ensures forall i: nat :: i in Held(w) ==> RowFacts(t, i)
    ensures forall i: nat :: i in w.ids ==> HasStatus(t, i, Pending)
    ensures forall i: nat :: i in Concat(w.rest) ==> Untouched(t, i)
  {
    assert forall i: nat :: i in Held(w) <==> i in w.ids || i in Concat(w.rest);
    forall i: nat | i in Held(w)
      ensures RowFacts(t, i)
      ensures i in w.ids ==> HasStatus(t, i, Pending)
      ensures i in Concat(w.rest) ==> Untouched(t, i)
    {
      assert RowOk(s, i);
      ReleasedRow(s, t, w, due, i);
    }
  }

  lemma ReleaseKeepsInv(s: Sys, id: nat, due: int, maxAttempts: nat)
    requires Inv(s) && id in s.workers && s.workers[id].stage.ReleaseBatch?
    ensures Inv(AfterWrite(s, id, due, maxAttempts))
    ensures Moved(s, AfterWrite(s, id, due, maxAttempts), id)
  {
    var w, t := s.workers[id], AfterWrite(s, id, due, maxAttempts);
    var next := Worker(Drain, [], w.rest);
    assert HeldOk(s, w);
    HeldParts(w);
    assert Held(next) == Concat(w.rest);
    ReleasedRows(s, t, w, due);
    DrainTurns(s, t, id, w, next, due, w.stage.kept);
    DrainingIsOk(t, next);
    QuietTurnKeepsInv(s, t, id, Some(next));
  }

  lemma FinishKeepsInv(s: Sys, id: nat)
    requires Inv(s) && id in s.workers && s.workers[id].stage.Drain? && s.workers[id].rest == []
    ensures Inv(SetWorker(s, id, None))
    ensures Moved(s, SetWorker(s, id, None), id)
  {
    assert Held(s.workers[id]) == [];
    QuietTurnKeepsInv(s, SetWorker(s, id, None), id, None);
  }

  lemma DrainedRow(s: Sys, t: Sys, w: Worker, due: int, i: nat)
    requires RowOk(s, i) && Untouched(s, i) && t.txs == s.txs && t.rows == Release(s.rows, w.ids, due, None)
    ensures RowFacts(t, i)
    ensures if i in w.ids then HasStatus(t, i, Pending) else Untouched(t, i)
  {
    SameTxsSameFacts(s, t, i);
  }

  lemma DrainTurns(s: Sys, t: Sys, id: nat, w: Worker, next: Worker, due: int, hash: Option<Hash>)
    requires id in s.workers && Held(s.workers[id]) == Held(w) && next.stage.Drain? && Held(next) == Concat(w.rest)
    requires t == SetWorker(s, id, Some(next)).(rows := Release(s.rows, w.ids, due, hash))
    requires forall i: nat :: i in w.ids ==> HasStatus(t, i, Pending)
    ensures Turn(s, t, id, Some(next)) && GoesOn(s, t, id, Some(next))
  {
    assert forall i: nat :: HoldsRow(s, id, i) <==> i in w.ids || i in Concat(w.rest);
  }

  /** The first segment of a draining worker, seen as a batch of its own. */
  function FirstSegment(k: Worker): Worker
    requires k.rest != []
  {
    Worker(Drain, k.rest[0].ids, k.rest[1..])
  }

  lemma FirstSegmentHolds(k: Worker)
    requires k.stage.Drain? && Shape(k) && k.rest != [] && Ascending(Held(k))
    ensures var next := k.(rest := k.rest[1..]); var w := FirstSegment(k);
      && Held(k) == Concat(k.rest) == Held(w) && Held(next) == Concat(w.rest) && Shape(next) && Ascending(Held(next))
      && (forall i: nat :: i in Held(w) <==> i in w.ids || i in Concat(w.rest))
      && (forall i: nat :: i in w.ids ==> i !in Concat(w.rest))
  {
    NextSegment(k.rest);
    assert Held(k) == Held(FirstSegment(k));
    HeldParts(FirstSegment(k));
  }

  lemma DrainedRows(s: Sys, t: Sys, k: Worker, due: int)
    requires HeldOk(s, k) && k.stage.Drain? && k.rest != [] && (forall i: nat :: RowOk(s, i))
    requires t.txs == s.txs && t.rows == Release(s.rows, k.rest[0].ids, due, None)
    ensures forall i: nat :: i in Held(k) ==> RowFacts(t, i)
    ensures forall i: nat :: i in k.rest[0].ids ==> HasStatus(t, i, Pending)
    ensures forall i: nat :: i in Concat(k.rest[1..]) ==> Untouched(t, i)
  {
    FirstSegmentHolds(k);
    forall i: nat | i in Held(k)
      ensures RowFacts(t, i)
      ensures if i in k.rest[0].ids then HasStatus(t, i, Pending) else Untouched(t, i)
    {
      assert RowOk(s, i) && Untouched(s, i);
      DrainedRow(s, t, FirstSegment(k), due, i);
    }
  }

  lemma DrainKeepsInv(s: Sys, id: nat, due: int, maxAttempts: nat)
    requires Inv(s) && id in s.workers && s.workers[id].stage.Drain? && s.workers[id].rest != []
    ensures Inv(AfterWrite(s, id, due, maxAttempts))
    ensures Moved(s, AfterWrite(s, id, due, maxAttempts), id)
  {
    var k, t := s.workers[id], AfterWrite(s, id, due, maxAttempts);
    var next := k.(rest := k.rest[1..]);
    assert HeldOk(s, k);
    FirstSegmentHolds(k);
    DrainedRows(s, t, k, due);
    DrainTurns(s, t, id, FirstSegment(k), next, due, None);
    DrainingIsOk(t, next);
    QuietTurnKeepsInv(s, t, id, Some(next));
  }

  lemma DrainingIsOk(t: Sys, w: Worker)
    requires Shape(w) && w.stage.Drain? && Ascending(Held(w)) && forall i: nat :: i in Concat(w.rest) ==> Untouched(t, i)
    ensures HeldOk(t, w)
  {
    assert Held(w) == Concat(w.rest);
  }

  lemma WriteKeepsInv(s: Sys, id: nat, due: int, maxAttempts: nat)
    requires Inv(s) && Enabled(s, Write(id, due))
    ensures Inv(AfterWrite(s, id, due, maxAttempts))
    ensures Moved(s, AfterWrite(s, id, due, maxAttempts), id)
  {
    match s.workers[id].stage
    case Confirm(_) => CloseKeepsInv(s, AfterWrite(s, id, due, maxAttempts), id);
    case DeadLetter => CloseKeepsInv(s, AfterWrite(s, id, due, maxAttempts), id);
    case Retry(_, _) => DeadLetterExhaustedKeepsInv(s, id, due, maxAttempts);
    case ReleaseBatch(_) => ReleaseKeepsInv(s, id, due, maxAttempts);
    case Drain =>
      if s.workers[id].rest == [] {
        FinishKeepsInv(s, id);
      } else {
        DrainKeepsInv(s, id, due, maxAttempts);
      }
  }

  // ---------------------------------------------------------------------------
  // Producers, claims and the chain
  // ---------------------------------------------------------------------------

  lemma EnqueueKeepsLive(s: Sys, t: Sys, i: nat)
    requires t == s.(rows := t.rows) && |t.rows| >= |s.rows| && i < |s.rows| && t.rows[i] == s.rows[i]
    ensures Live(t, i) ==> Live(s, i)
  {
    if exists w: nat :: HoldsRow(t, w, i) {
      var w: nat :| HoldsRow(t, w, i);
      assert HoldsRow(s, w, i);
    }
  }

  /** A larger table with the same beginning suits every worker as before. */
  lemma EnqueueKeepsWorker(s: Sys, t: Sys, id: nat)
    requires Inv(s) && id in s.workers && t == s.(rows := t.rows) && s.rows <= t.rows
    ensures HeldOk(t, s.workers[id]) && HoldsPrefix(t, s.workers[id])
  {
    var w := s.workers[id];
    forall i: nat | i in Held(w)
      ensures i < |s.rows| && t.rows[i] == s.rows[i]
    {
      assert i in w.ids || i in Concat(w.rest);
      assert i in Concat(w.rest) ==> Untouched(s, i);
    }
    forall i: nat | i in Held(w)
      ensures i in w.ids ==> StageOk(t, w, i)
      ensures i in Concat(w.rest) ==> Untouched(t, i)
    {
      SameTxsSameFacts(s, t, i);
      assert i in w.ids ==> StageOk(s, w, i);
    }
    assert forall i: nat :: i in w.ids || i in Concat(w.rest) ==> i in Held(w);
    forall i: nat, h: Hash | i in Held(w) && LiveTx(t, h, i)
      ensures KnownHash(t, w, i) == Some(h)
    {
      assert LiveTx(s, h, i);
    }
    forall i: nat, j: nat | !w.stage.Drain? && j in Held(w) && i < j && Live(t, i) && SameFeed(t, i, j)
      ensures i in Held(w)
    {
      EnqueueKeepsLive(s, t, i);
      assert SameFeed(s, i, j);
    }
  }

  lemma EnqueueKeepsInv(s: Sys, t: Sys)
    requires Inv(s) && t == s.(rows := t.rows) && s.rows <= t.rows
    requires forall i: nat :: |s.rows| <= i < |t.rows| ==> t.rows[i].status.Pending? && t.rows[i].hash.None?
    ensures Inv(t)
  {
    forall i: nat
      ensures RowOk(t, i)
    {
      assert RowOk(s, i);
      SameTxsSameFacts(s, t, i);
      if i < |s.rows| {
        if HasStatus(t, i, Inflight) {
          var w: nat :| HoldsRow(s, w, i);
          assert HoldsRow(t, w, i);
        }
      } else {
        forall h: Hash
          ensures !LiveTx(t, h, i)
        {
          assert TxOk(s, h);
        }
      }
    }
    forall w: nat | w in t.workers
      ensures HeldOk(t, t.workers[w]) && HoldsPrefix(t, t.workers[w])
    {
      EnqueueKeepsWorker(s, t, w);
    }
    forall v: nat, w: nat, i: nat, j: nat | v != w && HoldsRow(t, v, i) && HoldsRow(t, w, j)
      ensures !SameFeed(t, i, j)
    {
      assert HoldsRow(s, v, i) && HoldsRow(s, w, j);
      EnqueueKeepsWorker(s, t, v);
      EnqueueKeepsWorker(s, t, w);
      HeldInTable(s, v, i);
      HeldInTable(s, w, j);
      assert !SameFeed(s, i, j);
    }
    SameTxsKeepChain(s, t);
  }

  lemma HeldInTable(s: Sys, w: nat, i: nat)
    requires Inv(s) && HoldsRow(s, w, i)
    ensures i < |s.rows| && (HasStatus(s, i, Inflight) || HasStatus(s, i, Published))
  {
    var k := s.workers[w];
    assert i in k.ids || i in Concat(k.rest);
    assert i in k.ids ==> StageOk(s, k, i);
    assert i in Concat(k.rest) ==> Untouched(s, i);
  }

  /** The claimed rows become the batch of a new worker. */
  ghost predicate Claims(s: Sys, t: Sys, id: nat, ids: seq<nat>) {
    && id !in s.workers && ids != [] && Ascending(ids)
    && (forall i: nat :: i in ids ==> HasStatus(s, i, Pending))
    && (forall i: nat, j: nat :: j in ids && i < j && Open(s.rows, i) && SameFeed(s, i, j) ==> i in ids)
    && (forall w: nat, i: nat, j: nat :: j in ids && HoldsRow(s, w, i) ==> !SameFeed(s, i, j))
    && t == s.(rows := MarkInflight(s.rows, ids), workers := s.workers[id := Process(MarkInflight(s.rows, ids), ids, [])])
  }

  lemma ClaimSkipsHeldRow(s: Sys, t: Sys, id: nat, ids: seq<nat>, v: nat, i: nat)
    requires Claims(s, t, id, ids) && HoldsRow(s, v, i) && i < |s.rows|
    ensures |t.rows| == |s.rows| && t.rows[i] == s.rows[i]
  {
    assert SameFeed(s, i, i);
  }

  lemma SameRowSameStage(s: Sys, t: Sys, w: Worker, i: nat)
    requires t.txs == s.txs && |t.rows| == |s.rows| && i < |s.rows| && t.rows[i] == s.rows[i]
    ensures StageOk(s, w, i) ==> StageOk(t, w, i)
    ensures Untouched(s, i) ==> Untouched(t, i)
  {
    SameTxsSameFacts(s, t, i);
  }

  lemma ClaimLeavesHeldRow(s: Sys, t: Sys, id: nat, ids: seq<nat>, v: nat, i: nat)
    requires Inv(s) && Claims(s, t, id, ids) && HoldsRow(s, v, i)
    ensures i < |s.rows| && t.rows[i] == s.rows[i]
    ensures i in s.workers[v].ids ==> StageOk(t, s.workers[v], i)
    ensures i in Concat(s.workers[v].rest) ==> Untouched(t, i)
  {
    HeldInTable(s, v, i);
    ClaimSkipsHeldRow(s, t, id, ids, v, i);
    SameRowSameStage(s, t, s.workers[v], i);
  }

  lemma ClaimKeepsOther(s: Sys, t: Sys, id: nat, ids: seq<nat>, v: nat)
    requires Inv(s) && Claims(s, t, id, ids) && v in s.workers
    ensures HeldOk(t, s.workers[v])
  {
    var w := s.workers[v];
    forall i: nat | i in Held(w)
      ensures i < |s.rows| && t.rows[i] == s.rows[i]
      ensures i in w.ids ==> StageOk(t, w, i)
      ensures i in Concat(w.rest) ==> Untouched(t, i)
    {
      assert HoldsRow(s, v, i);
      ClaimLeavesHeldRow(s, t, id, ids, v, i);
    }
    assert forall i: nat :: i in w.ids || i in Concat(w.rest) ==> i in Held(w);
    forall i: nat, h: Hash | i in Held(w) && LiveTx(t, h, i)
      ensures KnownHash(t, w, i) == Some(h)
    {
      assert LiveTx(s, h, i);
    }
  }

  lemma ClaimKeepsPrefix(s: Sys, t: Sys, id: nat, ids: seq<nat>, v: nat)
    requires Inv(s) && Claims(s, t, id, ids) && v in s.workers
    ensures HoldsPrefix(t, s.workers[v])
  {
    var w := s.workers[v];
    forall i: nat, j: nat | !w.stage.Drain? && j in Held(w) && i < j && Live(t, i) && SameFeed(t, i, j)
      ensures i in Held(w)
    {
      ClaimKeepsLive(s, t, id, ids, i);
      assert SameFeed(s, i, j);
    }
  }

  lemma ClaimKeepsLive(s: Sys, t: Sys, id: nat, ids: seq<nat>, i: nat)
    requires Claims(s, t, id, ids) && Live(t, i)
    ensures Live(s, i)
  {
    if !HasStatus(t, i, Pending) {
      var w: nat :| HoldsRow(t, w, i);
      if w == id {
        assert Held(t.workers[id]) == ids;
      } else {
        assert HoldsRow(s, w, i);
      }
    }
  }

  lemma ClaimStartsWorker(s: Sys, t: Sys, id: nat, ids: seq<nat>)
    requires Inv(s) && Claims(s, t, id, ids)
    ensures HeldOk(t, t.workers[id]) && HoldsPrefix(t, t.workers[id]) && Held(t.workers[id]) == ids
  {
    var w := t.workers[id];
    assert Held(w) == ids;
    HashesCover(t.rows, ids, |ids|);
    forall i: nat | i in ids
      ensures StageOk(t, w, i)
      ensures forall h: Hash :: LiveTx(t, h, i) ==> KnownHash(t, w, i) == Some(h)
    {
      assert RowOk(s, i);
      SameTxsSameFacts(s, t, i);
      assert forall h: Hash :: LiveTx(t, h, i) ==> LiveTx(s, h, i);
      var a :| 0 <= a < |ids| && ids[a] == i;
    }
    forall i: nat, j: nat | j in ids && i < j && Live(t, i) && SameFeed(t, i, j)
      ensures i in ids
    {
      if HasStatus(t, i, Pending) {
        assert i !in ids ==> Open(s.rows, i);
      } else {
        var v: nat :| HoldsRow(t, v, i);
        assert v != id ==> HoldsRow(s, v, i);
      }
      assert SameFeed(s, i, j);
    }
  }

  lemma ClaimKeepsRow(s: Sys, t: Sys, id: nat, ids: seq<nat>, i: nat)
    requires Claims(s, t, id, ids) && RowOk(s, i) && Held(t.workers[id]) == ids
    ensures RowOk(t, i)
  {
    SameTxsSameFacts(s, t, i);
    if i in ids {
      assert HoldsRow(t, id, i);
    } else if HasStatus(t, i, Inflight) {
      var w: nat :| HoldsRow(s, w, i);
      assert HoldsRow(t, w, i);
    }
  }

  lemma ClaimKeepsDisjoint(s: Sys, t: Sys, id: nat, ids: seq<nat>)
    requires Disjoint(s) && Claims(s, t, id, ids) && Held(t.workers[id]) == ids
    ensures Disjoint(t)
  {
    forall v: nat, w: nat, i: nat, j: nat | v != w && HoldsRow(t, v, i) && HoldsRow(t, w, j)
      ensures !SameFeed(t, i, j)
    {
      assert v != id ==> HoldsRow(s, v, i);
      assert w != id ==> HoldsRow(s, w, j);
      assert !SameFeed(s, i, j) || !SameFeed(s, j, i);
    }
  }

  lemma ClaimKeepsInv(s: Sys, t: Sys, id: nat, ids: seq<nat>)
    requires Inv(s) && Claims(s, t, id, ids)
    ensures Inv(t)
  {
    ClaimStartsWorker(s, t, id, ids);
    forall v: nat | v in t.workers
      ensures HeldOk(t, t.workers[v]) && HoldsPrefix(t, t.workers[v])
    {
      if v != id {
        ClaimKeepsOther(s, t, id, ids, v);
        ClaimKeepsPrefix(s, t, id, ids, v);
      }
    }
    forall i: nat
      ensures RowOk(t, i)
    {
      assert RowOk(s, i);
      ClaimKeepsRow(s, t, id, ids, i);
    }
    ClaimKeepsDisjoint(s, t, id, ids);
    SameTxsKeepChain(s, t);
  }

  lemma SameTxsKeepChain(s: Sys, t: Sys)
    requires t.txs == s.txs && t.chain == s.chain && |s.rows| <= |t.rows|
    requires (forall h: Hash :: TxOk(s, h)) && UniqueTx(s) && ChainOk(s)
    ensures (forall h: Hash :: TxOk(t, h)) && UniqueTx(t) && ChainOk(t)
  {
    forall h: Hash
      ensures TxOk(t, h)
    {
      assert TxOk(s, h);
    }
    assert forall h: Hash, i: nat :: LiveTx(t, h, i) == LiveTx(s, h, i) && AppliedTx(t, h, i) == AppliedTx(s, h, i);
  }

  lemma ClaimRowsClaims(s: Sys, w: nat, limit: nat, cap: nat, exclude: set<string>, now: int)
    requires Inv(s) && Enabled(s, ClaimRows(w, limit, cap, exclude, now))
    ensures Claims(s, Apply(s, ClaimRows(w, limit, cap, exclude, now), 0), w, Claim(s.rows, limit, cap, exclude, now))
  {
    var ids := Claim(s.rows, limit, cap, exclude, now);
    ClaimTakesPrefixes(s.rows, limit, cap, exclude, now);
    forall i: nat, j: nat | j in ids && i < j && Open(s.rows, i) && SameFeed(s, i, j)
      ensures i in ids
    {
      assert OpenPeer(s.rows, i, j);
    }
    forall v: nat, i: nat, j: nat | j in ids && HoldsRow(s, v, i)
      ensures !SameFeed(s, i, j)
    {
      if SameFeed(s, i, j) {
        assert FeedOf(s.rows, Held(s.workers[v]), s.rows[i].feed);
      }
    }
  }

  /** Deciding a transaction can only move it from possible to applied or to rejected. */
  lemma SettleKeepsFacts(s: Sys, h: Hash, applied: bool, i: nat)
    requires h in s.txs && s.txs[h].status.Unsettled?
    ensures var t := AfterSettle(s, h, applied);
      && (forall g: Hash :: LiveTx(t, g, i) ==> LiveTx(s, g, i))
      && (forall g: Hash :: AppliedTx(s, g, i) ==> AppliedTx(t, g, i))
      && (forall g: Hash :: HashOk(s, i, g) ==> HashOk(t, i, g))
      && (Clean(s, i) ==> Clean(t, i)) && (RowFacts(s, i) ==> RowFacts(t, i))
  {
  }

  lemma SettleKeepsWorker(s: Sys, h: Hash, applied: bool, id: nat)
    requires Inv(s) && h in s.txs && s.txs[h].status.Unsettled? && id in s.workers
    ensures HeldOk(AfterSettle(s, h, applied), s.workers[id]) && HoldsPrefix(AfterSettle(s, h, applied), s.workers[id])
  {
    var w, t := s.workers[id], AfterSettle(s, h, applied);
    forall i: nat | i in Held(w)
      ensures i in w.ids ==> StageOk(t, w, i)
      ensures i in Concat(w.rest) ==> Untouched(t, i)
    {
      SettleKeepsFacts(s, h, applied, i);
      assert i in w.ids ==> StageOk(s, w, i);
    }
    assert forall i: nat :: i in w.ids || i in Concat(w.rest) ==> i in Held(w);
    forall i: nat, g: Hash | i in Held(w) && LiveTx(t, g, i)
      ensures KnownHash(t, w, i) == Some(g)
    {
      SettleKeepsFacts(s, h, applied, i);
    }
    forall i: nat, j: nat | !w.stage.Drain? && j in Held(w) && i < j && Live(t, i) && SameFeed(t, i, j)
      ensures i in Held(w)
    {
      SameLive(s, t, i);
      assert SameFeed(s, i, j);
    }
  }

  lemma SameLive(s: Sys, t: Sys, i: nat)
    requires t.rows == s.rows && t.workers == s.workers
    ensures Live(t, i) == Live(s, i)
  {
    assert forall w: nat :: HoldsRow(t, w, i) == HoldsRow(s, w, i);
  }

  lemma SettleKeepsChain(s: Sys, h: Hash, applied: bool)
    requires Inv(s) && h in s.txs && s.txs[h].status.Unsettled?
    ensures ChainOk(AfterSettle(s, h, applied))
  {
    var t := AfterSettle(s, h, applied);
    assert TxOk(s, h);
    forall i: nat | i in s.txs[h].ids
      ensures i !in s.chain
    {
      if i in s.chain {
        var g: Hash :| AppliedTx(s, g, i);
        assert LiveTx(s, g, i) && LiveTx(s, h, i);
      }
    }
    DistinctJoins(s.chain, s.txs[h].ids);
    forall i: nat | i in t.chain
      ensures exists g: Hash :: AppliedTx(t, g, i)
    {
      if i in s.chain {
        var g: Hash :| AppliedTx(s, g, i);
        assert AppliedTx(t, g, i);
      } else {
        assert AppliedTx(t, h, i);
      }
    }
  }

  lemma SettleKeepsInv(s: Sys, h: Hash, applied: bool)
    requires Inv(s) && h in s.txs && s.txs[h].status.Unsettled?
    ensures Inv(AfterSettle(s, h, applied))
  {
    var t := AfterSettle(s, h, applied);
    forall i: nat
      ensures RowOk(t, i)
    {
      assert RowOk(s, i);
      SettleKeepsFacts(s, h, applied, i);
      assert forall w: nat :: HoldsRow(t, w, i) == HoldsRow(s, w, i);
    }
    forall w: nat | w in t.workers
      ensures HeldOk(t, t.workers[w]) && HoldsPrefix(t, t.workers[w])
    {
      SettleKeepsWorker(s, h, applied, w);
    }
    assert Disjoint(t) by {
      assert forall w: nat, i: nat :: HoldsRow(t, w, i) == HoldsRow(s, w, i);
      assert forall i: nat, j: nat :: SameFeed(t, i, j) == SameFeed(s, i, j);
    }
    forall g: Hash
      ensures TxOk(t, g)
    {
      assert TxOk(s, g);
    }
    assert UniqueTx(t) by {
      assert forall g: Hash, i: nat :: LiveTx(t, g, i) ==> LiveTx(s, g, i);
    }
    SettleKeepsChain(s, h, applied);
  }

  lemma StepKeepsInv(s: Sys, step: Step, maxAttempts: nat)
    requires Inv(s) && Enabled(s, step)
    ensures Inv(Apply(s, step, maxAttempts))
  {
    match step
    case EnqueueRow(_, _, _, _, _) => EnqueueKeepsInv(s, Apply(s, step, maxAttempts));
    case ClaimRows(w, limit, cap, exclude, now) =>
      ClaimRowsClaims(s, w, limit, cap, exclude, now);
      ClaimKeepsInv(s, Apply(s, step, maxAttempts), w, Claim(s.rows, limit, cap, exclude, now));
    case Lookup(w, fails) => LookupKeepsInv(s, w, fails);
    case Answer(w, outcome) => AnswerKeepsInv(s, w, outcome);
    case Write(w, due) => WriteKeepsInv(s, w, due, maxAttempts);
    case Settle(h, applied) => SettleKeepsInv(s, h, applied);
  }

  lemma {:induction false} RunKeepsInv(s: Sys, steps: seq<Step>, t: Sys, maxAttempts: nat)
    requires Inv(s) && Run(s, steps, t, maxAttempts)
    ensures Inv(t)
    decreases |steps|
  {
    if steps != [] {
      StepKeepsInv(s, steps[0], maxAttempts);
      RunKeepsInv(Apply(s, steps[0], maxAttempts), steps[1..], t, maxAttempts);
    }
  }

  // ---------------------------------------------------------------------------
  // At most once, in submission order, nothing lost
  // ---------------------------------------------------------------------------

  lemma StartIsOk()
    ensures Inv(Start)
  {
  }

  /** In every run each decision takes effect at most once, whatever the chain and the
      scheduler do. */
  lemma AtMostOnce(steps: seq<Step>, t: Sys, maxAttempts: nat)
    requires Run(Start, steps, t, maxAttempts)
    ensures forall a, b :: 0 <= a < b < |t.chain| ==> t.chain[a] != t.chain[b]
  {
    StartIsOk();
    RunKeepsInv(Start, steps, t, maxAttempts);
  }

  /** A batch about to be submitted holds no row that is on chain or may still get
      there, and every earlier row of each of its feeds is published, failed or in it. */
  lemma SubmitsInOrder(steps: seq<Step>, t: Sys, maxAttempts: nat, w: nat, j: nat)
    requires Run(Start, steps, t, maxAttempts) && w in t.workers && t.workers[w].stage.Submit? && j in t.workers[w].ids
    ensures j !in t.chain && Clean(t, j)
    ensures forall i: nat :: i < j && SameFeed(t, i, j) ==>
              HasStatus(t, i, Published) || HasStatus(t, i, Failed) || i in t.workers[w].ids
  {
    StartIsOk();
    RunKeepsInv(Start, steps, t, maxAttempts);
    var k := t.workers[w];
    assert StageOk(t, k, j);
    assert forall h: Hash :: AppliedTx(t, h, j) ==> LiveTx(t, h, j);
    HeldParts(k);
    forall i: nat | i < j && SameFeed(t, i, j) && !HasStatus(t, i, Published) && !HasStatus(t, i, Failed)
      ensures i in k.ids
    {
      assert RowOk(t, i);
      assert Live(t, i);
      assert i in Held(k);
      assert i in k.ids || i in Concat(k.rest);
    }
  }

  /** A row is in flight only while a worker holds it, so once no worker is left every
      row is pending, published or failed. */
  lemma NothingIsLost(steps: seq<Step>, t: Sys, maxAttempts: nat)
    requires Run(Start, steps, t, maxAttempts)
    ensures forall i: nat :: HasStatus(t, i, Inflight) ==> exists w: nat :: HoldsRow(t, w, i)
    ensures t.workers == map[] ==> forall i: nat :: !HasStatus(t, i, Inflight)
  {
    StartIsOk();
    RunKeepsInv(Start, steps, t, maxAttempts);
    forall i: nat | HasStatus(t, i, Inflight)
      ensures exists w: nat :: HoldsRow(t, w, i)
    {
      assert RowOk(t, i);
    }
  }

  // ---------------------------------------------------------------------------
  // On-chain order
  // ---------------------------------------------------------------------------

  predicate UnsettledTx(s: Sys, h: Hash, i: nat) {
    h in s.txs && s.txs[h].status.Unsettled? && i in s.txs[h].ids
  }

  /** Row `j` makes the feed of row `i` wait for the undecided transaction holding both. */
  ghost predicate Guard(s: Sys, h: Hash, i: nat, j: nat) {
    UnsettledTx(s, h, j) && SameFeed(s, i, j) && Live(s, j)
  }

  ghost predicate Guarded(s: Sys, h: Hash, i: nat) {
    exists j: nat :: Guard(s, h, i, j)
  }

  /** Each feed of an undecided transaction has a live row in it. */
  ghost predicate AllGuarded(s: Sys) {
    forall h: Hash, i: nat {:trigger Guarded(s, h, i)} :: UnsettledTx(s, h, i) ==> Guarded(s, h, i)
  }

  /** Row `i` is still guarded once the rows of `gone` are dead-lettered. */
  ghost predicate StillGuarded(s: Sys, h: Hash, i: nat, gone: seq<nat>) {
    exists j: nat :: Guard(s, h, i, j) && j !in gone
  }

  /** The rows worker `w` is about to dead-letter for their attempts. */
  function Spent(s: Sys, w: nat, maxAttempts: nat): seq<nat>
    requires w in s.workers && s.workers[w].stage.Retry?
  {
    var k := s.workers[w];
    Exhausted(s.rows, k.ids, k.stage.counted, maxAttempts, |k.ids|)
  }

  /** The step does not dead-letter the last live row a feed has in an undecided transaction. */
  ghost predicate Patient(s: Sys, step: Step, maxAttempts: nat) {
    step.Write? && step.w in s.workers && s.workers[step.w].stage.Retry? ==>
      var gone := Spent(s, step.w, maxAttempts);
      forall h: Hash, i: nat :: UnsettledTx(s, h, i) && i in gone ==> StillGuarded(s, h, i, gone)
  }

  /** Undecided transactions hold the first live rows of feeds they do not share. */
  ghost predicate PendingOrdered(s: Sys) {
    && (forall h: Hash, i: nat, j: nat :: UnsettledTx(s, h, j) && i < j && SameFeed(s, i, j) && Live(s, i) ==>
          UnsettledTx(s, h, i))
    && (forall g: Hash, h: Hash, i: nat, j: nat :: UnsettledTx(s, g, i) && UnsettledTx(s, h, j) && SameFeed(s, i, j) ==> g == h)
    && (forall h: Hash, c: nat, j: nat :: UnsettledTx(s, h, j) && c in s.chain && SameFeed(s, c, j) ==> c < j)
  }

  /** The decisions of each feed have taken effect in id order, none skipped while it
      was still to be published. */
  ghost predicate ChainOrdered(s: Sys) {
    && (forall c: nat, i: nat :: c in s.chain && i < c && SameFeed(s, i, c) && Live(s, i) ==> i in s.chain)
    && (forall a, b :: 0 <= a < b < |s.chain| && SameFeed(s, s.chain[a], s.chain[b]) ==> s.chain[a] < s.chain[b])
  }

  ghost predicate Ordered(s: Sys) {
    AllGuarded(s) && PendingOrdered(s) && ChainOrdered(s)
  }

  /** The chain is as before, and live rows only went away. */
  ghost predicate Calm(s: Sys, t: Sys) {
    && t.txs == s.txs && t.chain == s.chain && |s.rows| <= |t.rows|
    && (forall i :: 0 <= i < |s.rows| ==> t.rows[i].feed == s.rows[i].feed)
    && (forall i: nat :: i < |s.rows| && Live(t, i) ==> Live(s, i))
  }

  lemma GuardsStay(s: Sys, t: Sys)
    requires Inv(s) && AllGuarded(s) && Calm(s, t)
    requires forall h: Hash, i: nat :: UnsettledTx(s, h, i) && Live(s, i) ==> Live(t, i)
    ensures AllGuarded(t)
  {
    forall h: Hash, i: nat | UnsettledTx(t, h, i)
      ensures Guarded(t, h, i)
    {
      assert UnsettledTx(s, h, i) && Guarded(s, h, i);
      var j: nat :| Guard(s, h, i, j);
      assert Guard(t, h, i, j);
    }
  }

  lemma InTable(s: Sys, h: Hash, i: nat)
    requires Inv(s)
    ensures h in s.txs && i in s.txs[h].ids ==> i < |s.rows|
    ensures i in s.chain ==> i < |s.rows|
  {
    assert TxOk(s, h);
    if i in s.chain {
      var g: Hash :| AppliedTx(s, g, i);
      assert TxOk(s, g);
    }
  }

  lemma CalmKeepsPending(s: Sys, t: Sys)
    requires Inv(s) && PendingOrdered(s) && Calm(s, t)
    ensures PendingOrdered(t)
  {
    assert forall h: Hash, i: nat :: UnsettledTx(t, h, i) == UnsettledTx(s, h, i);
    forall h: Hash, i: nat | UnsettledTx(s, h, i)
      ensures i < |s.rows|
    {
      InTable(s, h, i);
    }
    forall c: nat | c in s.chain
      ensures c < |s.rows|
    {
      InTable(s, 0, c);
    }
    assert forall i: nat, j: nat :: i < |s.rows| && j < |s.rows| ==> SameFeed(t, i, j) == SameFeed(s, i, j);
  }

  lemma CalmKeepsChain(s: Sys, t: Sys)
    requires Inv(s) && ChainOrdered(s) && Calm(s, t)
    ensures ChainOrdered(t)
  {
    forall c: nat | c in s.chain
      ensures c < |s.rows|
    {
      InTable(s, 0, c);
    }
    assert forall i: nat, j: nat :: i < |s.rows| && j < |s.rows| ==> SameFeed(t, i, j) == SameFeed(s, i, j);
    forall a, b | 0 <= a < b < |t.chain| && SameFeed(t, t.chain[a], t.chain[b])
      ensures t.chain[a] < t.chain[b]
    {
      assert s.chain[a] in s.chain && s.chain[b] in s.chain;
    }
  }

  lemma CalmKeepsOrder(s: Sys, t: Sys)
    requires Inv(s) && Ordered(s) && Calm(s, t) && AllGuarded(t)
    ensures Ordered(t)
  {
    CalmKeepsPending(s, t);
    CalmKeepsChain(s, t);
  }

  lemma MovedIsCalm(s: Sys, t: Sys, id: nat)
    requires Inv(s) && Inv(t) && Moved(s, t, id) && t.txs == s.txs && t.chain == s.chain
    ensures Calm(s, t)
  {
    forall i: nat | i < |s.rows| && Live(t, i)
      ensures Live(s, i)
    {
      MovedKeepsLive(s, t, id, i);
    }
  }

  /** A row of an undecided transaction stops being live only by failing: were it
      published, its transaction would be decided. */
  lemma OnlyFailureEndsIt(s: Sys, t: Sys, h: Hash, i: nat)
    requires Inv(s) && Inv(t) && t.txs == s.txs && |t.rows| == |s.rows| && UnsettledTx(s, h, i)
    requires !HasStatus(t, i, Failed)
    ensures Live(t, i)
  {
    InTable(s, h, i);
    assert RowOk(t, i);
    assert LiveTx(t, h, i) && UniqueTx(t);
    if HasStatus(t, i, Published) {
      assert AppliedTx(t, t.rows[i].hash.value, i) && LiveTx(t, t.rows[i].hash.value, i);
      assert false;
    }
  }

  lemma LiveIsNotFailed(s: Sys, i: nat)
    requires Inv(s) && Live(s, i)
    ensures !HasStatus(s, i, Failed)
  {
    if !HasStatus(s, i, Pending) {
      var w: nat :| HoldsRow(s, w, i);
      HeldInTable(s, w, i);
    }
  }

  lemma MovedKeepsLive(s: Sys, t: Sys, id: nat, i: nat)
    requires Moved(s, t, id) && Live(t, i)
    ensures Live(s, i)
  {
    if !HoldsRow(s, id, i) && !HasStatus(t, i, Pending) {
      var w: nat :| HoldsRow(t, w, i);
      assert HoldsRow(s, w, i);
    }
  }

  /** A row of an undecided transaction fails only for its attempts. */
  lemma FreshFailures(s: Sys, step: Step, maxAttempts: nat, i: nat, h: Hash)
    requires Inv(s) && Enabled(s, step) && UnsettledTx(s, h, i)
    requires HasStatus(Apply(s, step, maxAttempts), i, Failed) && !HasStatus(s, i, Failed)
    ensures step.Write? && s.workers[step.w].stage.Retry? && i in Spent(s, step.w, maxAttempts)
  {
    if step.Write? {
      var w := s.workers[step.w];
      if w.stage.DeadLetter? {
        assert i in w.ids ==> StageOk(s, w, i);
        assert LiveTx(s, h, i);
      }
    }
  }

  predicate IsQuiet(step: Step) {
    step.Lookup? || step.Write? || (step.Answer? && (step.outcome.TooLarge? || step.outcome.OtherError?))
  }

  lemma LookupChangesNoTx(s: Sys, id: nat, fails: bool)
    requires id in s.workers && s.workers[id].stage.Reconcile?
    ensures var t := AfterLookup(s, id, fails); t.txs == s.txs && t.chain == s.chain
  {
  }

  lemma WriteChangesNoTx(s: Sys, id: nat, due: int, maxAttempts: nat)
    requires id in s.workers && !s.workers[id].stage.Reconcile? && !s.workers[id].stage.Submit?
    ensures var t := AfterWrite(s, id, due, maxAttempts); t.txs == s.txs && t.chain == s.chain
  {
  }

  lemma QuietStepMoves(s: Sys, step: Step, maxAttempts: nat)
    requires Inv(s) && Enabled(s, step) && IsQuiet(step)
    ensures var t := Apply(s, step, maxAttempts);
      Inv(t) && Moved(s, t, step.w) && t.txs == s.txs && t.chain == s.chain
  {
    match step
    case Lookup(w, fails) =>
      LookupKeepsInv(s, w, fails);
      LookupChangesNoTx(s, w, fails);
    case Answer(w, outcome) => AnswerKeepsInv(s, w, outcome);
    case Write(w, due) =>
      WriteKeepsInv(s, w, due, maxAttempts);
      WriteChangesNoTx(s, w, due, maxAttempts);
  }

  /** A guard that fails for its attempts leaves another one behind. */
  lemma PatientStaysGuarded(s: Sys, step: Step, maxAttempts: nat, h: Hash, i: nat)
    requires Inv(s) && Enabled(s, step) && Patient(s, step, maxAttempts) && IsQuiet(step)
    requires UnsettledTx(s, h, i) && Guarded(s, h, i)
    ensures Guarded(Apply(s, step, maxAttempts), h, i)
  {
    var j: nat :| Guard(s, h, i, j);
    if step.Write? && s.workers[step.w].stage.Retry? && j in Spent(s, step.w, maxAttempts) {
      var gone := Spent(s, step.w, maxAttempts);
      assert StillGuarded(s, h, j, gone);
      var k: nat :| Guard(s, h, j, k) && k !in gone;
      GuardStays(s, step, maxAttempts, h, i, k);
    } else {
      GuardStays(s, step, maxAttempts, h, i, j);
    }
  }

  lemma GuardStays(s: Sys, step: Step, maxAttempts: nat, h: Hash, i: nat, j: nat)
    requires Inv(s) && Enabled(s, step) && IsQuiet(step) && Guard(s, h, i, j)
    requires step.Write? && s.workers[step.w].stage.Retry? ==> j !in Spent(s, step.w, maxAttempts)
    ensures Guarded(Apply(s, step, maxAttempts), h, i)
  {
    var t := Apply(s, step, maxAttempts);
    QuietStepMoves(s, step, maxAttempts);
    LiveIsNotFailed(s, j);
    if HasStatus(t, j, Failed) {
      FreshFailures(s, step, maxAttempts, j, h);
    }
    OnlyFailureEndsIt(s, t, h, j);
    assert Guard(t, h, i, j);
  }

  lemma QuietStepKeepsOrder(s: Sys, step: Step, maxAttempts: nat)
    requires Inv(s) && Ordered(s) && Enabled(s, step) && Patient(s, step, maxAttempts) && IsQuiet(step)
    ensures Ordered(Apply(s, step, maxAttempts))
  {
    var t := Apply(s, step, maxAttempts);
    QuietStepMoves(s, step, maxAttempts);
    MovedIsCalm(s, t, step.w);
    forall h: Hash, i: nat | UnsettledTx(t, h, i)
      ensures Guarded(t, h, i)
    {
      assert UnsettledTx(s, h, i) && Guarded(s, h, i);
      PatientStaysGuarded(s, step, maxAttempts, h, i);
    }
    CalmKeepsOrder(s, t);
  }

  /** Dead-lettering the last guard leaves the transaction unguarded. */
  lemma ImpatientUnguards(s: Sys, step: Step, maxAttempts: nat)
    requires Inv(s) && Enabled(s, step) && !Patient(s, step, maxAttempts)
    ensures !AllGuarded(Apply(s, step, maxAttempts))
  {
    var t, gone := Apply(s, step, maxAttempts), Spent(s, step.w, maxAttempts);
    QuietStepMoves(s, step, maxAttempts);
    MovedIsCalm(s, t, step.w);
    var h: Hash, i: nat :| UnsettledTx(s, h, i) && i in gone && !StillGuarded(s, h, i, gone);
    InTable(s, h, i);
    forall j: nat
      ensures !Guard(t, h, i, j)
    {
      SpentIsDead(s, step, maxAttempts, h, i, j);
    }
    assert UnsettledTx(t, h, i) && !Guarded(t, h, i);
  }

  lemma SpentIsDead(s: Sys, step: Step, maxAttempts: nat, h: Hash, i: nat, j: nat)
    requires Inv(s) && Enabled(s, step) && step.Write? && s.workers[step.w].stage.Retry?
    requires Inv(Apply(s, step, maxAttempts)) && Calm(s, Apply(s, step, maxAttempts))
    requires i < |s.rows| && !StillGuarded(s, h, i, Spent(s, step.w, maxAttempts))
    ensures !Guard(Apply(s, step, maxAttempts), h, i, j)
  {
    var t, gone := Apply(s, step, maxAttempts), Spent(s, step.w, maxAttempts);
    if Guard(t, h, i, j) {
      assert |t.rows| == |s.rows|;
      assert Guard(s, h, i, j);
      assert j in gone && HasStatus(t, j, Failed);
      LiveIsNotFailed(t, j);
    }
  }

  lemma EnqueueKeepsOrder(s: Sys, step: Step, maxAttempts: nat)
    requires Inv(s) && Ordered(s) && step.EnqueueRow?
    ensures Ordered(Apply(s, step, maxAttempts))
  {
    var t := Apply(s, step, maxAttempts);
    forall i: nat | i < |s.rows| && Live(t, i)
      ensures Live(s, i)
    {
      EnqueueKeepsLive(s, t, i);
    }
    forall h: Hash, i: nat | UnsettledTx(s, h, i) && Live(s, i)
      ensures Live(t, i)
    {
      StaysLive(s, t, i);
    }
    GuardsStay(s, t);
    CalmKeepsOrder(s, t);
  }

  lemma StaysLive(s: Sys, t: Sys, i: nat)
    requires Live(s, i) && |s.rows| <= |t.rows|
    requires HasStatus(s, i, Pending) ==> Live(t, i)
    requires forall w: nat :: w in s.workers ==> w in t.workers && t.workers[w] == s.workers[w]
    ensures Live(t, i)
  {
    if !HasStatus(s, i, Pending) {
      var w: nat :| HoldsRow(s, w, i);
      assert HoldsRow(t, w, i);
    }
  }

  lemma ClaimKeepsOrder(s: Sys, t: Sys, id: nat, ids: seq<nat>)
    requires Inv(s) && Ordered(s) && Claims(s, t, id, ids)
    ensures Ordered(t)
  {
    forall i: nat | i < |s.rows| && Live(t, i)
      ensures Live(s, i)
    {
      ClaimKeepsLive(s, t, id, ids, i);
    }
    assert Held(t.workers[id]) == ids;
    forall h: Hash, i: nat | UnsettledTx(s, h, i) && Live(s, i)
      ensures Live(t, i)
    {
      if i in ids {
        assert HoldsRow(t, id, i);
      } else {
        StaysLive(s, t, i);
      }
    }
    GuardsStay(s, t);
    CalmKeepsOrder(s, t);
  }

  /** A batch about to be submitted shares no feed with an undecided transaction, and
      what its feeds already have on chain comes earlier. */
  lemma SubmitIsNext(s: Sys, id: nat, j: nat)
    requires Inv(s) && Ordered(s) && id in s.workers && s.workers[id].stage.Submit? && j in s.workers[id].ids
    ensures forall h: Hash, i: nat :: UnsettledTx(s, h, i) ==> !SameFeed(s, i, j)
    ensures forall c: nat :: c in s.chain && SameFeed(s, c, j) ==> c < j
    ensures forall i: nat :: i < j && SameFeed(s, i, j) && Live(s, i) ==> i in s.workers[id].ids
  {
    var w := s.workers[id];
    assert StageOk(s, w, j) && HoldsRow(s, id, j) && Live(s, j);
    HeldParts(w);
    forall i: nat | i in Held(w)
      ensures forall h: Hash :: !UnsettledTx(s, h, i)
    {
      assert i in w.ids || i in Concat(w.rest);
      assert i in w.ids ==> StageOk(s, w, i);
      assert forall h: Hash :: UnsettledTx(s, h, i) ==> LiveTx(s, h, i);
    }
    forall h: Hash, i: nat | UnsettledTx(s, h, i)
      ensures !SameFeed(s, i, j)
    {
      assert Guarded(s, h, i);
      var g: nat :| Guard(s, h, i, g);
      assert SameFeed(s, i, j) ==> SameFeed(s, g, j) && SameFeed(s, j, g);
    }
    forall c: nat | c in s.chain && SameFeed(s, c, j)
      ensures c < j
    {
      if c >= j {
        assert SameFeed(s, j, c);
        assert j in s.chain;
        var h: Hash :| AppliedTx(s, h, j);
        assert LiveTx(s, h, j);
      }
    }
    forall i: nat | i < j && SameFeed(s, i, j) && Live(s, i)
      ensures i in w.ids
    {
      assert i in Held(w);
      assert i in w.ids || i in Concat(w.rest);
    }
  }

  /** Appending ascending rows that come after everything of their feeds keeps the order. */
  lemma AppendKeepsChain(s: Sys, t: Sys, ids: seq<nat>)
    requires Inv(s) && ChainOrdered(s) && Ascending(ids) && t.rows == s.rows && t.chain == s.chain + ids
    requires forall i: nat :: Live(t, i) ==> Live(s, i)
    requires forall c: nat, j: nat :: c in s.chain && j in ids && SameFeed(s, c, j) ==> c < j
    requires forall i: nat, j: nat :: j in ids && i < j && SameFeed(s, i, j) && Live(s, i) ==> i in ids
    ensures ChainOrdered(t)
  {
    forall a, b | 0 <= a < b < |t.chain| && SameFeed(t, t.chain[a], t.chain[b])
      ensures t.chain[a] < t.chain[b]
    {
      assert a < |s.chain| ==> t.chain[a] == s.chain[a] && t.chain[a] in s.chain;
      assert b >= |s.chain| ==> t.chain[b] == ids[b - |s.chain|] && t.chain[b] in ids;
      assert a >= |s.chain| ==> t.chain[a] == ids[a - |s.chain|];
      assert SameFeed(s, t.chain[a], t.chain[b]);
    }
  }

  lemma BroadcastKeepsLive(s: Sys, id: nat, h: Hash, stage: Stage, status: TxStatus, i: nat)
    requires id in s.workers
    ensures Live(Broadcast(s, id, h, stage, status), i) == Live(s, i)
  {
    var w, t := s.workers[id], Broadcast(s, id, h, stage, status);
    assert Held(w.(stage := stage)) == Held(w);
    assert forall v: nat :: HoldsRow(t, v, i) == HoldsRow(s, v, i);
  }

  lemma ConfirmKeepsOrder(s: Sys, id: nat, h: Hash)
    requires Inv(s) && Ordered(s) && id in s.workers && s.workers[id].stage.Submit? && h !in s.txs
    ensures Ordered(Broadcast(s, id, h, Confirm(h), Applied))
  {
    var w, t := s.workers[id], Broadcast(s, id, h, Confirm(h), Applied);
    HeldParts(w);
    forall i: nat
      ensures Live(t, i) == Live(s, i)
    {
      BroadcastKeepsLive(s, id, h, Confirm(h), Applied, i);
    }
    forall j: nat | j in w.ids
      ensures forall g: Hash, i: nat :: UnsettledTx(s, g, i) ==> !SameFeed(s, i, j)
      ensures forall c: nat :: c in s.chain && SameFeed(s, c, j) ==> c < j
      ensures forall i: nat :: i < j && SameFeed(s, i, j) && Live(s, i) ==> i in w.ids
    {
      SubmitIsNext(s, id, j);
    }
    AppendKeepsChain(s, t, w.ids);
    assert forall g: Hash, i: nat :: UnsettledTx(t, g, i) == UnsettledTx(s, g, i);
    assert forall i: nat, j: nat :: SameFeed(t, i, j) == SameFeed(s, i, j) == SameFeed(s, j, i);
    assert forall c: nat :: c in t.chain ==> c in s.chain || c in w.ids;
    SameGuards(s, t);
  }

  /** Guards count by transaction, feed and liveness alone. */
  lemma SameGuards(s: Sys, t: Sys)
    requires AllGuarded(s) && t.rows == s.rows && forall i: nat :: Live(t, i) == Live(s, i)
    requires forall h: Hash, i: nat :: UnsettledTx(t, h, i) ==>
               (forall j: nat :: UnsettledTx(t, h, j) == UnsettledTx(s, h, j)) || Live(s, i)
    ensures AllGuarded(t)
  {
    forall h: Hash, i: nat | UnsettledTx(t, h, i)
      ensures Guarded(t, h, i)
    {
      if Live(s, i) {
        assert Guard(t, h, i, i);
      } else {
        assert UnsettledTx(s, h, i) && Guarded(s, h, i);
        var j: nat :| Guard(s, h, i, j);
        assert Guard(t, h, i, j);
      }
    }
  }

  lemma AmbiguousKeepsOrder(s: Sys, id: nat, h: Hash)
    requires Inv(s) && Ordered(s) && id in s.workers && s.workers[id].stage.Submit? && h !in s.txs
    ensures Ordered(Broadcast(s, id, h, Retry(true, Some(h)), Unsettled))
  {
    var w, t := s.workers[id], Broadcast(s, id, h, Retry(true, Some(h)), Unsettled);
    forall i: nat
      ensures Live(t, i) == Live(s, i)
    {
      BroadcastKeepsLive(s, id, h, Retry(true, Some(h)), Unsettled, i);
    }
    forall j: nat | j in w.ids
      ensures forall g: Hash, i: nat :: UnsettledTx(s, g, i) ==> !SameFeed(s, i, j)
      ensures forall c: nat :: c in s.chain && SameFeed(s, c, j) ==> c < j
      ensures forall i: nat :: i < j && SameFeed(s, i, j) && Live(s, i) ==> i in w.ids
      ensures Live(s, j)
    {
      SubmitIsNext(s, id, j);
      assert HoldsRow(s, id, j) && StageOk(s, w, j);
    }
    assert forall g: Hash, i: nat :: UnsettledTx(t, g, i) <==> UnsettledTx(s, g, i) || (g == h && i in w.ids);
    assert forall i: nat, j: nat :: SameFeed(t, i, j) == SameFeed(s, i, j) == SameFeed(s, j, i);
    SameGuards(s, t);
  }

  lemma SettleKeepsOrder(s: Sys, h: Hash, applied: bool)
    requires Inv(s) && Ordered(s) && h in s.txs && s.txs[h].status.Unsettled?
    ensures Ordered(AfterSettle(s, h, applied))
  {
    var t, ids := AfterSettle(s, h, applied), s.txs[h].ids;
    assert TxOk(s, h);
    assert forall i: nat :: i in ids <==> UnsettledTx(s, h, i);
    assert forall g: Hash, i: nat :: UnsettledTx(t, g, i) <==> UnsettledTx(s, g, i) && g != h;
    forall i: nat
      ensures Live(t, i) == Live(s, i)
    {
      SameLive(s, t, i);
    }
    assert forall i: nat, j: nat :: SameFeed(t, i, j) == SameFeed(s, i, j) == SameFeed(s, j, i);
    SameGuards(s, t);
    if applied {
      AppendKeepsChain(s, t, ids);
      assert forall c: nat :: c in t.chain ==> c in s.chain || c in ids;
    }
  }

  lemma StepKeepsOrder(s: Sys, step: Step, maxAttempts: nat)
    requires Inv(s) && Ordered(s) && Enabled(s, step) && Patient(s, step, maxAttempts)
    ensures Ordered(Apply(s, step, maxAttempts))
  {
    match step
    case EnqueueRow(_, _, _, _, _) => EnqueueKeepsOrder(s, step, maxAttempts);
    case ClaimRows(w, limit, cap, exclude, now) =>
      ClaimRowsClaims(s, w, limit, cap, exclude, now);
      ClaimKeepsOrder(s, Apply(s, step, maxAttempts), w, Claim(s.rows, limit, cap, exclude, now));
    case Settle(h, applied) => SettleKeepsOrder(s, h, applied);
    case Answer(w, outcome) =>
      if outcome.Confirmed? {
        ConfirmKeepsOrder(s, w, outcome.hash);
      } else if outcome.Ambiguous? {
        AmbiguousKeepsOrder(s, w, outcome.hash);
      } else {
        QuietStepKeepsOrder(s, step, maxAttempts);
      }
    case Lookup(_, _) => QuietStepKeepsOrder(s, step, maxAttempts);
    case Write(_, _) => QuietStepKeepsOrder(s, step, maxAttempts);
  }

  /** Every step of the run is patient where it is taken. */
  ghost predicate PatientRun(s: Sys, steps: seq<Step>, maxAttempts: nat)
    decreases |steps|
  {
    steps == [] ||
    (Enabled(s, steps[0]) && Patient(s, steps[0], maxAttempts)
     && PatientRun(Apply(s, steps[0], maxAttempts), steps[1..], maxAttempts))
  }

  /** A step keeps the order exactly if it dead-letters no last guard. */
  lemma StepOrderedIff(s: Sys, step: Step, maxAttempts: nat)
    requires Inv(s) && Ordered(s) && Enabled(s, step)
    ensures Ordered(Apply(s, step, maxAttempts)) <==> Patient(s, step, maxAttempts)
  {
    if Patient(s, step, maxAttempts) {
      StepKeepsOrder(s, step, maxAttempts);
    } else {
      ImpatientUnguards(s, step, maxAttempts);
    }
  }

  /** Every state of the run is in order. */
  ghost predicate OrderedAlong(s: Sys, steps: seq<Step>, maxAttempts: nat)
    decreases |steps|
  {
    && Ordered(s)
    && (steps != [] ==> Enabled(s, steps[0]) && OrderedAlong(Apply(s, steps[0], maxAttempts), steps[1..], maxAttempts))
  }

  lemma {:induction false} RunOrderedIff(s: Sys, steps: seq<Step>, t: Sys, maxAttempts: nat)
    requires Inv(s) && Ordered(s) && Run(s, steps, t, maxAttempts)
    ensures OrderedAlong(s, steps, maxAttempts) <==> PatientRun(s, steps, maxAttempts)
    ensures PatientRun(s, steps, maxAttempts) ==> Ordered(t)
    decreases |steps|
  {
    if steps != [] {
      StepKeepsInv(s, steps[0], maxAttempts);
      StepOrderedIff(s, steps[0], maxAttempts);
      if Patient(s, steps[0], maxAttempts) {
        RunOrderedIff(Apply(s, steps[0], maxAttempts), steps[1..], t, maxAttempts);
      }
    }
  }

  /** In every run that never dead-letters the last live row a feed has in an undecided
      transaction, the decisions of each feed take effect in id order. */
  lemma TakesEffectInOrder(steps: seq<Step>, t: Sys, maxAttempts: nat)
    requires Run(Start, steps, t, maxAttempts) && PatientRun(Start, steps, maxAttempts)
    ensures forall a, b :: 0 <= a < b < |t.chain| && SameFeed(t, t.chain[a], t.chain[b]) ==> t.chain[a] < t.chain[b]
  {
    StartIsOk();
    RunOrderedIff(Start, steps, t, maxAttempts);
  }

  /** The decision a row stands for never changes. */
  predicate SameDecision(r: Row, r': Row) {
    r'.key == r.key && r'.feed == r.feed && r'.value == r.value && r'.priority == r.priority
  }

  ghost predicate DecisionsKept(s: Sys, t: Sys) {
    |s.rows| <= |t.rows| && forall i :: 0 <= i < |s.rows| ==> SameDecision(s.rows[i], t.rows[i])
  }

  lemma LookupKeepsDecisions(s: Sys, w: nat, fails: bool)
    requires w in s.workers && s.workers[w].stage.Reconcile?
    ensures DecisionsKept(s, AfterLookup(s, w, fails))
  {
  }

  lemma WriteKeepsDecisions(s: Sys, w: nat, due: int, maxAttempts: nat)
    requires Enabled(s, Write(w, due))
    ensures DecisionsKept(s, AfterWrite(s, w, due, maxAttempts))
  {
    var k := s.workers[w];
    match k.stage
    case Confirm(h) => assert AfterWrite(s, w, due, maxAttempts).rows == MarkPublished(s.rows, k.ids, h);
    case DeadLetter => assert AfterWrite(s, w, due, maxAttempts).rows == MarkFailed(s.rows, k.ids);
    case Retry(counted, _) =>
      assert AfterWrite(s, w, due, maxAttempts).rows
          == MarkFailed(s.rows, Exhausted(s.rows, k.ids, counted, maxAttempts, |k.ids|));
    case ReleaseBatch(hash) => assert AfterWrite(s, w, due, maxAttempts).rows == Release(s.rows, k.ids, due, hash);
    case Drain =>
  }

  lemma StepKeepsDecisions(s: Sys, step: Step, maxAttempts: nat)
    requires Enabled(s, step)
    ensures DecisionsKept(s, Apply(s, step, maxAttempts))
  {
    match step
    case Lookup(w, fails) => LookupKeepsDecisions(s, w, fails);
    case Write(w, due) => WriteKeepsDecisions(s, w, due, maxAttempts);
    case _ =>
  }

  /** Queue rows are never removed, reordered or rewritten. */
  lemma {:induction false} RunKeepsDecisions(s: Sys, steps: seq<Step>, t: Sys, maxAttempts: nat)
    requires Run(s, steps, t, maxAttempts)
    ensures DecisionsKept(s, t)
    decreases |steps|
  {
    if steps != [] {
      StepKeepsDecisions(s, steps[0], maxAttempts);
      RunKeepsDecisions(Apply(s, steps[0], maxAttempts), steps[1..], t, maxAttempts);
    }
  }

  // ---------------------------------------------------------------------------
  // Termination
  // ---------------------------------------------------------------------------

  /** A segment of `n` rows can be split at most `2n - 1` times over. */
  function Weight(segs: seq<Segment>): nat {
    if segs == [] then 0 else (if segs[0].ids == [] then 0 else 2 * |segs[0].ids| - 1) + Weight(segs[1..])
  }

  /** Splits and submissions still possible. */
  function Splits(w: Worker): nat {
    Weight(w.rest) +
    (if (w.stage.Reconcile? || w.stage.Submit?) && w.ids != [] then 2 * |w.ids| - 1 else 0)
  }

  /** Steps until the next split or submission. */
  function Waits(w: Worker): nat {
    match w.stage
    case Reconcile(todo, _) => |todo| + 1
    case Submit(_) => 0
    case Confirm(_) => |Concat(w.rest)| + 2
    case DeadLetter => |Concat(w.rest)| + 2
    case Retry(_, _) => 3
    case ReleaseBatch(_) => 2
    case Drain => 1
  }

  /** A bound on the steps a worker holding at most `n` rows can still take. */
  function Rank(w: Worker, n: nat): nat {
    Splits(w) * (n + 4) + Waits(w)
  }

  predicate Fits(w: Worker, n: nat) {
    |Held(w)| <= n && Waits(w) <= n + 3
  }

  lemma Smaller(a: nat, b: nat, x: nat, y: nat, n: nat)
    requires a < x && b < n + 4
    ensures a * (n + 4) + b < x * (n + 4) + y
  {
    assert (a + 1) * (n + 4) <= x * (n + 4);
  }

  lemma {:induction false} KeepShrinks(ids: seq<nat>, gone: set<nat>, k: nat)
    requires k <= |ids|
    ensures |Keep(ids, gone, k)| <= k
  {
    if k > 0 {
      KeepShrinks(ids, gone, k - 1);
    }
  }

  lemma ContinueRank(rows: Rows, w: Worker, n: nat)
    requires Shape(w) && (w.stage.Confirm? || w.stage.DeadLetter?) && Fits(w, n)
    ensures var next := Continue(rows, w.rest); next.Some? ==> Fits(next.value, n) && Rank(next.value, n) < Rank(w, n)
  {
    if w.rest != [] {
      var first := w.rest[0].ids;
      HashesCover(rows, first, |first|);
      NextSegment(w.rest);
      assert Splits(Continue(rows, w.rest).value) == Weight(w.rest);
    }
  }

  lemma LookupRank(s: Sys, id: nat, fails: bool, n: nat)
    requires id in s.workers && s.workers[id].stage.Reconcile? && Shape(s.workers[id]) && Fits(s.workers[id], n)
    ensures var t := AfterLookup(s, id, fails);
      id in t.workers ==> Fits(t.workers[id], n) && Rank(t.workers[id], n) < Rank(s.workers[id], n)
  {
    var w, t := s.workers[id], AfterLookup(s, id, fails);
    KeepShrinks(w.ids, w.stage.done, |w.ids|);
    if id in t.workers {
      var v := t.workers[id];
      if v.stage.Submit? && |v.ids| == |w.ids| {
        assert Splits(v) == Splits(w);
      } else if !v.stage.Reconcile? {
        Smaller(Splits(v), Waits(v), Splits(w), Waits(w), n);
      }
    }
  }

  lemma SplitRank(w: Worker, n: nat)
    requires w.stage.Submit? && Shape(w) && |w.ids| > 1 && Fits(w, n)
    ensures var v := Split(w.ids, w.stage.top, w.rest); Fits(v, n) && Rank(v, n) < Rank(w, n)
  {
    var v := Split(w.ids, w.stage.top, w.rest);
    SplitHoldsTheSame(w);
    assert v.rest[1..] == w.rest;
    assert Splits(v) == Splits(w) - 1;
    Smaller(Splits(v), Waits(v), Splits(w), Waits(w), n);
  }

  lemma AnswerRank(s: Sys, id: nat, outcome: Outcome, n: nat)
    requires id in s.workers && s.workers[id].stage.Submit? && Shape(s.workers[id]) && Fits(s.workers[id], n)
    ensures var t := AfterAnswer(s, id, outcome);
      id in t.workers ==> Fits(t.workers[id], n) && Rank(t.workers[id], n) < Rank(s.workers[id], n)
  {
    var w, t := s.workers[id], AfterAnswer(s, id, outcome);
    if outcome.TooLarge? && |w.ids| > 1 {
      SplitRank(w, n);
    } else {
      Smaller(Splits(t.workers[id]), Waits(t.workers[id]), Splits(w), Waits(w), n);
    }
  }

  lemma DrainRank(s: Sys, id: nat, due: int, maxAttempts: nat, n: nat)
    requires Enabled(s, Write(id, due)) && s.workers[id].stage.Drain? && Shape(s.workers[id]) && Fits(s.workers[id], n)
    ensures var t := AfterWrite(s, id, due, maxAttempts);
      id in t.workers ==> Fits(t.workers[id], n) && Rank(t.workers[id], n) < Rank(s.workers[id], n)
  {
    var w := s.workers[id];
    if w.rest != [] {
      NextSegment(w.rest);
      var v := w.(rest := w.rest[1..]);
      Smaller(Splits(v), Waits(v), Splits(w), Waits(w), n);
    }
  }

  lemma RetryRank(s: Sys, id: nat, due: int, maxAttempts: nat, n: nat)
    requires Enabled(s, Write(id, due)) && s.workers[id].stage.Retry? && Fits(s.workers[id], n)
    ensures var t := AfterWrite(s, id, due, maxAttempts);
      id in t.workers && Fits(t.workers[id], n) && Rank(t.workers[id], n) < Rank(s.workers[id], n)
  {
    var w := s.workers[id];
    var gone := set i | i in Exhausted(s.rows, w.ids, w.stage.counted, maxAttempts, |w.ids|);
    KeepShrinks(w.ids, gone, |w.ids|);
    var next := w.(stage := ReleaseBatch(w.stage.kept), ids := Keep(w.ids, gone, |w.ids|));
    assert AfterWrite(s, id, due, maxAttempts).workers[id] == next;
    assert Splits(next) == Splits(w);
  }

  lemma ReleaseRank(s: Sys, id: nat, due: int, maxAttempts: nat, n: nat)
    requires Enabled(s, Write(id, due)) && s.workers[id].stage.ReleaseBatch? && Fits(s.workers[id], n)
    ensures var t := AfterWrite(s, id, due, maxAttempts);
      id in t.workers && Fits(t.workers[id], n) && Rank(t.workers[id], n) < Rank(s.workers[id], n)
  {
    var next := Worker(Drain, [], s.workers[id].rest);
    assert AfterWrite(s, id, due, maxAttempts).workers[id] == next;
    assert Splits(next) == Splits(s.workers[id]);
  }

  lemma CloseRank(s: Sys, id: nat, due: int, maxAttempts: nat, n: nat)
    requires Enabled(s, Write(id, due)) && (s.workers[id].stage.Confirm? || s.workers[id].stage.DeadLetter?)
    requires Shape(s.workers[id]) && Fits(s.workers[id], n)
    ensures var t := AfterWrite(s, id, due, maxAttempts);
      id in t.workers ==> Fits(t.workers[id], n) && Rank(t.workers[id], n) < Rank(s.workers[id], n)
  {
    ContinueRank(AfterWrite(s, id, due, maxAttempts).rows, s.workers[id], n);
  }

  lemma WriteRank(s: Sys, id: nat, due: int, maxAttempts: nat, n: nat)
    requires Enabled(s, Write(id, due)) && Shape(s.workers[id]) && Fits(s.workers[id], n)
    ensures var t := AfterWrite(s, id, due, maxAttempts);
      id in t.workers ==> Fits(t.workers[id], n) && Rank(t.workers[id], n) < Rank(s.workers[id], n)
  {
    match s.workers[id].stage
    case Confirm(_) => CloseRank(s, id, due, maxAttempts, n);
    case DeadLetter => CloseRank(s, id, due, maxAttempts, n);
    case Retry(_, _) => RetryRank(s, id, due, maxAttempts, n);
    case ReleaseBatch(_) => ReleaseRank(s, id, due, maxAttempts, n);
    case Drain => DrainRank(s, id, due, maxAttempts, n);
  }

  predicate IsStepOf(step: Step, w: nat) {
    (step.Lookup? || step.Answer? || step.Write?) && step.w == w
  }

  function OwnSteps(steps: seq<Step>, w: nat): nat {
    if steps == [] then 0 else (if IsStepOf(steps[0], w) then 1 else 0) + OwnSteps(steps[1..], w)
  }

  lemma OwnStepRank(s: Sys, step: Step, w: nat, n: nat, maxAttempts: nat)
    requires Inv(s) && Enabled(s, step) && w in s.workers && Fits(s.workers[w], n) && IsStepOf(step, w)
    ensures var t := Apply(s, step, maxAttempts);
      w in t.workers ==> Fits(t.workers[w], n) && Rank(t.workers[w], n) < Rank(s.workers[w], n)
  {
    assert Shape(s.workers[w]) by {
      assert HeldOk(s, s.workers[w]);
    }
    match step
    case Lookup(_, fails) => LookupRank(s, w, fails, n);
    case Answer(_, outcome) => AnswerRank(s, w, outcome, n);
    case Write(_, due) => WriteRank(s, w, due, maxAttempts, n);
  }

  lemma RankIsPositive(w: Worker, n: nat)
    requires Shape(w)
    ensures 0 < Rank(w, n)
  {
    if w.stage.Submit? {
      Smaller(0, 0, Splits(w), 0, n);
    }
  }

  lemma OtherStepsLeaveIt(s: Sys, step: Step, w: nat, maxAttempts: nat)
    requires Enabled(s, step) && !IsStepOf(step, w) && (step.ClaimRows? ==> step.w != w)
    ensures var t := Apply(s, step, maxAttempts);
      (w in t.workers <==> w in s.workers) && (w in t.workers ==> t.workers[w] == s.workers[w])
  {
  }

  /** However the steps of the system interleave, a worker takes at most `Rank` steps of
      its own before it is done: every split shortens the batch it recurses on. */
  lemma {:induction false} ProcessTerminates(s: Sys, steps: seq<Step>, t: Sys, w: nat, n: nat, maxAttempts: nat)
    requires Inv(s) && Run(s, steps, t, maxAttempts) && (w in s.workers ==> Fits(s.workers[w], n))
    requires forall k :: 0 <= k < |steps| && steps[k].ClaimRows? ==> steps[k].w != w
    ensures OwnSteps(steps, w) + (if w in t.workers then Rank(t.workers[w], n) else 0)
            <= (if w in s.workers then Rank(s.workers[w], n) else 0)
    decreases |steps|
  {
    if steps != [] {
      var step := steps[0];
      var m := Apply(s, step, maxAttempts);
      StepKeepsInv(s, step, maxAttempts);
      if IsStepOf(step, w) {
        OwnStepRank(s, step, w, n, maxAttempts);
        assert HeldOk(s, s.workers[w]);
        RankIsPositive(s.workers[w], n);
      } else {
        OtherStepsLeaveIt(s, step, w, maxAttempts);
      }
      ProcessTerminates(m, steps[1..], t, w, n, maxAttempts);
    }
  }

  /** A freshly claimed batch of `n` rows is done after at most `2n` rounds of `n + 4` steps. */
  lemma ClaimedRank(s: Sys, step: Step, maxAttempts: nat)
    requires Inv(s) && Enabled(s, step) && step.ClaimRows?
    ensures var w := Apply(s, step, maxAttempts).workers[step.w];
      Fits(w, |w.ids|) && Rank(w, |w.ids|) <= 2 * |w.ids| * (|w.ids| + 4)
  {
    var ids := Claim(s.rows, step.limit, step.cap, step.exclude, step.now);
    var w := Process(MarkInflight(s.rows, ids), ids, []);
    assert Apply(s, step, maxAttempts).workers[step.w] == w;
    ProcessRank(MarkInflight(s.rows, ids), ids);
  }

  lemma ProcessRank(rows: Rows, ids: seq<nat>)
    requires ids != []
    ensures var w := Process(rows, ids, []); Fits(w, |ids|) && Rank(w, |ids|) <= 2 * |ids| * (|ids| + 4)
  {
    var w, n := Process(rows, ids, []), |ids|;
    HashesCover(rows, ids, n);
    assert Held(w) == ids;
    assert Splits(w) == 2 * n - 1;
    Doubled(n);
  }

  lemma Doubled(n: nat)
    ensures (2 * n - 1) * (n + 4) + (n + 4) == 2 * n * (n + 4)
  {
  }
}
