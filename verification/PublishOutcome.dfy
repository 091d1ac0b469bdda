/**
 What becomes of a row: how each answer of the chain ends in the queue, how often a row
 was tried, and why it failed.
 */
module PublishOutcome {
  import opened Wrappers
  import opened PublishQueue
  import opened Publisher

  // ---------------------------------------------------------------------------
  // Giving a batch back
  // ---------------------------------------------------------------------------

  lemma {:induction false} ExhaustedAre(rows: Rows, ids: seq<nat>, counted: bool, maxAttempts: nat, k: nat, i: nat)
    requires k <= |ids| && i < |rows|
    ensures i in Exhausted(rows, ids, counted, maxAttempts, k) <==>
            i in ids[..k] && counted && rows[i].attempts >= maxAttempts
  {
    if k > 0 {
      ExhaustedAre(rows, ids, counted, maxAttempts, k - 1, i);
      assert ids[..k] == ids[..k - 1] + [ids[k - 1]];
    }
  }

  lemma BatchRow(s: Sys, w: nat, i: nat)
    requires Inv(s) && w in s.workers && i in s.workers[w].ids
    ensures i < |s.rows| && StageOk(s, s.workers[w], i)
    ensures s.rows[i].status == Inflight || s.rows[i].status == Published || s.workers[w].stage.Drain?
  {
    var k := s.workers[w];
    assert HeldOk(s, k);
  }

  /** A counted retry dead-letters exactly the rows tried `maxAttempts` times and keeps the
      others as they are; one that does not count dead-letters nothing. */
  lemma RetryDeadLettersIff(s: Sys, w: nat, due: int, maxAttempts: nat, i: nat)
    requires Inv(s) && w in s.workers && s.workers[w].stage.Retry? && i in s.workers[w].ids
    ensures i < |s.rows|
    ensures var t := AfterWrite(s, w, due, maxAttempts);
      && |t.rows| == |s.rows|
      && (t.rows[i].status == Failed <==> s.workers[w].stage.counted && s.rows[i].attempts >= maxAttempts)
      && t.rows[i] == s.rows[i].(status := t.rows[i].status)
      && w in t.workers && t.workers[w].stage == ReleaseBatch(s.workers[w].stage.kept)
      && (i in t.workers[w].ids <==> t.rows[i].status != Failed)
      && (t.rows[i].status != Failed ==> t.rows[i] == s.rows[i])
  {
    var k := s.workers[w];
    BatchRow(s, w, i);
    ExhaustedAre(s.rows, k.ids, k.stage.counted, maxAttempts, |k.ids|, i);
    assert k.ids[..|k.ids|] == k.ids;
    var gone := Exhausted(s.rows, k.ids, k.stage.counted, maxAttempts, |k.ids|);
    HeldParts(k);
    KeepAll(k.ids, set j | j in gone);
  }

  /** What is left of a batch becomes pending, due at the given time, with the new hash or
      the one it had. */
  lemma ReleaseReturns(s: Sys, w: nat, due: int, maxAttempts: nat, i: nat)
    requires w in s.workers && s.workers[w].stage.ReleaseBatch? && i < |s.rows|
    ensures var k, t := s.workers[w], AfterWrite(s, w, due, maxAttempts);
      && |t.rows| == |s.rows|
      && t.rows[i] ==
           if i !in k.ids then s.rows[i]
           else s.rows[i].(status := Pending, nextAttemptAt := due,
                           hash := if k.stage.kept.Some? then k.stage.kept else s.rows[i].hash)
  {
  }

  /** A retry, from dead-lettering to releasing. */
  function GiveBack(s: Sys, w: nat, first: int, due: int, maxAttempts: nat): Sys
    requires w in s.workers && s.workers[w].stage.Retry?
  {
    AfterWrite(AfterWrite(s, w, first, maxAttempts), w, due, maxAttempts)
  }

  lemma GivenBack(s: Sys, w: nat, first: int, due: int, maxAttempts: nat, i: nat)
    requires Inv(s) && w in s.workers && s.workers[w].stage.Retry? && i in s.workers[w].ids
    ensures i < |s.rows|
    ensures var stage, t := s.workers[w].stage, GiveBack(s, w, first, due, maxAttempts);
      && |t.rows| == |s.rows|
      && t.rows[i] ==
           if stage.counted && s.rows[i].attempts >= maxAttempts then s.rows[i].(status := Failed)
           else s.rows[i].(status := Pending, nextAttemptAt := due,
                           hash := if stage.kept.Some? then stage.kept else s.rows[i].hash)
  {
    RetryDeadLettersIff(s, w, first, maxAttempts, i);
    ReleaseReturns(AfterWrite(s, w, first, maxAttempts), w, due, maxAttempts, i);
  }

  // ---------------------------------------------------------------------------
  // How each answer ends
  // ---------------------------------------------------------------------------

  /** A submission that failed or whose outcome is unknown: rows out of attempts fail, the
      others go back to the queue, with the hash if there is one. */
  lemma FailedSubmission(s: Sys, w: nat, outcome: Outcome, first: int, due: int, maxAttempts: nat, i: nat)
    requires Inv(s) && w in s.workers && s.workers[w].stage.Submit? && i in s.workers[w].ids
    requires outcome.OtherError? || (outcome.Ambiguous? && outcome.hash !in s.txs)
    ensures i < |s.rows| && AfterAnswer(s, w, outcome).workers[w].stage.Retry?
    ensures var t := GiveBack(AfterAnswer(s, w, outcome), w, first, due, maxAttempts);
      && |t.rows| == |s.rows|
      && t.rows[i] ==
           if s.rows[i].attempts >= maxAttempts then s.rows[i].(status := Failed)
           else s.rows[i].(status := Pending, nextAttemptAt := due,
                           hash := if outcome.Ambiguous? then Some(outcome.hash) else s.rows[i].hash)
  {
    AnswerKeepsInv(s, w, outcome);
    BatchRow(s, w, i);
    GivenBack(AfterAnswer(s, w, outcome), w, first, due, maxAttempts, i);
  }

  /** A lookup that fails counts as an attempt; one that finds the transaction undecided does
      not, so nothing is dead-lettered and the batch waits. */
  lemma DeferringLookup(s: Sys, w: nat, fails: bool, first: int, due: int, maxAttempts: nat, i: nat)
    requires Inv(s) && w in s.workers && s.workers[w].stage.Reconcile? && i in s.workers[w].ids
    requires var todo := s.workers[w].stage.todo;
      todo != [] && (fails || (todo[0] in s.txs && s.txs[todo[0]].status == Unsettled))
    ensures i < |s.rows| && AfterLookup(s, w, fails).workers[w].stage.Retry?
    ensures var t := GiveBack(AfterLookup(s, w, fails), w, first, due, maxAttempts);
      && |t.rows| == |s.rows|
      && t.rows[i] ==
           if fails && s.rows[i].attempts >= maxAttempts then s.rows[i].(status := Failed)
           else s.rows[i].(status := Pending, nextAttemptAt := due)
  {
    LookupKeepsInv(s, w, fails);
    BatchRow(s, w, i);
    GivenBack(AfterLookup(s, w, fails), w, first, due, maxAttempts, i);
  }

  lemma {:induction false} CarryingAre(rows: Rows, ids: seq<nat>, hash: Hash, k: nat, i: nat)
    requires k <= |ids| && i < |rows|
    ensures i in Carrying(rows, ids, hash, k) <==> i in ids[..k] && rows[i].hash == Some(hash)
  {
    if k > 0 {
      CarryingAre(rows, ids, hash, k - 1, i);
      assert ids[..k] == ids[..k - 1] + [ids[k - 1]];
    }
  }

  /** A lookup that finds the transaction applied publishes exactly the rows of the batch
      that carry its hash, and these are not submitted again. */
  lemma ApplyingLookup(s: Sys, w: nat, i: nat)
    requires Inv(s) && w in s.workers && s.workers[w].stage.Reconcile? && i < |s.rows|
    requires var todo := s.workers[w].stage.todo;
      todo != [] && todo[0] in s.txs && s.txs[todo[0]].status == Applied
    ensures var k, t := s.workers[w], AfterLookup(s, w, false);
      var hit := i in k.ids && s.rows[i].hash == Some(k.stage.todo[0]);
      && |t.rows| == |s.rows| && t.rows[i] == (if hit then s.rows[i].(status := Published) else s.rows[i])
      && t.workers[w].stage.Reconcile? && t.workers[w].stage.todo == k.stage.todo[1..]
      && (i in t.workers[w].stage.done <==> i in k.stage.done || hit)
  {
    var k := s.workers[w];
    CarryingAre(s.rows, k.ids, k.stage.todo[0], |k.ids|, i);
    assert k.ids[..|k.ids|] == k.ids;
  }

  /** A lookup that finds the transaction rejected goes on to the next hash and changes no row. */
  lemma RejectingLookup(s: Sys, w: nat)
    requires w in s.workers && s.workers[w].stage.Reconcile?
    requires var todo := s.workers[w].stage.todo;
      todo != [] && (todo[0] !in s.txs || s.txs[todo[0]].status == Rejected)
    ensures var k, t := s.workers[w], AfterLookup(s, w, false);
      t.rows == s.rows && w in t.workers && t.workers[w] == k.(stage := Reconcile(k.stage.todo[1..], k.stage.done))
  {
  }

  /** With every hash looked up, the rows not found on chain are submitted, in order; when
      there are none the worker goes on with what is left. */
  lemma ReconcilingEnds(s: Sys, w: nat, fails: bool, i: nat)
    requires w in s.workers && s.workers[w].stage.Reconcile? && s.workers[w].stage.todo == [] && Ascending(s.workers[w].ids)
    ensures var k, t := s.workers[w], AfterLookup(s, w, fails);
      && t.rows == s.rows
      && (if forall j: nat :: j in k.ids ==> j in k.stage.done then k.rest == [] ==> w !in t.workers
          else && w in t.workers && t.workers[w].stage.Submit? && t.workers[w].rest == k.rest && Ascending(t.workers[w].ids)
               && (i in t.workers[w].ids <==> i in k.ids && i !in k.stage.done))
  {
    var k := s.workers[w];
    KeepAll(k.ids, k.stage.done);
    var left := Keep(k.ids, k.stage.done, |k.ids|);
    if left != [] {
      assert left[0] in left;
    }
    if j: nat :| j in k.ids && j !in k.stage.done {
      assert j in left;
    }
  }

  /** When an earlier half did not confirm, the next segment goes back untouched: pending, due
      at the given time, with its hash. */
  lemma DrainReturns(s: Sys, w: nat, due: int, maxAttempts: nat, i: nat)
    requires w in s.workers && s.workers[w].stage.Drain? && s.workers[w].rest != [] && i < |s.rows|
    ensures var k, t := s.workers[w], AfterWrite(s, w, due, maxAttempts);
      && |t.rows| == |s.rows| && w in t.workers && t.workers[w] == k.(rest := k.rest[1..])
      && t.rows[i] == if i in k.rest[0].ids then s.rows[i].(status := Pending, nextAttemptAt := due) else s.rows[i]
  {
  }

  /** A confirmed submission publishes its rows under its hash. */
  lemma ConfirmedSubmission(s: Sys, w: nat, hash: Hash, due: int, maxAttempts: nat, i: nat)
    requires w in s.workers && s.workers[w].stage.Submit? && i < |s.rows|
    ensures AfterAnswer(s, w, Confirmed(hash)).workers[w].stage.Confirm?
    ensures var t := AfterWrite(AfterAnswer(s, w, Confirmed(hash)), w, due, maxAttempts);
      && |t.rows| == |s.rows| && t.chain == s.chain + s.workers[w].ids
      && t.rows[i] == if i in s.workers[w].ids then s.rows[i].(status := Published, hash := Some(hash)) else s.rows[i]
  {
  }

  /** A row too large on its own fails at once, whatever its attempts. */
  lemma TooLargeAlone(s: Sys, w: nat, due: int, maxAttempts: nat, i: nat)
    requires w in s.workers && s.workers[w].stage.Submit? && |s.workers[w].ids| == 1 && i < |s.rows|
    ensures AfterAnswer(s, w, TooLarge).workers[w].stage.DeadLetter?
    ensures var t := AfterWrite(AfterAnswer(s, w, TooLarge), w, due, maxAttempts);
      |t.rows| == |s.rows| && t.rows[i] == if i == s.workers[w].ids[0] then s.rows[i].(status := Failed) else s.rows[i]
  {
  }

  /** A larger batch is cut in the middle, the first half being the longer if any, and the
      second waits for the first. */
  lemma TooLargeSplits(s: Sys, w: nat)
    requires w in s.workers && s.workers[w].stage.Submit? && |s.workers[w].ids| > 1
    ensures var k, t := s.workers[w], AfterAnswer(s, w, TooLarge);
      && t.rows == s.rows && w in t.workers && t.workers[w].stage == Submit(false) && t.workers[w].rest != []
      && t.workers[w].ids + t.workers[w].rest[0].ids == k.ids && t.workers[w].rest[1..] == k.rest
      && 0 <= |t.workers[w].ids| - |t.workers[w].rest[0].ids| <= 1
      && t.workers[w].rest[0].top == k.stage.top
  {
  }

  // ---------------------------------------------------------------------------
  // Attempts are claims
  // ---------------------------------------------------------------------------

  ghost predicate Takes(s: Sys, step: Step, i: nat) {
    step.ClaimRows? && i in Claim(s.rows, step.limit, step.cap, step.exclude, step.now)
  }

  /** How many claims of the run take row `i`. */
  ghost function ClaimsOf(s: Sys, steps: seq<Step>, maxAttempts: nat, i: nat): nat
    decreases |steps|
  {
    if steps == [] || !Enabled(s, steps[0]) then 0
    else (if Takes(s, steps[0], i) then 1 else 0) + ClaimsOf(Apply(s, steps[0], maxAttempts), steps[1..], maxAttempts, i)
  }

  function Attempts(s: Sys, i: nat): nat {
    if i < |s.rows| then s.rows[i].attempts else 0
  }

  lemma StepCountsClaims(s: Sys, step: Step, maxAttempts: nat, i: nat)
    requires Enabled(s, step)
    ensures Attempts(Apply(s, step, maxAttempts), i) == Attempts(s, i) + if Takes(s, step, i) then 1 else 0
  {
    if step.ClaimRows? {
      ClaimTakesPrefixes(s.rows, step.limit, step.cap, step.exclude, step.now);
    }
  }

  lemma {:induction false} RunCountsClaims(s: Sys, steps: seq<Step>, t: Sys, maxAttempts: nat, i: nat)
    requires Run(s, steps, t, maxAttempts)
    ensures Attempts(t, i) == Attempts(s, i) + ClaimsOf(s, steps, maxAttempts, i)
    decreases |steps|
  {
    if steps != [] {
      StepCountsClaims(s, steps[0], maxAttempts, i);
      RunCountsClaims(Apply(s, steps[0], maxAttempts), steps[1..], t, maxAttempts, i);
    }
  }

  /** In every run a row's attempts are the claims that took it. */
  lemma AttemptsAreClaims(steps: seq<Step>, t: Sys, maxAttempts: nat, i: nat)
    requires Run(Start, steps, t, maxAttempts) && i < |t.rows|
    ensures t.rows[i].attempts == ClaimsOf(Start, steps, maxAttempts, i)
  {
    RunCountsClaims(Start, steps, t, maxAttempts, i);
  }

  // ---------------------------------------------------------------------------
  // Why a row fails
  // ---------------------------------------------------------------------------

  /** The row the chain refuses as too large on its own in this step. */
  ghost function RefusedNow(s: Sys, step: Step): set<nat>
    requires Enabled(s, step)
  {
    if step.Answer? && step.outcome.TooLarge? && |s.workers[step.w].ids| == 1 then {s.workers[step.w].ids[0]} else {}
  }

  ghost function Refused(s: Sys, steps: seq<Step>, maxAttempts: nat): set<nat>
    decreases |steps|
  {
    if steps == [] || !Enabled(s, steps[0]) then {}
    else RefusedNow(s, steps[0]) + Refused(Apply(s, steps[0], maxAttempts), steps[1..], maxAttempts)
  }

  predicate HasReason(s: Sys, refused: set<nat>, maxAttempts: nat, i: nat) {
    HasStatus(s, i, Failed) ==> i in refused || s.rows[i].attempts >= maxAttempts
  }

  predicate Doomed(s: Sys, refused: set<nat>, w: nat) {
    w in s.workers && s.workers[w].stage.DeadLetter? ==> forall i: nat :: i in s.workers[w].ids ==> i in refused
  }

  ghost predicate Reasons(s: Sys, refused: set<nat>, maxAttempts: nat) {
    (forall i: nat :: HasReason(s, refused, maxAttempts, i)) && forall w: nat :: Doomed(s, refused, w)
  }

  /** A row fails only in a write of a worker that dead-letters it. */
  lemma FailsInWrite(s: Sys, step: Step, maxAttempts: nat, i: nat)
    requires Enabled(s, step) && HasStatus(Apply(s, step, maxAttempts), i, Failed) && !HasStatus(s, i, Failed)
    ensures step.Write? && i < |s.rows|
    ensures var k := s.workers[step.w];
      || (k.stage.DeadLetter? && i in k.ids)
      || (k.stage.Retry? && i in Exhausted(s.rows, k.ids, k.stage.counted, maxAttempts, |k.ids|))
  {
  }

  lemma StepHasReason(s: Sys, step: Step, maxAttempts: nat, refused: set<nat>, i: nat)
    requires Enabled(s, step) && Reasons(s, refused, maxAttempts)
    ensures HasReason(Apply(s, step, maxAttempts), refused + RefusedNow(s, step), maxAttempts, i)
  {
    var t := Apply(s, step, maxAttempts);
    assert HasReason(s, refused, maxAttempts, i);
    StepCountsClaims(s, step, maxAttempts, i);
    if HasStatus(t, i, Failed) && !HasStatus(s, i, Failed) {
      FailsInWrite(s, step, maxAttempts, i);
      var k := s.workers[step.w];
      assert Doomed(s, refused, step.w);
      if k.stage.Retry? {
        ExhaustedAre(s.rows, k.ids, k.stage.counted, maxAttempts, |k.ids|, i);
      }
    }
  }

  /** A worker comes to dead-letter a row only when the chain refuses it alone. */
  lemma OwnStepDooms(s: Sys, step: Step, maxAttempts: nat, w: nat)
    requires Enabled(s, step) && IsStepOf(step, w)
    requires var t := Apply(s, step, maxAttempts); w in t.workers && t.workers[w].stage.DeadLetter?
    ensures step.Answer? && step.outcome.TooLarge? && |s.workers[w].ids| <= 1
    ensures Apply(s, step, maxAttempts).workers[w].ids == s.workers[w].ids
  {
  }

  lemma StepKeepsDoomed(s: Sys, step: Step, maxAttempts: nat, refused: set<nat>, w: nat)
    requires Enabled(s, step) && Doomed(s, refused, w)
    ensures Doomed(Apply(s, step, maxAttempts), refused + RefusedNow(s, step), w)
  {
    var t := Apply(s, step, maxAttempts);
    if w in t.workers && t.workers[w].stage.DeadLetter? {
      if IsStepOf(step, w) {
        OwnStepDooms(s, step, maxAttempts, w);
      } else if step.ClaimRows? && step.w == w {
      } else {
        OtherStepsLeaveIt(s, step, w, maxAttempts);
      }
    }
  }

  lemma {:induction false} RunKeepsReasons(s: Sys, steps: seq<Step>, t: Sys, maxAttempts: nat, refused: set<nat>)
    requires Inv(s) && Reasons(s, refused, maxAttempts) && Run(s, steps, t, maxAttempts)
    ensures Reasons(t, refused + Refused(s, steps, maxAttempts), maxAttempts)
    decreases |steps|
  {
    if steps == [] {
      assert refused + {} == refused;
    } else {
      var next, more := Apply(s, steps[0], maxAttempts), refused + RefusedNow(s, steps[0]);
      forall i: nat
        ensures HasReason(next, more, maxAttempts, i)
      {
        StepHasReason(s, steps[0], maxAttempts, refused, i);
      }
      forall w: nat
        ensures Doomed(next, more, w)
      {
        StepKeepsDoomed(s, steps[0], maxAttempts, refused, w);
      }
      StepKeepsInv(s, steps[0], maxAttempts);
      RunKeepsReasons(next, steps[1..], t, maxAttempts, more);
      assert more + Refused(next, steps[1..], maxAttempts) == refused + Refused(s, steps, maxAttempts);
    }
  }

  /** In every run a row fails only if the chain refused it as too large on its own or at
      least `maxAttempts` claims took it. */
  lemma FailsForAReason(steps: seq<Step>, t: Sys, maxAttempts: nat, i: nat)
    requires Run(Start, steps, t, maxAttempts) && HasStatus(t, i, Failed)
    ensures i in Refused(Start, steps, maxAttempts) || ClaimsOf(Start, steps, maxAttempts, i) >= maxAttempts
  {
    StartIsOk();
    RunKeepsReasons(Start, steps, t, maxAttempts, {});
    assert {} + Refused(Start, steps, maxAttempts) == Refused(Start, steps, maxAttempts);
    assert HasReason(t, Refused(Start, steps, maxAttempts), maxAttempts, i);
    AttemptsAreClaims(steps, t, maxAttempts, i);
  }

  // ---------------------------------------------------------------------------
  // Decisions are queued once
  // ---------------------------------------------------------------------------

  ghost predicate KeysDiffer(rows: Rows) {
    forall i, j :: 0 <= i < j < |rows| ==> rows[i].key != rows[j].key
  }

  ghost predicate SameKeys(a: Rows, b: Rows) {
    |a| == |b| && forall i :: 0 <= i < |a| ==> a[i].key == b[i].key
  }

  lemma StepKeepsKeys(s: Sys, step: Step, maxAttempts: nat)
    requires Enabled(s, step) && KeysDiffer(s.rows)
    ensures KeysDiffer(Apply(s, step, maxAttempts).rows)
  {
    assert !step.EnqueueRow? ==> SameKeys(s.rows, Apply(s, step, maxAttempts).rows);
  }

  /** In every run no two rows have one decision key. */
  lemma {:induction false} KeysStayDifferent(s: Sys, steps: seq<Step>, t: Sys, maxAttempts: nat)
    requires KeysDiffer(s.rows) && Run(s, steps, t, maxAttempts)
    ensures KeysDiffer(t.rows)
    decreases |steps|
  {
    if steps != [] {
      StepKeepsKeys(s, steps[0], maxAttempts);
      KeysStayDifferent(Apply(s, steps[0], maxAttempts), steps[1..], t, maxAttempts);
    }
  }
}
