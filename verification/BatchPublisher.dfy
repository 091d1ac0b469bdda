/**
 The publisher's recursive methods, run by one worker without interruption.

 Each statement that touches the queue or the chain is one step of the
 `Publisher` machine, and `trail` records the steps taken. The mutual recursion
 is the source's: `Process` reconciles and submits, `ProcessSplit` and
 `PublishOrRelease` halve a batch the chain refuses, and each call works on a
 strictly shorter batch.
 */
module BatchPublisher {
  import opened Wrappers
  import opened PublishQueue
  import opened Publisher

  /** Nobody holds a row it did not hold before. */
  ghost predicate OnlyLetsGo(s: Sys, t: Sys) {
    |s.rows| == |t.rows| && forall v: nat, i: nat :: HoldsRow(t, v, i) ==> HoldsRow(s, v, i)
  }

  lemma OwnStepLetsGo(s: Sys, step: Step, w: nat, maxAttempts: nat)
    requires Inv(s) && Enabled(s, step) && IsStepOf(step, w)
    ensures OnlyLetsGo(s, Apply(s, step, maxAttempts))
  {
    match step
    case Lookup(_, fails) => LookupKeepsInv(s, w, fails);
    case Answer(_, outcome) => AnswerKeepsInv(s, w, outcome);
    case Write(_, due) => WriteKeepsInv(s, w, due, maxAttempts);
  }

  lemma {:induction false} RunExtends(s: Sys, steps: seq<Step>, m: Sys, step: Step, maxAttempts: nat)
    requires Run(s, steps, m, maxAttempts) && Enabled(m, step)
    ensures Run(s, steps + [step], Apply(m, step, maxAttempts), maxAttempts)
    decreases |steps|
  {
    if steps == [] {
      assert (steps + [step])[1..] == [];
    } else {
      assert (steps + [step])[0] == steps[0] && (steps + [step])[1..] == steps[1..] + [step];
      RunExtends(Apply(s, steps[0], maxAttempts), steps[1..], m, step, maxAttempts);
    }
  }

  /** A batch all of whose rows have left flight. */
  ghost predicate Landed(s: Sys, ids: seq<nat>) {
    forall i: nat :: i in ids ==> HasStatus(s, i, Pending) || HasStatus(s, i, Published) || HasStatus(s, i, Failed)
  }

  lemma LetGoHasLanded(s: Sys, t: Sys, w: nat)
    requires Inv(s) && Inv(t) && OnlyLetsGo(s, t) && w in s.workers && w !in t.workers
    ensures Landed(t, Held(s.workers[w]))
  {
    forall i: nat | i in Held(s.workers[w])
      ensures !HasStatus(t, i, Inflight) && i < |t.rows|
    {
      assert HoldsRow(s, w, i);
      HeldInTable(s, w, i);
      assert RowOk(t, i);
      forall v: nat
        ensures !HoldsRow(t, v, i)
      {
        assert SameFeed(s, i, i);
        assert HoldsRow(t, v, i) ==> HoldsRow(s, v, i);
      }
    }
  }

  /** Where the submitter's answer takes a worker. */
  function Answered(k: Worker, outcome: Outcome): Worker
    requires k.stage.Submit?
  {
    match outcome
    case Confirmed(h) => k.(stage := Confirm(h))
    case TooLarge => if |k.ids| > 1 then Split(k.ids, k.stage.top, k.rest) else k.(stage := DeadLetter)
    case Ambiguous(h) => k.(stage := Retry(true, Some(h)))
    case OtherError => k.(stage := Retry(true, None))
  }

  /** Where a committed queue write takes a worker. */
  ghost predicate Written(s: Sys, t: Sys, w: nat) {
    && w in s.workers
    && var k := s.workers[w];
       match k.stage
       case Retry(_, _) => w in t.workers && t.workers[w].stage.ReleaseBatch? && t.workers[w].rest == k.rest
       case ReleaseBatch(_) => w in t.workers && t.workers[w] == Worker(Drain, [], k.rest)
       case Drain =>
         if k.rest == [] then w !in t.workers else w in t.workers && t.workers[w] == Worker(Drain, k.ids, k.rest[1..])
       case _ => Goes(t, w, Continue(t.rows, k.rest))
  }

  ghost predicate Goes(t: Sys, w: nat, next: Option<Worker>) {
    if next.Some? then w in t.workers && t.workers[w] == next.value else w !in t.workers
  }

  /** A worker whose batch of at most `n` rows is reconciled: ready to submit or to retry. */
  predicate Reconciled(k: Worker, n: nat) {
    (k.stage == Submit(true) || k.stage.Retry?) && k.rest == [] && |k.ids| <= n
  }

  /** One hash fewer to look up, or done. */
  predicate LookedUp(k: Worker, l: Worker)
    requires k.stage.Reconcile?
  {
    && k.rest == []
    && if l.stage.Reconcile? then |l.stage.todo| < |k.stage.todo| && l.rest == [] && l.ids == k.ids
       else Reconciled(l, |k.ids|)
  }

  lemma LookupMoves(s: Sys, w: nat, fails: bool)
    requires w in s.workers && s.workers[w].stage.Reconcile? && HeldOk(s, s.workers[w])
    ensures var t := AfterLookup(s, w, fails); w in t.workers ==> LookedUp(s.workers[w], t.workers[w])
  {
    var k := s.workers[w];
    KeepShrinks(k.ids, k.stage.done, |k.ids|);
  }

  class OracleBatchPublisher {
    const maxAttempts: nat
    /** The queue rows, the chain and the worker. */
    var sys: Sys
    /** What the submitter answers, and whether lookups fail, in turn. */
    var answers: seq<Outcome>
    var lookupFails: seq<bool>
    ghost const origin: Sys
    ghost var trail: seq<Step>

    /** The present state is reached from the first one by the recorded steps. */
    ghost predicate Valid()
      reads this
    {
      Inv(origin) && Run(origin, trail, sys, maxAttempts) && Inv(sys)
    }

    constructor (start: Sys, answers: seq<Outcome>, lookupFails: seq<bool>, maxAttempts: nat)
      requires Inv(start)
      ensures Valid() && sys == start
    {
      this.maxAttempts, this.sys, this.answers, this.lookupFails := maxAttempts, start, answers, lookupFails;
      origin, trail := start, [];
    }

    /** One committed step of worker `w`. */
    method Take(w: nat, step: Step, ghost before: Sys)
      requires Valid() && Enabled(sys, step) && IsStepOf(step, w) && OnlyLetsGo(before, sys)
      modifies this`sys, this`trail
      ensures Valid() && sys == Apply(old(sys), step, maxAttempts) && OnlyLetsGo(before, sys)
    {
      RunExtends(origin, trail, sys, step, maxAttempts);
      StepKeepsInv(sys, step, maxAttempts);
      OwnStepLetsGo(sys, step, w, maxAttempts);
      trail := trail + [step];
      match step
      case Lookup(_, fails) => sys := AfterLookup(sys, w, fails);
      case Answer(_, outcome) => sys := AfterAnswer(sys, w, outcome);
      case Write(_, due) => sys := AfterWrite(sys, w, due, maxAttempts);
    }

    /** The submitter's next answer; a hash that is not new is read as an error. */
    method NextAnswer() returns (outcome: Outcome)
      modifies this`answers
      ensures outcome.Confirmed? ==> outcome.hash !in sys.txs
      ensures outcome.Ambiguous? ==> outcome.hash !in sys.txs
    {
      if answers == [] {
        return OtherError;
      }
      outcome := answers[0];
      answers := answers[1..];
      if (outcome.Confirmed? && outcome.hash in sys.txs) || (outcome.Ambiguous? && outcome.hash in sys.txs) {
        outcome := OtherError;
      }
    }

    method SubmitBatch(w: nat, ghost before: Sys) returns (outcome: Outcome)
      requires Valid() && w in sys.workers && sys.workers[w].stage.Submit? && OnlyLetsGo(before, sys)
      modifies this
      ensures Valid() && OnlyLetsGo(before, sys)
      ensures w in sys.workers && sys.workers[w] == Answered(old(sys).workers[w], outcome)
    {
      outcome := NextAnswer();
      Take(w, Answer(w, outcome), before);
    }

    method Commit(w: nat, due: int, ghost before: Sys)
      requires Valid() && Enabled(sys, Write(w, due)) && OnlyLetsGo(before, sys)
      modifies this
      ensures Valid() && OnlyLetsGo(before, sys) && Written(old(sys), sys, w)
    {
      Take(w, Write(w, due), before);
    }

    method LookupNext(w: nat, ghost before: Sys)
      requires Valid() && w in sys.workers && sys.workers[w].stage.Reconcile? && OnlyLetsGo(before, sys)
      modifies this
      ensures Valid() && OnlyLetsGo(before, sys)
      ensures w in sys.workers ==> LookedUp(old(sys).workers[w], sys.workers[w])
    {
      var fails := lookupFails != [] && lookupFails[0];
      if lookupFails != [] {
        lookupFails := lookupFails[1..];
      }
      LookupMoves(sys, w, fails);
      Take(w, Lookup(w, fails), before);
    }

    /** Checks the batch's hashes until it is ready to submit, deferred or done. */
    method ReconcileBatch(w: nat, ghost before: Sys)
      requires Valid() && w in sys.workers && sys.workers[w].stage.Reconcile? && OnlyLetsGo(before, sys)
      modifies this
      ensures Valid() && OnlyLetsGo(before, sys)
      ensures w in sys.workers ==> Reconciled(sys.workers[w], |old(sys).workers[w].ids|)
    {
      assert HeldOk(sys, sys.workers[w]);
      while w in sys.workers && sys.workers[w].stage.Reconcile?
        invariant Valid() && OnlyLetsGo(before, sys)
        invariant w in sys.workers && !sys.workers[w].stage.Reconcile? ==>
                    Reconciled(sys.workers[w], |old(sys).workers[w].ids|)
        invariant w in sys.workers && sys.workers[w].stage.Reconcile? ==> sys.workers[w].rest == []
        invariant w in sys.workers ==> |sys.workers[w].ids| <= |old(sys).workers[w].ids|
        decreases if w in sys.workers && sys.workers[w].stage.Reconcile? then |sys.workers[w].stage.todo| + 1 else 0
      {
        LookupNext(w, before);
      }
    }

    /** Dead-letters the exhausted rows of the batch and releases the others. */
    method RetryLater(w: nat, due: int, ghost before: Sys)
      requires Valid() && w in sys.workers && sys.workers[w].stage.Retry? && OnlyLetsGo(before, sys)
      modifies this
      ensures Valid() && OnlyLetsGo(before, sys)
      ensures w in sys.workers && sys.workers[w] == Worker(Drain, [], old(sys).workers[w].rest)
    {
      Commit(w, due, before);
      Commit(w, due, before);
    }

    /** Publishes the batch, halving it as often as the chain asks; true if nothing was deferred. */
    method PublishOrRelease(w: nat, due: int, ghost n: nat, ghost before: Sys) returns (published: bool)
      requires Valid() && w in sys.workers && sys.workers[w].stage == Submit(false) && OnlyLetsGo(before, sys)
      requires n == |sys.workers[w].ids|
      modifies this
      ensures Valid() && OnlyLetsGo(before, sys)
      ensures Goes(sys, w,
                   if published then Continue(sys.rows, old(sys).workers[w].rest)
                   else Some(Worker(Drain, [], old(sys).workers[w].rest)))
      decreases n
    {
      ghost var k := sys.workers[w];
      var size := |sys.workers[w].ids|;
      var outcome := SubmitBatch(w, before);
      if outcome.TooLarge? && size > 1 {
        var half := Half(size);
        ghost var split := sys.workers[w];
        assert split.rest[0] == Segment(k.ids[half..], false) && split.rest[1..] == k.rest;
        published := PublishOrRelease(w, due, half, before);
        if published {
          published := PublishOrRelease(w, due, size - half, before);
        } else {
          Commit(w, due, before);
        }
      } else if outcome.TooLarge? || outcome.Confirmed? {
        Commit(w, due, before);
        published := true;
      } else {
        RetryLater(w, due, before);
        published := false;
      }
    }

    /** Publishes the first half, then processes the second or gives it back. */
    method ProcessSplit(w: nat, due: int, ghost n: nat, ghost before: Sys)
      requires Valid() && w in sys.workers && sys.workers[w].stage == Submit(false) && OnlyLetsGo(before, sys)
      requires |sys.workers[w].rest| == 1 && sys.workers[w].rest[0].top && sys.workers[w].ids != []
      requires n == |sys.workers[w].ids| + |sys.workers[w].rest[0].ids|
      modifies this
      ensures Valid() && OnlyLetsGo(before, sys) && w !in sys.workers
      decreases n, 0
    {
      ghost var k := sys.workers[w];
      assert k.rest[1..] == [];
      var published := PublishOrRelease(w, due, |k.ids|, before);
      if published {
        ProcessBatch(w, due, |k.rest[0].ids|, before);
      } else {
        Commit(w, due, before);
        Commit(w, due, before);
      }
    }

    /** Reconciles a batch, then submits what is left of it. */
    method ProcessBatch(w: nat, due: int, ghost n: nat, ghost before: Sys)
      requires Valid() && w in sys.workers && sys.workers[w].stage.Reconcile? && OnlyLetsGo(before, sys)
      requires n == |sys.workers[w].ids|
      modifies this
      ensures Valid() && OnlyLetsGo(before, sys) && w !in sys.workers
      decreases n, 1
    {
      ReconcileBatch(w, before);
      if w !in sys.workers {
        return;
      }
      if sys.workers[w].stage.Retry? {
        RetryLater(w, due, before);
        Commit(w, due, before);
        return;
      }
      var size := |sys.workers[w].ids|;
      var outcome := SubmitBatch(w, before);
      if outcome.TooLarge? && size > 1 {
        ProcessSplit(w, due, size, before);
      } else if outcome.TooLarge? || outcome.Confirmed? {
        Commit(w, due, before);
      } else {
        RetryLater(w, due, before);
        Commit(w, due, before);
      }
    }

    /** Publishes a claimed batch. Whatever the chain answers, the worker finishes and
        every row of the batch is published, pending or failed. */
    method Process(w: nat, due: int)
      requires Valid() && w in sys.workers && sys.workers[w].stage.Reconcile?
      modifies this
      ensures Valid() && w !in sys.workers && OnlyLetsGo(old(sys), sys)
      ensures Landed(sys, Held(old(sys).workers[w]))
    {
      ghost var before := sys;
      ProcessBatch(w, due, |sys.workers[w].ids|, before);
      LetGoHasLanded(before, sys, w);
    }
  }
}
