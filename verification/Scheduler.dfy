/**
 The publisher's scheduling pass: claiming batches into free in-flight slots while
 keeping the feeds of running batches out of every claim.

 Before every claim any other steps of the `Publisher` machine may happen. What is shown
 is that the set of feeds in flight always covers the feeds of all running batches,
 so that every claim the pass makes is a step of the machine.
 */
module Scheduler {
  import opened PublishQueue
  import opened Publisher
  import opened BatchPublisher

  function FeedsOf(rows: Rows, ids: seq<nat>, k: nat): set<string>
    requires k <= |ids|
  {
    if k == 0 then {}
    else FeedsOf(rows, ids, k - 1) + if ids[k - 1] < |rows| then {rows[ids[k - 1]].feed} else {}
  }

  lemma {:induction false} FeedsOfAre(rows: Rows, ids: seq<nat>, k: nat)
    requires k <= |ids|
    ensures forall f: string :: f in FeedsOf(rows, ids, k) <==> FeedOf(rows, ids[..k], f)
  {
    if k == 0 {
      assert ids[..0] == [];
    } else {
      FeedsOfAre(rows, ids, k - 1);
      assert ids[..k] == ids[..k - 1] + [ids[k - 1]];
    }
  }

  /** The feeds of worker `w` are among those registered for its run. */
  ghost predicate Registered(s: Sys, runs: map<nat, set<string>>, w: nat) {
    w in s.workers ==> w in runs && forall f: string :: FeedOf(s.rows, Held(s.workers[w]), f) ==> f in runs[w]
  }

  ghost predicate Taken(runs: map<nat, set<string>>, f: string) {
    exists w: nat :: w in runs && f in runs[w]
  }

  /** Runs share no feed, and `busy` is the union of their feeds. */
  ghost predicate Partition(runs: map<nat, set<string>>, busy: set<string>) {
    && (forall f: string :: f in busy <==> Taken(runs, f))
    && (forall v: nat, w: nat, f: string :: v in runs && w in runs && f in runs[v] && f in runs[w] ==> v == w)
  }

  ghost predicate Covered(s: Sys, runs: map<nat, set<string>>, busy: set<string>) {
    Partition(runs, busy) && forall w: nat :: Registered(s, runs, w)
  }

  lemma CoveredExcludes(s: Sys, runs: map<nat, set<string>>, busy: set<string>)
    requires Covered(s, runs, busy)
    ensures ExcludesBusyFeeds(s, busy)
  {
    forall w: nat, f: string | w in s.workers && FeedOf(s.rows, Held(s.workers[w]), f)
      ensures f in busy
    {
      assert Registered(s, runs, w);
      assert Taken(runs, f);
    }
  }

  /** Nobody comes to hold a row of a feed it did not hold before. */
  ghost predicate FeedsShrink(s: Sys, t: Sys) {
    forall w: nat, f: string :: w in t.workers && FeedOf(t.rows, Held(t.workers[w]), f) ==>
      w in s.workers && FeedOf(s.rows, Held(s.workers[w]), f)
  }

  lemma MovedShrinks(s: Sys, t: Sys, id: nat)
    requires Inv(s) && Moved(s, t, id)
    ensures FeedsShrink(s, t)
  {
    forall w: nat, f: string | w in t.workers && FeedOf(t.rows, Held(t.workers[w]), f)
      ensures w in s.workers && FeedOf(s.rows, Held(s.workers[w]), f)
    {
      var i: nat :| i in Held(t.workers[w]) && i < |t.rows| && t.rows[i].feed == f;
      assert HoldsRow(t, w, i) && HoldsRow(s, w, i);
    }
  }

  lemma TableGrowthShrinks(s: Sys, t: Sys)
    requires Inv(s) && t.workers == s.workers && s.rows <= t.rows
    ensures FeedsShrink(s, t)
  {
    forall w: nat, f: string | w in t.workers && FeedOf(t.rows, Held(t.workers[w]), f)
      ensures FeedOf(s.rows, Held(s.workers[w]), f)
    {
      var i: nat :| i in Held(t.workers[w]) && i < |t.rows| && t.rows[i].feed == f;
      assert HoldsRow(s, w, i);
      HeldInTable(s, w, i);
    }
  }

  lemma OtherStepsShrink(s: Sys, step: Step, maxAttempts: nat)
    requires Inv(s) && Enabled(s, step) && !step.ClaimRows?
    ensures FeedsShrink(s, Apply(s, step, maxAttempts))
  {
    match step
    case Lookup(w, fails) =>
      LookupKeepsInv(s, w, fails);
      MovedShrinks(s, Apply(s, step, maxAttempts), w);
    case Answer(w, outcome) =>
      AnswerKeepsInv(s, w, outcome);
      MovedShrinks(s, Apply(s, step, maxAttempts), w);
    case Write(w, due) =>
      WriteKeepsInv(s, w, due, maxAttempts);
      MovedShrinks(s, Apply(s, step, maxAttempts), w);
    case EnqueueRow(_, _, _, _, _) => TableGrowthShrinks(s, Apply(s, step, maxAttempts));
    case Settle(_, _) => TableGrowthShrinks(s, Apply(s, step, maxAttempts));
  }

  lemma ShrinkKeepsCovered(s: Sys, t: Sys, runs: map<nat, set<string>>, busy: set<string>)
    requires Covered(s, runs, busy) && FeedsShrink(s, t) && forall w: nat :: w in t.workers ==> w in s.workers
    ensures Covered(t, runs, busy)
  {
    forall w: nat
      ensures Registered(t, runs, w)
    {
      assert Registered(s, runs, w);
    }
  }

  lemma OtherStepsAddNoWorker(s: Sys, step: Step, maxAttempts: nat, w: nat)
    requires Enabled(s, step) && !step.ClaimRows? && w in Apply(s, step, maxAttempts).workers
    ensures w in s.workers
  {
    if !IsStepOf(step, w) {
      OtherStepsLeaveIt(s, step, w, maxAttempts);
    }
  }

  /** A finished run may be forgotten. */
  lemma ForgetKeepsCovered(s: Sys, runs: map<nat, set<string>>, busy: set<string>, w: nat)
    requires Covered(s, runs, busy) && w in runs && w !in s.workers
    ensures Covered(s, runs - {w}, busy - runs[w])
  {
    forall f: string
      ensures f in busy - runs[w] <==> Taken(runs - {w}, f)
    {
      if f in busy - runs[w] {
        var v: nat :| v in runs && f in runs[v];
        assert v in runs - {w};
      } else if v: nat :| v in runs - {w} && f in (runs - {w})[v] {
        assert f in runs[v] && Taken(runs, f);
      }
    }
    forall v: nat
      ensures Registered(s, runs - {w}, v)
    {
      assert Registered(s, runs, v);
    }
  }

  lemma NewRunPartitions(runs: map<nat, set<string>>, busy: set<string>, w: nat, feeds: set<string>)
    requires Partition(runs, busy) && w !in runs && forall f: string :: f in feeds ==> f !in busy
    ensures Partition(runs[w := feeds], busy + feeds)
  {
    var runs' := runs[w := feeds];
    forall f: string
      ensures f in busy + feeds <==> Taken(runs', f)
    {
      if f in feeds {
        assert w in runs' && f in runs'[w];
      } else if f in busy {
        var v: nat :| v in runs && f in runs[v];
        assert v in runs' && f in runs'[v];
      }
    }
    forall v: nat, u: nat, f: string | v in runs' && u in runs' && f in runs'[v] && f in runs'[u]
      ensures v == u
    {
      assert v != w ==> Taken(runs, f);
      assert u != w ==> Taken(runs, f);
    }
  }

  lemma ClaimedFeedsAreFree(rows: Rows, busy: set<string>, ids: seq<nat>)
    requires forall i: nat :: i in ids ==> i < |rows| && rows[i].feed !in busy
    ensures forall f: string :: f in FeedsOf(rows, ids, |ids|) <==> FeedOf(rows, ids, f)
    ensures forall f: string :: f in FeedsOf(rows, ids, |ids|) ==> f !in busy
  {
    FeedsOfAre(rows, ids, |ids|);
    assert ids[..|ids|] == ids;
  }

  /** A claim that leaves out the busy feeds may be registered. */
  lemma ClaimKeepsCovered(s: Sys, t: Sys, runs: map<nat, set<string>>, busy: set<string>, w: nat, ids: seq<nat>)
    requires Covered(s, runs, busy) && Claims(s, t, w, ids) && w !in runs
    requires forall i: nat :: i in ids ==> i < |s.rows| && s.rows[i].feed !in busy
    ensures var feeds := FeedsOf(s.rows, ids, |ids|); Covered(t, runs[w := feeds], busy + feeds)
  {
    var feeds := FeedsOf(s.rows, ids, |ids|);
    ClaimedFeedsAreFree(s.rows, busy, ids);
    NewRunPartitions(runs, busy, w, feeds);
    var runs' := runs[w := feeds];
    forall v: nat
      ensures Registered(t, runs', v)
    {
      if v in t.workers {
        assert Registered(s, runs, v);
        SameFeeds(s, t, w, ids, v);
      }
    }
  }

  lemma SameFeeds(s: Sys, t: Sys, w: nat, ids: seq<nat>, v: nat)
    requires Claims(s, t, w, ids) && v in t.workers
    ensures forall f: string :: FeedOf(t.rows, Held(t.workers[v]), f) ==>
              FeedOf(s.rows, if v == w then ids else Held(s.workers[v]), f)
  {
    assert Held(t.workers[w]) == ids;
    assert |t.rows| == |s.rows| && forall i: nat :: i < |s.rows| ==> t.rows[i].feed == s.rows[i].feed;
    forall f: string | FeedOf(t.rows, Held(t.workers[v]), f)
      ensures FeedOf(s.rows, if v == w then ids else Held(s.workers[v]), f)
    {
      var i: nat :| i in Held(t.workers[v]) && i < |t.rows| && t.rows[i].feed == f;
    }
  }

  /** Something that happens while a scheduling pass is suspended. */
  datatype Event = Moves(step: Step) | Settles(run: nat)

  /** The steps other than a claim that can be taken now. */
  predicate CanMove(s: Sys, step: Step)
    ensures CanMove(s, step) <==> Enabled(s, step) && !step.ClaimRows?
  {
    match step
    case ClaimRows(_, _, _, _, _) => false
    case EnqueueRow(_, _, _, _, _) => true
    case Lookup(w, _) => w in s.workers && s.workers[w].stage.Reconcile?
    case Answer(w, outcome) =>
      && w in s.workers && s.workers[w].stage.Submit?
      && (outcome.Confirmed? || outcome.Ambiguous? ==> outcome.hash !in s.txs)
    case Write(w, _) => w in s.workers && !s.workers[w].stage.Reconcile? && !s.workers[w].stage.Submit?
    case Settle(hash, _) => hash in s.txs && s.txs[hash].status.Unsettled?
  }

  class BatchScheduler {
    const maxAttempts: nat
    var sys: Sys
    /** Feeds of running batches. */
    var feedsInFlight: set<string>
    /** The running batches, each with its feeds. */
    var inFlight: map<nat, set<string>>
    var nextRun: nat
    ghost const origin: Sys
    ghost var trail: seq<Step>

    ghost predicate Valid()
      reads this
    {
      && Inv(origin) && Run(origin, trail, sys, maxAttempts) && Inv(sys)
      && Covered(sys, inFlight, feedsInFlight) && forall w: nat :: w in inFlight ==> w < nextRun
    }

    constructor (start: Sys, maxAttempts: nat)
      requires Inv(start) && start.workers == map[]
      ensures Valid() && sys == start && inFlight == map[]
    {
      this.maxAttempts, sys, feedsInFlight, inFlight, nextRun := maxAttempts, start, {}, map[], 0;
      origin, trail := start, [];
    }

    /** Anything but a claim happens: a row is queued, a worker moves, the chain settles. */
    method Progress(step: Step)
      requires Valid() && Enabled(sys, step) && !step.ClaimRows?
      modifies this`sys, this`trail
      ensures Valid() && sys == Apply(old(sys), step, maxAttempts)
      ensures forall w: nat :: w in sys.workers ==> w in old(sys).workers
    {
      ghost var t := Apply(sys, step, maxAttempts);
      RunExtends(origin, trail, sys, step, maxAttempts);
      StepKeepsInv(sys, step, maxAttempts);
      OtherStepsShrink(sys, step, maxAttempts);
      forall w: nat | w in t.workers
        ensures w in sys.workers
      {
        OtherStepsAddNoWorker(sys, step, maxAttempts, w);
      }
      ShrinkKeepsCovered(sys, t, inFlight, feedsInFlight);
      trail := trail + [step];
      match step {
        case EnqueueRow(key, feed, value, priority, now) =>
          sys := sys.(rows := Enqueue(sys.rows, key, feed, value, priority, now));
        case Lookup(w, fails) => sys := AfterLookup(sys, w, fails);
        case Answer(w, outcome) => sys := AfterAnswer(sys, w, outcome);
        case Write(w, due) => sys := AfterWrite(sys, w, due, maxAttempts);
        case Settle(hash, applied) => sys := AfterSettle(sys, hash, applied);
      }
    }

    /** A batch has settled: its feeds may be claimed again. */
    method Settled(w: nat)
      requires Valid() && w in inFlight && w !in sys.workers
      modifies this`feedsInFlight, this`inFlight
      ensures Valid() && inFlight == old(inFlight) - {w}
      ensures feedsInFlight == old(feedsInFlight) - old(inFlight)[w]
    {
      ForgetKeepsCovered(sys, inFlight, feedsInFlight, w);
      feedsInFlight := feedsInFlight - inFlight[w];
      inFlight := inFlight - {w};
    }

    /** Nothing that is running was forgotten since `before`. */
    ghost predicate Keeps(before: map<nat, set<string>>)
      reads this
    {
      forall w: nat :: w in before ==>
        w < nextRun && if w in inFlight then inFlight[w] == before[w] else w !in sys.workers
    }

    /** What goes on while the pass waits for a claim, as far as it can happen. */
    method Meanwhile(events: seq<Event>, ghost before: map<nat, set<string>>)
      requires Valid() && Keeps(before)
      modifies this`sys, this`trail, this`feedsInFlight, this`inFlight
      ensures Valid() && Keeps(before) && |inFlight| <= old(|inFlight|)
    {
      for i := 0 to |events|
        invariant Valid() && Keeps(before) && |inFlight| <= old(|inFlight|)
      {
        match events[i] {
          case Moves(step) =>
            if CanMove(sys, step) {
              Progress(step);
            }
          case Settles(w) =>
            if w in inFlight && w !in sys.workers {
              Settled(w);
            }
        }
      }
    }

    /** Claims batches until every slot is taken or nothing is left to claim, while other
        batches move on and settle: `between[i]` happens before claim `i`. */
    method Tick(maxInFlight: nat, maxBatchSize: nat, maxPerFeed: nat, now: int, between: seq<seq<Event>>)
      requires Valid()
      modifies this
      ensures Valid() && Keeps(old(inFlight))
      ensures |inFlight| <= old(|inFlight|) || |inFlight| <= maxInFlight
      ensures |inFlight| >= maxInFlight || Claim(sys.rows, maxBatchSize, maxPerFeed, feedsInFlight, now) == []
    {
      var i := 0;
      while |inFlight| < maxInFlight
        invariant Valid() && Keeps(old(inFlight))
        invariant |inFlight| <= old(|inFlight|) || |inFlight| <= maxInFlight
        decreases if i < |between| then |between| - i else 0, maxInFlight - |inFlight|
      {
        if i < |between| {
          Meanwhile(between[i], old(inFlight));
        }
        i := i + 1;
        var ids := Claim(sys.rows, maxBatchSize, maxPerFeed, feedsInFlight, now);
        if ids == [] {
          return;
        }
        StartRun(ids, maxBatchSize, maxPerFeed, now);
      }
    }

    /** One claimed batch becomes a running worker with its feeds registered. */
    method StartRun(ids: seq<nat>, maxBatchSize: nat, maxPerFeed: nat, now: int)
      requires Valid() && ids == Claim(sys.rows, maxBatchSize, maxPerFeed, feedsInFlight, now) && ids != []
      modifies this
      ensures Valid() && old(nextRun) !in old(inFlight) && nextRun == old(nextRun) + 1
      ensures forall w: nat :: w in sys.workers ==> w in old(sys).workers || w == old(nextRun)
      ensures inFlight == old(inFlight)[old(nextRun) := FeedsOf(old(sys).rows, ids, |ids|)]
      ensures feedsInFlight == old(feedsInFlight) + FeedsOf(old(sys).rows, ids, |ids|)
    {
      var w := nextRun;
      assert Registered(sys, inFlight, w);
      CoveredExcludes(sys, inFlight, feedsInFlight);
      ghost var step := ClaimRows(w, maxBatchSize, maxPerFeed, feedsInFlight, now);
      assert Enabled(sys, step);
      RunExtends(origin, trail, sys, step, maxAttempts);
      StepKeepsInv(sys, step, maxAttempts);
      ClaimRowsClaims(sys, w, maxBatchSize, maxPerFeed, feedsInFlight, now);
      ClaimTakesPrefixes(sys.rows, maxBatchSize, maxPerFeed, feedsInFlight, now);
      ClaimKeepsCovered(sys, Apply(sys, step, maxAttempts), inFlight, feedsInFlight, w, ids);
      var feeds := FeedsOf(sys.rows, ids, |ids|);
      var rows := MarkInflight(sys.rows, ids);
      sys := sys.(rows := rows, workers := sys.workers[w := Publisher.Process(rows, ids, [])]);
      feedsInFlight, inFlight, nextRun := feedsInFlight + feeds, inFlight[w := feeds], w + 1;
      trail := trail + [step];
    }
  }
}
