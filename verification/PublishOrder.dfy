/**
 Why the ordering of a feed's decisions depends on patience: the last row a feed has
 in an undecided transaction is dead-lettered once it has used up its attempts, and
 that transaction may still be applied after later decisions of the feed.
 */
module PublishOrder {
  import opened Wrappers
  import opened PublishQueue
  import opened Publisher
  import opened BatchPublisher

  /** With a single open row, pending and due, a claim of one takes it. */
  lemma ClaimsTheOnlyRow(rows: Rows, i: nat, now: int)
    requires i < |rows| && rows[i].status.Pending? && rows[i].nextAttemptAt <= now
    requires forall j: nat :: j != i ==> !Open(rows, j)
    ensures Claim(rows, 1, 1, {}, now) == [i]
  {
    var ids := Claim(rows, 1, 1, {}, now);
    ClaimedIsPicked(rows, 1, 1, {}, now, |rows|);
    assert (set e | 0 <= e <= i && OpenPeer(rows, e, i)) == {i};
    assert Ahead(rows, i, 1, {}, now) == {};
    assert Picked(rows, i, 1, 1, {}, now);
    ClaimRespectsLimit(rows, 1, 1, {}, now);
    assert i in ids;
  }

  /** `step` leads from `m` to `t` when a row gets one attempt. */
  ghost predicate Leads(m: Sys, step: Step, t: Sys) {
    Enabled(m, step) && Apply(m, step, 1) == t
  }

  lemma Do(steps: seq<Step>, m: Sys, step: Step, t: Sys) returns (more: seq<Step>)
    requires Run(Start, steps, m, 1) && Leads(m, step, t)
    ensures Run(Start, more, t, 1)
  {
    RunExtends(Start, steps, m, step, 1);
    more := steps + [step];
  }

  lemma ClaimStep(m: Sys, i: nat)
    requires m.workers == map[] && i < |m.rows|
    requires m.rows[i].status.Pending? && m.rows[i].nextAttemptAt <= 0 && m.rows[i].hash.None?
    requires forall j: nat :: j != i ==> !Open(m.rows, j)
    ensures Leads(m, ClaimRows(0, 1, 1, {}, 0),
                  m.(rows := MarkInflight(m.rows, [i]), workers := map[0 := Worker(Reconcile([], {}), [i], [])]))
  {
    ClaimsTheOnlyRow(m.rows, i, 0);
    assert Hashes(MarkInflight(m.rows, [i]), [i], 1) == [];
  }

  lemma LookupStep(m: Sys, i: nat)
    requires m.workers == map[0 := Worker(Reconcile([], {}), [i], [])]
    ensures Leads(m, Lookup(0, false), m.(workers := map[0 := Worker(Submit(true), [i], [])]))
  {
    assert Keep([i], {}, 1) == [i];
    assert Apply(m, Lookup(0, false), 1).workers == map[0 := Worker(Submit(true), [i], [])];
  }

  /** The only open row is claimed, has nothing to reconcile and is ready to submit. */
  lemma DoClaim(steps: seq<Step>, m: Sys, i: nat) returns (more: seq<Step>)
    requires Run(Start, steps, m, 1) && m.workers == map[] && i < |m.rows|
    requires m.rows[i].status.Pending? && m.rows[i].nextAttemptAt <= 0 && m.rows[i].hash.None?
    requires forall j: nat :: j != i ==> !Open(m.rows, j)
    ensures Run(Start, more, Claiming(m, i), 1)
  {
    ClaimStep(m, i);
    var t := m.(rows := MarkInflight(m.rows, [i]), workers := map[0 := Worker(Reconcile([], {}), [i], [])]);
    more := Do(steps, m, ClaimRows(0, 1, 1, {}, 0), t);
    LookupStep(t, i);
    more := Do(more, t, Lookup(0, false), Claiming(m, i));
  }

  function Claiming(m: Sys, i: nat): Sys {
    m.(rows := MarkInflight(m.rows, [i]), workers := map[0 := Worker(Submit(true), [i], [])])
  }

  function First(status: Status, attempts: nat): Row {
    Row("a", "feed", 1, 0, status, attempts, None, 0)
  }

  function Second(status: Status, attempts: nat): Row {
    Row("b", "feed", 2, 0, status, attempts, None, 0)
  }

  /** The first decision, with its transaction undecided. */
  function Undecided(status: Status, workers: map<nat, Worker>): Sys {
    Sys([First(status, 1)], map[7 := Tx([0], Unsettled)], [], workers)
  }

  lemma DeadLetterStep()
    ensures Leads(Undecided(Inflight, map[0 := Worker(Retry(true, Some(7)), [0], [])]), Write(0, 0),
                  Undecided(Failed, map[0 := Worker(ReleaseBatch(Some(7)), [], [])]))
  {
    var m := Undecided(Inflight, map[0 := Worker(Retry(true, Some(7)), [0], [])]);
    assert Exhausted(m.rows, [0], true, 1, 1) == [0];
    assert Keep([0], set i | i in [0], 1) == [];
    assert MarkFailed(m.rows, [0]) == [First(Failed, 1)];
    assert m.workers[0 := Worker(ReleaseBatch(Some(7)), [], [])] == map[0 := Worker(ReleaseBatch(Some(7)), [], [])];
  }

  lemma ReleaseSteps()
    ensures Leads(Undecided(Failed, map[0 := Worker(ReleaseBatch(Some(7)), [], [])]), Write(0, 0),
                  Undecided(Failed, map[0 := Worker(Drain, [], [])]))
    ensures Leads(Undecided(Failed, map[0 := Worker(Drain, [], [])]), Write(0, 0), Undecided(Failed, map[]))
  {
    var m := Undecided(Failed, map[0 := Worker(ReleaseBatch(Some(7)), [], [])]);
    assert Release(m.rows, [], 0, Some(7)) == m.rows;
    assert m.workers[0 := Worker(Drain, [], [])] == map[0 := Worker(Drain, [], [])];
    assert map[0 := Worker(Drain, [], [])] - {0} == map[];
  }

  lemma SubmitFirst() returns (steps: seq<Step>)
    ensures Run(Start, steps, Undecided(Inflight, map[0 := Worker(Retry(true, Some(7)), [0], [])]), 1)
  {
    var m := Sys([First(Pending, 0)], map[], [], map[]);
    steps := Do([], Start, EnqueueRow("a", "feed", 1, 0, 0), m);
    steps := DoClaim(steps, m, 0);
    var t := Undecided(Inflight, map[0 := Worker(Retry(true, Some(7)), [0], [])]);
    assert Claiming(m, 0).rows == t.rows;
    assert Claiming(m, 0).workers[0 := Worker(Retry(true, Some(7)), [0], [])] == t.workers;
    steps := Do(steps, Claiming(m, 0), Answer(0, Ambiguous(7)), t);
  }

  /** The first decision is dead-lettered while its transaction is undecided. */
  lemma DeadLettersTheFirst() returns (steps: seq<Step>)
    ensures Run(Start, steps, Undecided(Failed, map[]), 1)
  {
    steps := SubmitFirst();
    DeadLetterStep();
    ReleaseSteps();
    var retry, release, drain :=
      map[0 := Worker(Retry(true, Some(7)), [0], [])],
      map[0 := Worker(ReleaseBatch(Some(7)), [], [])],
      map[0 := Worker(Drain, [], [])];
    steps := Do(steps, Undecided(Inflight, retry), Write(0, 0), Undecided(Failed, release));
    steps := Do(steps, Undecided(Failed, release), Write(0, 0), Undecided(Failed, drain));
    steps := Do(steps, Undecided(Failed, drain), Write(0, 0), Undecided(Failed, map[]));
  }

  /** Dead-lettering the last row of an undecided transaction can let a feed's decisions take effect out of
      order: the second decision is on chain before the first. */
  lemma OrderNeedsPatience() returns (steps: seq<Step>, t: Sys)
    ensures Run(Start, steps, t, 1)
    ensures t.chain == [1, 0] && SameFeed(t, 0, 1)
  {
    var m := Undecided(Failed, map[]);
    steps := DeadLettersTheFirst();
    var n := m.(rows := [First(Failed, 1), Second(Pending, 0)]);
    steps := Do(steps, m, EnqueueRow("b", "feed", 2, 0, 0), n);
    steps := DoClaim(steps, n, 1);
    var a := Apply(Claiming(n, 1), Answer(0, Confirmed(8)), 1);
    steps := Do(steps, Claiming(n, 1), Answer(0, Confirmed(8)), a);
    assert a.txs[7] == Tx([0], Unsettled);
    t := Apply(a, Settle(7, true), 1);
    steps := Do(steps, a, Settle(7, true), t);
  }
}
