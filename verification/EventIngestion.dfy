/**
 Paged ingestion of pool contract events.

 The chain is an append-only log of events with a latest closed ledger; an event's
 paging token is its position in the log. A poll is one transaction: it reads the
 checkpoint, asks for one page, inserts the recognised events of the page and moves
 the checkpoint. An RPC error or a malformed event rolls it back.
 */
module EventIngestion {
  import opened Wrappers
  import opened Lists

  const EVENT_PAGE_SIZE: nat := 100

  /** What normalising an event yields: a row, nothing, or an exception. */
  datatype Kind = Recognised | Unknown | Malformed

  datatype Event = Event(id: string, ledger: nat, kind: Kind)

  datatype Chain = Chain(log: seq<Event>, latest: nat)

  /** Where the next poll starts. */
  datatype Checkpoint = Checkpoint(cursor: Option<nat>, nextStartLedger: nat)

  datatype Tables = Tables(checkpoint: Option<Checkpoint>, events: seq<Event>)

  const NoTables := Tables(None, [])

  // ---------------------------------------------------------------------------
  // The chain
  // ---------------------------------------------------------------------------

  ghost predicate DistinctIds(events: seq<Event>) {
    forall i, j :: 0 <= i < j < |events| ==> events[i].id != events[j].id
  }

  ghost predicate WellFormed(c: Chain) {
    && DistinctIds(c.log)
    && (forall i, j :: 0 <= i < j < |c.log| ==> c.log[i].ledger <= c.log[j].ledger)
    && (forall i :: 0 <= i < |c.log| ==> c.log[i].ledger <= c.latest)
  }

  /** Ledgers close with their events; what is closed stays as it is. */
  ghost predicate Grows(c: Chain, d: Chain) {
    && WellFormed(d) && c.log <= d.log && c.latest <= d.latest
    && forall i :: |c.log| <= i < |d.log| ==> d.log[i].ledger > c.latest
  }

  /** How many of the first `k` events lie before ledger `l`. */
  function Before(log: seq<Event>, l: nat, k: nat): nat
    requires k <= |log|
  {
    if k == 0 then 0 else Before(log, l, k - 1) + if log[k - 1].ledger < l then 1 else 0
  }

  /** The position of the first event at or after ledger `l`. */
  function PositionOf(log: seq<Event>, l: nat): nat {
    Before(log, l, |log|)
  }

  lemma {:induction false} BeforeIs(c: Chain, l: nat, k: nat)
    requires WellFormed(c) && k <= |c.log|
    ensures var p := Before(c.log, l, k);
      p <= k && (forall i :: 0 <= i < p ==> c.log[i].ledger < l) && (forall i :: p <= i < k ==> c.log[i].ledger >= l)
  {
    if k > 0 {
      BeforeIs(c, l, k - 1);
    }
  }

  lemma {:induction false} BeforeGrows(c: Chain, d: Chain, l: nat, k: nat)
    requires Grows(c, d) && k <= |c.log|
    ensures Before(d.log, l, k) == Before(c.log, l, k)
  {
    if k > 0 {
      BeforeGrows(c, d, l, k - 1);
    }
  }

  lemma {:induction false} BeforeStays(d: Chain, l: nat, k: nat, m: nat)
    requires k <= m <= |d.log| && forall i :: k <= i < m ==> d.log[i].ledger >= l
    ensures Before(d.log, l, m) == Before(d.log, l, k)
  {
    if m > k {
      BeforeStays(d, l, k, m - 1);
    }
  }

  /** A ledger that could already close keeps its position. */
  lemma PositionGrows(c: Chain, d: Chain, l: nat)
    requires WellFormed(c) && Grows(c, d) && l <= c.latest + 1
    ensures PositionOf(d.log, l) == PositionOf(c.log, l)
  {
    BeforeGrows(c, d, l, |c.log|);
    BeforeStays(d, l, |c.log|, |d.log|);
  }

  lemma {:induction false} AllBefore(log: seq<Event>, l: nat, k: nat)
    requires k <= |log| && forall i :: 0 <= i < k ==> log[i].ledger < l
    ensures Before(log, l, k) == k
  {
    if k > 0 {
      AllBefore(log, l, k - 1);
    }
  }

  /** Past the tip there is nothing, so the position is the end of the log. */
  lemma PositionOfTip(c: Chain, l: nat)
    requires WellFormed(c) && l > c.latest
    ensures PositionOf(c.log, l) == |c.log|
  {
    AllBefore(c.log, l, |c.log|);
  }

  // ---------------------------------------------------------------------------
  // Polls
  // ---------------------------------------------------------------------------

  /** The position of the first event a poll from this checkpoint asks for. */
  function StartOf(log: seq<Event>, at: Checkpoint): nat {
    if at.cursor.Some? then at.cursor.value + 1 else PositionOf(log, at.nextStartLedger)
  }

  function Min(a: nat, b: nat): nat {
    if a < b then a else b
  }

  /** The page the RPC returns. */
  function Page(log: seq<Event>, from: nat): seq<Event> {
    if from <= |log| then log[from..Min(from + EVENT_PAGE_SIZE, |log|)] else []
  }

  predicate HasMalformed(page: seq<Event>) {
    exists i :: 0 <= i < |page| && page[i].kind.Malformed?
  }

  predicate HasId(events: seq<Event>, id: string) {
    exists i :: 0 <= i < |events| && events[i].id == id
  }

  /** Inserting is idempotent on the event id. */
  function InsertEvent(events: seq<Event>, e: Event): seq<Event> {
    if HasId(events, e.id) then events else events + [e]
  }

  function InsertAll(events: seq<Event>, page: seq<Event>, k: nat): seq<Event>
    requires k <= |page|
  {
    if k == 0 then events
    else
      var before := InsertAll(events, page, k - 1);
      if page[k - 1].kind.Recognised? then InsertEvent(before, page[k - 1]) else before
  }

  function AtStart(t: Tables, startLedger: nat): Checkpoint {
    if t.checkpoint.Some? then t.checkpoint.value else Checkpoint(None, startLedger)
  }

  function Advance(at: Checkpoint, from: nat, page: seq<Event>, latest: nat): Checkpoint {
    if |page| == EVENT_PAGE_SIZE then Checkpoint(Some(from + |page| - 1), at.nextStartLedger)
    else Checkpoint(None, latest + 1)
  }

  /** One poll; `fails` stands for an RPC error. */
  function Poll(t: Tables, c: Chain, startLedger: nat, fails: bool): Tables {
    var at := AtStart(t, startLedger);
    var from := StartOf(c.log, at);
    var page := Page(c.log, from);
    if fails || HasMalformed(page) then t
    else Tables(Some(Advance(at, from, page, c.latest)), InsertAll(t.events, page, |page|))
  }

  /** One of the events the next poll asks for is malformed: they are at most a hundred. */
  predicate MeetsMalformed(log: seq<Event>, from: nat) {
    exists i :: from <= i < |log| && i < from + 100 && log[i].kind == Malformed
  }

  lemma PageMeetsMalformed(log: seq<Event>, from: nat)
    ensures HasMalformed(Page(log, from)) <==> MeetsMalformed(log, from)
    ensures |Page(log, from)| == if from + 100 <= |log| then 100 else if from <= |log| then |log| - from else 0
  {
    var page := Page(log, from);
    assert forall i :: 0 <= i < |page| ==> page[i] == log[from + i];
    if MeetsMalformed(log, from) {
      var i :| from <= i < |log| && i < from + 100 && log[i].kind == Malformed;
      assert page[i - from].kind == Malformed;
    }
  }

  /** A poll commits exactly if the RPC answers and none of the next hundred events is
      malformed. It then goes on behind the last of a full page, or at the next ledger to
      close when there were fewer; otherwise nothing changes. */
  lemma PollIs(t: Tables, c: Chain, startLedger: nat, fails: bool)
    ensures var u, at := Poll(t, c, startLedger, fails), if t.checkpoint.Some? then t.checkpoint.value else Checkpoint(None, startLedger);
      var from := StartOf(c.log, at);
      if fails || MeetsMalformed(c.log, from) then u == t
      else
        && u.checkpoint.Some?
        && u.checkpoint.value == if from + 100 <= |c.log| then Checkpoint(Some(from + 99), at.nextStartLedger)
                                 else Checkpoint(None, c.latest + 1)
  {
    var at := AtStart(t, startLedger);
    PageMeetsMalformed(c.log, StartOf(c.log, at));
  }

  /** A malformed event among the next hundred stops ingestion for good: however the chain
      grows, no poll changes anything. */
  lemma MalformedBlocks(t: Tables, c: Chain, d: Chain, startLedger: nat, fails: bool)
    requires WellFormed(c) && Grows(c, d) && (AtStart(t, startLedger).cursor.None? ==> AtStart(t, startLedger).nextStartLedger <= c.latest + 1)
    requires MeetsMalformed(c.log, StartOf(c.log, AtStart(t, startLedger)))
    ensures Poll(t, d, startLedger, fails) == t
  {
    var at := AtStart(t, startLedger);
    if at.cursor.None? {
      PositionGrows(c, d, at.nextStartLedger);
    }
    var i :| StartOf(c.log, at) <= i < |c.log| && i < StartOf(c.log, at) + 100 && c.log[i].kind == Malformed;
    assert d.log[i] == c.log[i];
    PollIs(t, d, startLedger, fails);
  }

  // ---------------------------------------------------------------------------
  // What every run keeps
  // ---------------------------------------------------------------------------

  function IsRecognised(): Event -> bool {
    (e: Event) => e.kind.Recognised?
  }

  /** The recognised events at positions `from` to `to`. */
  function RecognisedIn(log: seq<Event>, from: nat, to: nat): seq<Event> {
    if from <= to <= |log| then Filter(IsRecognised(), log[from..to]) else []
  }

  /** The stored events are exactly the recognised ones between the start ledger and the
      checkpoint, and the checkpoint is not ahead of the chain. */
  ghost predicate Exact(t: Tables, c: Chain, startLedger: nat) {
    match t.checkpoint
    case None => t.events == []
    case Some(at) =>
      && startLedger <= c.latest + 1 && at.nextStartLedger <= c.latest + 1
      && PositionOf(c.log, startLedger) <= StartOf(c.log, at) <= |c.log|
      && t.events == RecognisedIn(c.log, PositionOf(c.log, startLedger), StartOf(c.log, at))
  }

  lemma GrowKeepsExact(t: Tables, c: Chain, d: Chain, startLedger: nat)
    requires WellFormed(c) && Grows(c, d) && Exact(t, c, startLedger)
    ensures Exact(t, d, startLedger)
  {
    if t.checkpoint.Some? {
      var at := t.checkpoint.value;
      PositionGrows(c, d, startLedger);
      PositionGrows(c, d, at.nextStartLedger);
      var q, p := PositionOf(c.log, startLedger), StartOf(c.log, at);
      assert c.log[q..p] == d.log[q..p];
    }
  }

  lemma {:induction false} InsertAllAppends(events: seq<Event>, page: seq<Event>, k: nat)
    requires k <= |page| && (forall i :: 0 <= i < |page| ==> !HasId(events, page[i].id))
    requires DistinctIds(page)
    ensures InsertAll(events, page, k) == events + Filter(IsRecognised(), page[..k])
  {
    if k > 0 {
      InsertAllAppends(events, page, k - 1);
      var before, e, part := InsertAll(events, page, k - 1), page[k - 1], Filter(IsRecognised(), page[..k - 1]);
      assert page[..k] == page[..k - 1] + [e];
      FilterLast(IsRecognised(), page[..k - 1], e);
      Joined(events, part, [e]);
      NotYetIn(events, page, k - 1, part);
    } else {
      assert page[..0] == [];
    }
  }

  lemma NotYetIn(events: seq<Event>, page: seq<Event>, k: nat, part: seq<Event>)
    requires k < |page| && part == Filter(IsRecognised(), page[..k]) && !HasId(events, page[k].id)
    requires DistinctIds(page)
    ensures !HasId(events + part, page[k].id)
  {
    FilterMembers(IsRecognised(), page[..k]);
    forall i | 0 <= i < |events + part|
      ensures (events + part)[i].id != page[k].id
    {
      if i >= |events| {
        assert part[i - |events|] in part;
        assert part[i - |events|] in page[..k];
      }
    }
  }

  lemma StoredAreEarlier(t: Tables, c: Chain, startLedger: nat, i: nat)
    requires WellFormed(c) && Exact(t, c, startLedger)
    requires StartOf(c.log, AtStart(t, startLedger)) <= i < |c.log|
    ensures !HasId(t.events, c.log[i].id)
  {
    if t.checkpoint.Some? {
      var q, p := PositionOf(c.log, startLedger), StartOf(c.log, t.checkpoint.value);
      FilterMembers(IsRecognised(), c.log[q..p]);
      forall j | 0 <= j < |t.events|
        ensures t.events[j].id != c.log[i].id
      {
        assert t.events[j] in t.events;
        assert t.events[j] in c.log[q..p];
      }
    }
  }

  lemma PageIs(c: Chain, from: nat)
    requires from <= |c.log|
    ensures var page, to := Page(c.log, from), Min(from + EVENT_PAGE_SIZE, |c.log|);
      && page == c.log[from..to] && |page| == to - from
      && (|page| == EVENT_PAGE_SIZE <==> from + EVENT_PAGE_SIZE <= |c.log|)
  {
  }

  lemma InsertsPage(t: Tables, c: Chain, startLedger: nat)
    requires WellFormed(c) && Exact(t, c, startLedger)
    ensures var from := StartOf(c.log, AtStart(t, startLedger)); var page := Page(c.log, from);
      InsertAll(t.events, page, |page|) == t.events + Filter(IsRecognised(), page)
  {
    var from := StartOf(c.log, AtStart(t, startLedger));
    var page := Page(c.log, from);
    if from <= |c.log| {
      PageIs(c, from);
      forall i | 0 <= i < |page|
        ensures !HasId(t.events, page[i].id)
      {
        StoredAreEarlier(t, c, startLedger, from + i);
      }
    }
    InsertAllAppends(t.events, page, |page|);
    assert page[..|page|] == page;
  }

  /** The checkpoint stops right behind the page. */
  lemma AdvanceStops(c: Chain, at: Checkpoint)
    requires WellFormed(c) && StartOf(c.log, at) <= |c.log|
    ensures var from := StartOf(c.log, at); var page := Page(c.log, from);
      StartOf(c.log, Advance(at, from, page, c.latest)) == from + |page|
  {
    PageIs(c, StartOf(c.log, at));
    PositionOfTip(c, c.latest + 1);
  }

  lemma StoresPage(log: seq<Event>, q: nat, from: nat, page: seq<Event>)
    requires q <= from && from + |page| <= |log| && page == log[from..from + |page|]
    ensures RecognisedIn(log, q, from + |page|) == RecognisedIn(log, q, from) + Filter(IsRecognised(), page)
  {
    assert log[q..from + |page|] == log[q..from] + page;
    FilterConcat(IsRecognised(), log[q..from], page);
  }

  /** A committed poll stores the next page. */
  lemma PollKeepsExact(t: Tables, c: Chain, startLedger: nat, fails: bool)
    requires WellFormed(c) && Exact(t, c, startLedger)
    requires t.checkpoint.None? && !fails ==> startLedger <= c.latest + 1
    ensures Exact(Poll(t, c, startLedger, fails), c, startLedger)
  {
    var at := AtStart(t, startLedger);
    var from := StartOf(c.log, at);
    var page, q := Page(c.log, from), PositionOf(c.log, startLedger);
    if !fails && !HasMalformed(page) {
      BeforeIs(c, startLedger, |c.log|);
      assert t.events == RecognisedIn(c.log, q, from);
      PageIs(c, from);
      InsertsPage(t, c, startLedger);
      AdvanceStops(c, at);
      StoresPage(c.log, q, from, page);
    }
  }

  datatype Step = Close(chain: Chain) | DoPoll(fails: bool)

  ghost predicate Enabled(t: Tables, c: Chain, startLedger: nat, step: Step) {
    match step
    case Close(d) => Grows(c, d)
    case DoPoll(fails) => t.checkpoint.None? && startLedger > c.latest + 1 ==> fails
  }

  /** Chain and tables after `steps`. A query that starts beyond the next ledger is rejected. */
  ghost predicate Run(t: Tables, c: Chain, startLedger: nat, steps: seq<Step>, u: Tables, d: Chain)
    decreases |steps|
  {
    if steps == [] then t == u && c == d
    else
      Enabled(t, c, startLedger, steps[0]) &&
      match steps[0]
      case Close(e) => Run(t, e, startLedger, steps[1..], u, d)
      case DoPoll(fails) => Run(Poll(t, c, startLedger, fails), c, startLedger, steps[1..], u, d)
  }

  lemma {:induction false} RunKeepsExact(t: Tables, c: Chain, startLedger: nat, steps: seq<Step>, u: Tables, d: Chain)
    requires WellFormed(c) && Exact(t, c, startLedger) && Run(t, c, startLedger, steps, u, d)
    ensures WellFormed(d) && Exact(u, d, startLedger)
    decreases |steps|
  {
    if steps != [] {
      match steps[0]
      case Close(e) =>
        GrowKeepsExact(t, c, e, startLedger);
        RunKeepsExact(t, e, startLedger, steps[1..], u, d);
      case DoPoll(fails) =>
        PollKeepsExact(t, c, startLedger, fails);
        RunKeepsExact(Poll(t, c, startLedger, fails), c, startLedger, steps[1..], u, d);
    }
  }

  /** However polls, failures, rollbacks and new ledgers interleave, the stored events are
      exactly the recognised events from the start ledger up to the checkpoint, each once. */
  lemma StoresExactly(c: Chain, startLedger: nat, steps: seq<Step>, u: Tables, d: Chain)
    requires WellFormed(c) && Run(NoTables, c, startLedger, steps, u, d)
    ensures Exact(u, d, startLedger)
    ensures DistinctIds(u.events)
  {
    RunKeepsExact(NoTables, c, startLedger, steps, u, d);
    if u.checkpoint.Some? {
      var q, p := PositionOf(d.log, startLedger), StartOf(d.log, u.checkpoint.value);
      DistinctRecognised(d.log[q..p]);
    }
  }

  lemma {:induction false} DistinctRecognised(s: seq<Event>)
    requires DistinctIds(s)
    ensures DistinctIds(Filter(IsRecognised(), s))
  {
    if s != [] {
      var tail := Filter(IsRecognised(), s[1..]);
      DistinctRecognised(s[1..]);
      FilterMembers(IsRecognised(), s[1..]);
      forall j | 0 <= j < |tail|
        ensures tail[j].id != s[0].id
      {
        assert tail[j] in tail;
        var k :| 0 <= k < |s[1..]| && s[1..][k] == tail[j];
        assert s[k + 1] == tail[j];
      }
      assert DistinctIds([s[0]] + tail);
    }
  }

  // ---------------------------------------------------------------------------
  // Catching up
  // ---------------------------------------------------------------------------

  /** `n` polls in a row without an RPC error. */
  function PollTimes(t: Tables, c: Chain, startLedger: nat, n: nat): Tables
    decreases n
  {
    if n == 0 then t else PollTimes(Poll(t, c, startLedger, false), c, startLedger, n - 1)
  }

  /** A poll advances by a full page, or to the end of the log. */
  lemma PollAdvances(t: Tables, c: Chain, startLedger: nat)
    requires WellFormed(c) && Exact(t, c, startLedger) && startLedger <= c.latest + 1
    requires forall i :: 0 <= i < |c.log| ==> !c.log[i].kind.Malformed?
    ensures var from, u := StartOf(c.log, AtStart(t, startLedger)), Poll(t, c, startLedger, false);
      && Exact(u, c, startLedger) && u.checkpoint.Some?
      && StartOf(c.log, u.checkpoint.value) == Min(from + EVENT_PAGE_SIZE, |c.log|)
  {
    var at := AtStart(t, startLedger);
    BeforeIs(c, startLedger, |c.log|);
    PollKeepsExact(t, c, startLedger, false);
    PageIs(c, StartOf(c.log, at));
    AdvanceStops(c, at);
  }

  /** On a chain without malformed events, enough polls store everything there is. */
  lemma {:induction false} PollsCatchUp(t: Tables, c: Chain, startLedger: nat, n: nat)
    requires WellFormed(c) && Exact(t, c, startLedger) && startLedger <= c.latest + 1
    requires forall i :: 0 <= i < |c.log| ==> !c.log[i].kind.Malformed?
    requires |c.log| - StartOf(c.log, AtStart(t, startLedger)) < n * EVENT_PAGE_SIZE
    ensures var u := PollTimes(t, c, startLedger, n);
      n > 0 ==> u.checkpoint.Some? && u.events == RecognisedIn(c.log, PositionOf(c.log, startLedger), |c.log|)
    decreases n
  {
    if n > 0 {
      PollAdvances(t, c, startLedger);
      var u := Poll(t, c, startLedger, false);
      if StartOf(c.log, u.checkpoint.value) == |c.log| {
        CaughtUpStays(u, c, startLedger, n - 1);
      } else {
        PollsCatchUp(u, c, startLedger, n - 1);
      }
    }
  }

  lemma {:induction false} CaughtUpStays(t: Tables, c: Chain, startLedger: nat, n: nat)
    requires WellFormed(c) && Exact(t, c, startLedger) && t.checkpoint.Some?
    requires forall i :: 0 <= i < |c.log| ==> !c.log[i].kind.Malformed?
    requires StartOf(c.log, t.checkpoint.value) == |c.log|
    ensures PollTimes(t, c, startLedger, n).events == t.events && PollTimes(t, c, startLedger, n).checkpoint.Some?
    decreases n
  {
    if n > 0 {
      PollAdvances(t, c, startLedger);
      CaughtUpStays(Poll(t, c, startLedger, false), c, startLedger, n - 1);
    }
  }

  // ---------------------------------------------------------------------------
  // A start ledger beyond the tip
  // ---------------------------------------------------------------------------

  /** If the RPC answers a first query instead of rejecting it, the checkpoint stays at or
      after the start ledger exactly when the start ledger is at most the next one to close. */
  lemma FirstPollKeepsStartIff(c: Chain, startLedger: nat)
    requires WellFormed(c)
    requires !HasMalformed(Page(c.log, PositionOf(c.log, startLedger)))
    ensures var t := Poll(NoTables, c, startLedger, false);
      t.checkpoint.Some? && (t.checkpoint.value.nextStartLedger >= startLedger <==> startLedger <= c.latest + 1)
  {
    BeforeIs(c, startLedger, |c.log|);
    if startLedger > c.latest + 1 {
      PositionOfTip(c, startLedger);
    }
  }

  /** ... and otherwise events before the start ledger get stored. */
  lemma EarlyStartStoresTooMuch() returns (c: Chain, d: Chain, t: Tables)
    ensures WellFormed(c) && Grows(c, d)
    ensures t == Poll(Poll(NoTables, c, 10, false), d, 10, false)
    ensures |t.events| == 1 && t.events[0].ledger < 10
  {
    var e := Event("e", 5, Recognised);
    c, d := Chain([], 3), Chain([e], 6);
    var first := Poll(NoTables, c, 10, false);
    assert first == Tables(Some(Checkpoint(None, 4)), []);
    assert Before(d.log, 4, 0) == 0 && Before(d.log, 4, 1) == 0;
    assert Page(d.log, 0) == [e];
    assert InsertAll([], [e], 1) == [e];
    t := Poll(first, d, 10, false);
  }

  // ---------------------------------------------------------------------------
  // The service
  // ---------------------------------------------------------------------------

  class PoolEventIngestionService {
    const startLedger: nat
    var checkpoint: Option<Checkpoint>
    var events: seq<Event>

    ghost function View(): Tables
      reads this
    {
      Tables(checkpoint, events)
    }

    constructor (startLedger: nat)
      ensures View() == NoTables && this.startLedger == startLedger
    {
      this.startLedger, checkpoint, events := startLedger, None, [];
    }

    method Insert(e: Event)
      modifies this`events
      ensures events == InsertEvent(old(events), e)
    {
      for i := 0 to |events|
        invariant forall k :: 0 <= k < i ==> events[k].id != e.id
        invariant events == old(events)
      {
        if events[i].id == e.id {
          return;
        }
      }
      events := events + [e];
    }

    /** One transaction: the new tables are committed, or nothing is. */
    method IngestNextPage(chain: Chain, rpcFails: bool) returns (committed: bool)
      modifies this
      ensures View() == Poll(old(View()), chain, startLedger, rpcFails)
      ensures committed <==>
        !rpcFails && !HasMalformed(Page(chain.log, StartOf(chain.log, AtStart(old(View()), startLedger))))
    {
      var savedCheckpoint, savedEvents := checkpoint, events;
      if checkpoint.None? {
        checkpoint := Some(Checkpoint(None, startLedger));
      }
      var at := checkpoint.value;
      var from := StartOf(chain.log, at);
      var page := Page(chain.log, from);
      var thrown := rpcFails;
      var k := 0;
      while k < |page| && !thrown
        invariant 0 <= k <= |page|
        invariant checkpoint == Some(at)
        invariant !rpcFails ==> events == InsertAll(savedEvents, page, k)
        invariant !rpcFails && !thrown ==> forall i :: 0 <= i < k ==> !page[i].kind.Malformed?
        invariant rpcFails ==> thrown
        invariant thrown && !rpcFails ==> HasMalformed(page)
        decreases |page| - k, !thrown
      {
        if page[k].kind.Malformed? {
          thrown := true;
        } else {
          if page[k].kind.Recognised? {
            Insert(page[k]);
          }
          k := k + 1;
        }
      }
      if thrown {
        checkpoint, events := savedCheckpoint, savedEvents;
        return false;
      }
      checkpoint := Some(Advance(at, from, page, chain.latest));
      committed := true;
    }
  }
}
