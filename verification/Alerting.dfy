/**
 Alert routing: one open incident per fingerprint, a sliding-window storm guard and
 a bound on notifications per incident.

 The public methods suspend only while they notify or write; between two suspensions
 they run undisturbed. Each such undisturbed stretch is one step here, so that runs
 of steps cover every interleaving of calls.
 */
module Alerting {
  import opened Wrappers

  /** Ids are made of the creation time and a wrapping counter. */
  datatype Id = Id(at: int, n: nat)

  const COUNTER_LIMIT: nat := 1000000

  datatype IncidentState = Open | Acknowledged | Escalated | Resolved

  datatype Incident = Incident(fingerprint: string, state: IncidentState, createdAt: int, lastNotifiedAt: Option<int>,
                               notificationCount: int)

  datatype Config = Config(dedupWindowMs: int, renotifyDelayMs: int, escalationDelayMs: int,
                           maxNotificationsPerIncident: int, maxIncidentsPerWindow: int)

  /** `created` lists the ids the service has given out and `deliveries` the incident of
      every delivery; the rest are the service's own fields. */
  datatype World = World(openByFingerprint: map<string, Id>, incidents: map<Id, Incident>, order: seq<Id>,
                         lastEmitAt: map<string, int>, creationTimestamps: seq<int>, counter: nat,
                         created: seq<Id>, deliveries: seq<Id>, clock: int)

  // ---------------------------------------------------------------------------
  // Steps
  // ---------------------------------------------------------------------------

  /** One delivery attempt. */
  function Deliver(c: Config, w: World, id: Id, now: int): World {
    if id !in w.incidents || w.incidents[id].notificationCount >= c.maxNotificationsPerIncident then w
    else
      var i := w.incidents[id];
      w.(incidents := w.incidents[id := i.(notificationCount := i.notificationCount + 1, lastNotifiedAt := Some(now))],
         deliveries := w.deliveries + [id])
  }

  function SetState(w: World, id: Id, state: IncidentState): World
    requires id in w.incidents
  {
    w.(incidents := w.incidents[id := w.incidents[id].(state := state)])
  }

  /** Closes an incident that is not resolved yet. */
  function Close(w: World, id: Id): World {
    if id !in w.incidents || w.incidents[id].state.Resolved? then w
    else SetState(w, id, Resolved).(openByFingerprint := w.openByFingerprint - {w.incidents[id].fingerprint})
  }

  function Acknowledge(w: World, id: Id): World {
    if id !in w.incidents || w.incidents[id].state.Resolved? then w else SetState(w, id, Acknowledged)
  }

  function Escalate(w: World, id: Id): World {
    if id !in w.incidents || w.incidents[id].state.Escalated? || w.incidents[id].state.Resolved? then w
    else SetState(w, id, Escalated)
  }

  /** Drops creation times older than the window. */
  function Pruned(times: seq<int>, cutoff: int): seq<int> {
    if times != [] && times[0] < cutoff then Pruned(times[1..], cutoff) else times
  }

  function NextId(w: World, now: int): Id {
    Id(now, (w.counter + 1) % COUNTER_LIMIT)
  }

  function Create(w: World, fingerprint: string, now: int): World {
    var id := NextId(w, now);
    w.(incidents := w.incidents[id := Incident(fingerprint, Open, now, None, 0)], order := w.order + [id],
       openByFingerprint := w.openByFingerprint[fingerprint := id],
       lastEmitAt := w.lastEmitAt[fingerprint := now],
       creationTimestamps := w.creationTimestamps + [now], counter := (w.counter + 1) % COUNTER_LIMIT,
       created := w.created + [id])
  }

  /** The unresolved incident a fingerprint points to. */
  function Existing(w: World, fingerprint: string): Option<Id> {
    if fingerprint in w.openByFingerprint && w.openByFingerprint[fingerprint] in w.incidents
       && !w.incidents[w.openByFingerprint[fingerprint]].state.Resolved?
    then Some(w.openByFingerprint[fingerprint]) else None
  }

  datatype Touch = Deduped | Renotify(id: Id) | Suppressed | Opened(id: Id)

  function Touched(w: World, fingerprint: string, now: int): World {
    w.(lastEmitAt := w.lastEmitAt[fingerprint := now])
  }

  /** What an alert that is not a resolution does before it first suspends. */
  function Route(c: Config, w: World, fingerprint: string, now: int): (World, Touch) {
    var existing := Existing(w, fingerprint);
    if existing.Some? then
      var last := if fingerprint in w.lastEmitAt then w.lastEmitAt[fingerprint] else 0;
      if now - last < c.dedupWindowMs then (w, Deduped) else (Touched(w, fingerprint, now), Renotify(existing.value))
    else
      var pruned := w.(creationTimestamps := Pruned(w.creationTimestamps, now - c.dedupWindowMs));
      if |pruned.creationTimestamps| >= c.maxIncidentsPerWindow then (pruned, Suppressed)
      else (Create(pruned, fingerprint, now), Opened(NextId(w, now)))
  }

  datatype Step =
    | RouteStep(fingerprint: string, now: int)
    | TouchStep(fingerprint: string, now: int)
    | CloseStep(id: Id)
    | AcknowledgeStep(id: Id)
    | EscalateStep(id: Id)
    | DeliverStep(id: Id, now: int)

  predicate Enabled(w: World, step: Step) {
    step.RouteStep? ==> step.now >= w.clock
  }

  function Apply(c: Config, w: World, step: Step): World {
    match step
    case RouteStep(fingerprint, now) => Route(c, w.(clock := now), fingerprint, now).0
    case TouchStep(fingerprint, now) => Touched(w, fingerprint, now)
    case CloseStep(id) => Close(w, id)
    case AcknowledgeStep(id) => Acknowledge(w, id)
    case EscalateStep(id) => Escalate(w, id)
    case DeliverStep(id, now) => Deliver(c, w, id, now)
  }

  ghost predicate Run(c: Config, w: World, steps: seq<Step>, v: World)
    decreases |steps|
  {
    if steps == [] then w == v
    else Enabled(w, steps[0]) && Run(c, Apply(c, w, steps[0]), steps[1..], v)
  }

  // ---------------------------------------------------------------------------
  // What every step keeps
  // ---------------------------------------------------------------------------

  /** The wrapping counter tells apart as many ids as a window can hold. */
  predicate ConfigOk(c: Config) {
    c.dedupWindowMs >= 0 && c.maxIncidentsPerWindow <= COUNTER_LIMIT
  }

  predicate OpenAs(w: World, fingerprint: string, id: Id) {
    id in w.incidents && w.incidents[id].fingerprint == fingerprint && !w.incidents[id].state.Resolved?
  }

  predicate IndexedAs(w: World, fingerprint: string, id: Id) {
    fingerprint in w.openByFingerprint && w.openByFingerprint[fingerprint] == id
  }

  /** The index holds exactly the unresolved incidents. */
  ghost predicate IndexExact(w: World) {
    forall fingerprint: string, id: Id :: IndexedAs(w, fingerprint, id) <==> OpenAs(w, fingerprint, id)
  }

  /** Every incident was created by the service or restored from before it started. */
  ghost predicate Known(created: seq<Id>, ids: set<Id>, start: int) {
    && (forall i :: 0 <= i < |created| ==> created[i] in ids)
    && (forall id: Id :: id in ids ==> id in created || id.at < start)
  }

  ghost predicate Chronological(created: seq<Id>, start: int, clock: int) {
    && start <= clock
    && (forall i :: 0 <= i < |created| ==> start <= created[i].at <= clock)
    && (forall i, j :: 0 <= i < j < |created| ==> created[i].at <= created[j].at)
  }

  /** The counter was at this value `back` creations ago. */
  predicate NumberedFrom(counter: nat, back: nat, n: nat) {
    n == (counter - back) % COUNTER_LIMIT
  }

  ghost predicate Numbered(created: seq<Id>, counter: nat) {
    counter < COUNTER_LIMIT
    && forall i :: 0 <= i < |created| ==> NumberedFrom(counter, |created| - 1 - i, created[i].n)
  }

  /** The creation times kept are the last ones; those dropped are out of the window. */
  ghost predicate WindowOk(c: Config, created: seq<Id>, times: seq<int>, clock: int) {
    var dropped := |created| - |times|;
    && dropped >= 0
    && (forall i :: 0 <= i < |times| ==> times[i] == created[dropped + i].at)
    && (forall i :: 0 <= i < dropped ==> created[i].at + c.dedupWindowMs < clock)
  }

  /** Any `maxIncidentsPerWindow + 1` creations in a row take longer than the window. */
  ghost predicate Spread(c: Config, created: seq<Id>) {
    forall i, j :: 0 <= i <= j < |created| && j - i >= c.maxIncidentsPerWindow ==>
      created[j].at - created[i].at > c.dedupWindowMs
  }

  ghost predicate Timeline(c: Config, w: World, start: int) {
    && Chronological(w.created, start, w.clock) && Numbered(w.created, w.counter)
    && WindowOk(c, w.created, w.creationTimestamps, w.clock) && Spread(c, w.created)
  }

  function Count(s: seq<Id>, id: Id): nat {
    if s == [] then 0 else Count(s[..|s| - 1], id) + if s[|s| - 1] == id then 1 else 0
  }

  predicate BoundedFor(c: Config, incidents: map<Id, Incident>, deliveries: seq<Id>, id: Id) {
    id in incidents
    && incidents[id].notificationCount == Count(deliveries, id)
    && (incidents[id].notificationCount == 0 || incidents[id].notificationCount <= c.maxNotificationsPerIncident)
  }

  /** Deliveries are counted and bounded. */
  ghost predicate Bounded(c: Config, w: World) {
    && (forall id: Id :: id in w.created ==> BoundedFor(c, w.incidents, w.deliveries, id))
    && (forall id: Id :: id in w.deliveries ==> id in w.incidents)
  }

  ghost predicate Inv(c: Config, w: World, start: int) {
    IndexExact(w) && Known(w.created, w.incidents.Keys, start) && Timeline(c, w, start) && Bounded(c, w)
  }

  // ---------------------------------------------------------------------------
  // Steps on existing incidents
  // ---------------------------------------------------------------------------

  lemma DeliverKeepsInv(c: Config, w: World, id: Id, now: int, start: int)
    requires Inv(c, w, start)
    ensures Inv(c, Deliver(c, w, id, now), start)
  {
    var v := Deliver(c, w, id, now);
    if v != w {
      DeliverKeepsBounded(c, w, id, now);
      SameOpen(w, v);
      assert v.incidents.Keys == w.incidents.Keys;
    }
  }

  lemma DeliverKeepsBounded(c: Config, w: World, id: Id, now: int)
    requires Bounded(c, w)
    ensures Bounded(c, Deliver(c, w, id, now))
  {
    var v := Deliver(c, w, id, now);
    if v != w {
      assert v.deliveries[..|w.deliveries|] == w.deliveries;
      forall x: Id | x in v.created
        ensures BoundedFor(c, v.incidents, v.deliveries, x)
      {
        assert BoundedFor(c, w.incidents, w.deliveries, x);
      }
    }
  }

  /** Only what an incident says of its state and fingerprint matters for the index. */
  lemma SameOpen(w: World, v: World)
    requires IndexExact(w) && v.openByFingerprint == w.openByFingerprint && v.incidents.Keys == w.incidents.Keys
    requires forall id: Id :: id in w.incidents ==>
               v.incidents[id].fingerprint == w.incidents[id].fingerprint
               && (v.incidents[id].state.Resolved? <==> w.incidents[id].state.Resolved?)
    ensures IndexExact(v)
  {
    forall fingerprint: string, id: Id
      ensures IndexedAs(v, fingerprint, id) <==> OpenAs(v, fingerprint, id)
    {
      assert IndexedAs(w, fingerprint, id) <==> OpenAs(w, fingerprint, id);
    }
  }

  lemma SetStateKeepsBounded(c: Config, w: World, v: World, id: Id, state: IncidentState)
    requires Bounded(c, w) && id in w.incidents && v.incidents == SetState(w, id, state).incidents
    requires v.created == w.created && v.deliveries == w.deliveries
    ensures Bounded(c, v)
  {
    forall x: Id | x in v.created
      ensures BoundedFor(c, v.incidents, v.deliveries, x)
    {
      assert BoundedFor(c, w.incidents, w.deliveries, x);
    }
  }

  lemma MarkKeepsInv(c: Config, w: World, id: Id, state: IncidentState, start: int)
    requires Inv(c, w, start) && id in w.incidents && !w.incidents[id].state.Resolved? && !state.Resolved?
    ensures Inv(c, SetState(w, id, state), start)
  {
    var v := SetState(w, id, state);
    SetStateKeepsBounded(c, w, v, id, state);
    SameOpen(w, v);
    assert v.incidents.Keys == w.incidents.Keys;
  }

  lemma CloseKeepsIndex(w: World, id: Id)
    requires IndexExact(w)
    ensures IndexExact(Close(w, id))
  {
    var v := Close(w, id);
    if v != w {
      var closed := w.incidents[id].fingerprint;
      assert OpenAs(w, closed, id) <==> IndexedAs(w, closed, id);
      forall fingerprint: string, x: Id
        ensures IndexedAs(v, fingerprint, x) <==> OpenAs(v, fingerprint, x)
      {
        assert IndexedAs(w, fingerprint, x) <==> OpenAs(w, fingerprint, x);
      }
    }
  }

  lemma CloseKeepsInv(c: Config, w: World, id: Id, start: int)
    requires Inv(c, w, start)
    ensures Inv(c, Close(w, id), start)
  {
    var v := Close(w, id);
    if v != w {
      CloseKeepsIndex(w, id);
      SetStateKeepsBounded(c, w, v, id, Resolved);
      assert v.incidents.Keys == w.incidents.Keys;
    }
  }

  // ---------------------------------------------------------------------------
  // Creating incidents
  // ---------------------------------------------------------------------------

  lemma SameIncidents(c: Config, w: World, v: World, start: int)
    requires Inv(c, w, start) && v.incidents == w.incidents && v.openByFingerprint == w.openByFingerprint
    requires v.created == w.created && v.deliveries == w.deliveries && Timeline(c, v, start)
    ensures Inv(c, v, start)
  {
    SameOpen(w, v);
  }

  lemma {:induction false} PrunedIs(times: seq<int>, cutoff: int) returns (k: nat)
    ensures k <= |times| && Pruned(times, cutoff) == times[k..]
    ensures forall i :: 0 <= i < k ==> times[i] < cutoff
    ensures k < |times| ==> times[k] >= cutoff
  {
    if times != [] && times[0] < cutoff {
      var more := PrunedIs(times[1..], cutoff);
      k := more + 1;
    } else {
      k := 0;
    }
  }

  /** Only times out of the window are dropped. */
  lemma PruneKeepsWindow(c: Config, created: seq<Id>, times: seq<int>, clock: int)
    requires WindowOk(c, created, times, clock)
    ensures WindowOk(c, created, Pruned(times, clock - c.dedupWindowMs), clock)
  {
    var k := PrunedIs(times, clock - c.dedupWindowMs);
    var dropped := |created| - |times|;
    forall i | 0 <= i < dropped + k
      ensures created[i].at + c.dedupWindowMs < clock
    {
      if i >= dropped {
        assert times[i - dropped] == created[i].at;
      }
    }
  }

  lemma Residues(a: int, d: int)
    requires 0 < d < COUNTER_LIMIT
    ensures (a - d) % COUNTER_LIMIT != a % COUNTER_LIMIT
  {
    var r := a % COUNTER_LIMIT;
    assert (a - d) % COUNTER_LIMIT == if r >= d then r - d else r - d + COUNTER_LIMIT;
  }

  /** A new id is new: ids of the same millisecond differ in the counter, because the storm
      guard lets only so many through. */
  lemma NextIdIsNew(c: Config, w: World, start: int)
    requires ConfigOk(c) && Inv(c, w, start) && |w.creationTimestamps| < c.maxIncidentsPerWindow
    ensures NextId(w, w.clock) !in w.incidents
  {
    var id, n := NextId(w, w.clock), |w.created|;
    forall i | 0 <= i < n
      ensures w.created[i] != id
    {
      if i >= n - |w.creationTimestamps| {
        assert NumberedFrom(w.counter, n - 1 - i, w.created[i].n);
        Residues(w.counter + 1, n - i);
      }
    }
    assert id !in w.created;
  }

  lemma Renumbered(created: seq<Id>, counter: nat, id: Id)
    requires Numbered(created, counter) && id.n == (counter + 1) % COUNTER_LIMIT
    ensures Numbered(created + [id], (counter + 1) % COUNTER_LIMIT)
  {
    var next, more := (counter + 1) % COUNTER_LIMIT, created + [id];
    forall i | 0 <= i < |more|
      ensures NumberedFrom(next, |more| - 1 - i, more[i].n)
    {
      if i < |created| {
        assert NumberedFrom(counter, |created| - 1 - i, created[i].n);
        Shifted(counter, |created| - 1 - i);
      }
    }
  }

  lemma Shifted(counter: nat, back: nat)
    ensures (counter - back) % COUNTER_LIMIT == ((counter + 1) % COUNTER_LIMIT - (back + 1)) % COUNTER_LIMIT
  {
    var q := (counter + 1) / COUNTER_LIMIT;
    assert counter + 1 == q * COUNTER_LIMIT + (counter + 1) % COUNTER_LIMIT;
    assert counter - back == ((counter + 1) % COUNTER_LIMIT - (back + 1)) + q * COUNTER_LIMIT;
    AddMultiple((counter + 1) % COUNTER_LIMIT - (back + 1), q);
  }

  lemma {:induction false} AddMultiple(a: int, q: nat)
    ensures (a + q * COUNTER_LIMIT) % COUNTER_LIMIT == a % COUNTER_LIMIT
  {
    if q > 0 {
      AddMultiple(a, q - 1);
      assert a + q * COUNTER_LIMIT == (a + (q - 1) * COUNTER_LIMIT) + COUNTER_LIMIT;
    }
  }

  /** The storm guard: with fewer than the limit in the window, one more keeps the spread. */
  lemma OneMoreKeepsSpread(c: Config, created: seq<Id>, times: seq<int>, clock: int, id: Id)
    requires Spread(c, created) && WindowOk(c, created, times, clock) && |times| < c.maxIncidentsPerWindow && id.at == clock
    ensures Spread(c, created + [id])
  {
    var more, n := created + [id], |created|;
    forall i, j | 0 <= i <= j < n + 1 && j - i >= c.maxIncidentsPerWindow
      ensures more[j].at - more[i].at > c.dedupWindowMs
    {
      assert i < n && more[i] == created[i];
      if j < n {
        assert more[j] == created[j];
      }
    }
  }

  lemma OneMoreKeepsWindow(c: Config, created: seq<Id>, times: seq<int>, clock: int, id: Id)
    requires WindowOk(c, created, times, clock) && id.at == clock
    ensures WindowOk(c, created + [id], times + [clock], clock)
  {
  }

  lemma CreateKeepsTimeline(c: Config, w: World, fingerprint: string, start: int)
    requires Timeline(c, w, start) && |w.creationTimestamps| < c.maxIncidentsPerWindow
    ensures Timeline(c, Create(w, fingerprint, w.clock), start)
  {
    var id := NextId(w, w.clock);
    Renumbered(w.created, w.counter, id);
    OneMoreKeepsSpread(c, w.created, w.creationTimestamps, w.clock, id);
    OneMoreKeepsWindow(c, w.created, w.creationTimestamps, w.clock, id);
  }

  lemma CreateKeepsIndex(w: World, fingerprint: string, now: int)
    requires IndexExact(w) && Existing(w, fingerprint).None? && NextId(w, now) !in w.incidents
    ensures IndexExact(Create(w, fingerprint, now))
  {
    var id, v := NextId(w, now), Create(w, fingerprint, now);
    forall f: string, x: Id
      ensures IndexedAs(v, f, x) <==> OpenAs(v, f, x)
    {
      assert IndexedAs(w, f, x) <==> OpenAs(w, f, x);
    }
  }

  lemma {:induction false} NoDeliveries(s: seq<Id>, id: Id)
    requires id !in s
    ensures Count(s, id) == 0
  {
    if s != [] {
      assert s == s[..|s| - 1] + [s[|s| - 1]];
      NoDeliveries(s[..|s| - 1], id);
    }
  }

  lemma CreateKeepsBounded(c: Config, w: World, fingerprint: string, now: int)
    requires Bounded(c, w) && NextId(w, now) !in w.incidents
    ensures Bounded(c, Create(w, fingerprint, now))
  {
    var id, v := NextId(w, now), Create(w, fingerprint, now);
    NoDeliveries(w.deliveries, id);
    forall x: Id | x in v.created
      ensures BoundedFor(c, v.incidents, v.deliveries, x)
    {
      if x != id {
        assert x in w.created;
        assert BoundedFor(c, w.incidents, w.deliveries, x);
      }
    }
  }

  lemma CreateKeepsInv(c: Config, w: World, fingerprint: string, start: int)
    requires ConfigOk(c) && Inv(c, w, start) && Existing(w, fingerprint).None?
    requires |w.creationTimestamps| < c.maxIncidentsPerWindow
    ensures Inv(c, Create(w, fingerprint, w.clock), start)
  {
    NextIdIsNew(c, w, start);
    CreateKeepsIndex(w, fingerprint, w.clock);
    CreateKeepsTimeline(c, w, fingerprint, start);
    CreateKeepsBounded(c, w, fingerprint, w.clock);
    CreateKeepsKnown(w, fingerprint, start);
  }

  lemma CreateKeepsKnown(w: World, fingerprint: string, start: int)
    requires Known(w.created, w.incidents.Keys, start)
    ensures var v := Create(w, fingerprint, w.clock); Known(v.created, v.incidents.Keys, start)
  {
  }

  lemma AdvanceClock(c: Config, w: World, now: int, start: int)
    requires Inv(c, w, start) && now >= w.clock
    ensures Inv(c, w.(clock := now), start)
  {
    SameIncidents(c, w, w.(clock := now), start);
  }

  lemma PruneKeepsInv(c: Config, w: World, start: int)
    requires Inv(c, w, start)
    ensures Inv(c, PrunedWorld(c, w), start)
  {
    var v := PrunedWorld(c, w);
    PruneKeepsWindow(c, w.created, w.creationTimestamps, w.clock);
    SameIncidents(c, w, v, start);
  }

  function PrunedWorld(c: Config, w: World): World {
    w.(creationTimestamps := Pruned(w.creationTimestamps, w.clock - c.dedupWindowMs))
  }

  lemma RouteCases(c: Config, w: World, fingerprint: string)
    ensures Route(c, w, fingerprint, w.clock).0 ==
            if Existing(w, fingerprint).Some? then
              (if Route(c, w, fingerprint, w.clock).1.Deduped? then w else Touched(w, fingerprint, w.clock))
            else if |PrunedWorld(c, w).creationTimestamps| >= c.maxIncidentsPerWindow then PrunedWorld(c, w)
            else Create(PrunedWorld(c, w), fingerprint, w.clock)
  {
  }

  lemma OpenNewKeepsInv(c: Config, w: World, fingerprint: string, start: int)
    requires ConfigOk(c) && Inv(c, w, start) && Existing(w, fingerprint).None?
    requires |PrunedWorld(c, w).creationTimestamps| < c.maxIncidentsPerWindow
    ensures Inv(c, Create(PrunedWorld(c, w), fingerprint, w.clock), start)
  {
    PruneKeepsInv(c, w, start);
    CreateKeepsInv(c, PrunedWorld(c, w), fingerprint, start);
  }

  lemma RouteKeepsInv(c: Config, w: World, fingerprint: string, start: int)
    requires ConfigOk(c) && Inv(c, w, start)
    ensures Inv(c, Route(c, w, fingerprint, w.clock).0, start)
  {
    RouteCases(c, w, fingerprint);
    if Existing(w, fingerprint).Some? {
      SameIncidents(c, w, Touched(w, fingerprint, w.clock), start);
    } else if |PrunedWorld(c, w).creationTimestamps| >= c.maxIncidentsPerWindow {
      PruneKeepsInv(c, w, start);
    } else {
      OpenNewKeepsInv(c, w, fingerprint, start);
    }
  }

  lemma StepKeepsInv(c: Config, w: World, step: Step, start: int)
    requires ConfigOk(c) && Inv(c, w, start) && Enabled(w, step)
    ensures Inv(c, Apply(c, w, step), start)
  {
    match step
    case RouteStep(fingerprint, now) =>
      AdvanceClock(c, w, now, start);
      RouteKeepsInv(c, w.(clock := now), fingerprint, start);
    case CloseStep(id) => CloseKeepsInv(c, w, id, start);
    case DeliverStep(id, now) => DeliverKeepsInv(c, w, id, now, start);
    case TouchStep(fingerprint, now) => SameIncidents(c, w, Touched(w, fingerprint, now), start);
    case AcknowledgeStep(id) =>
      if Acknowledge(w, id) != w {
        MarkKeepsInv(c, w, id, Acknowledged, start);
      }
    case EscalateStep(id) =>
      if Escalate(w, id) != w {
        MarkKeepsInv(c, w, id, Escalated, start);
      }
  }

  lemma {:induction false} RunKeepsInv(c: Config, w: World, steps: seq<Step>, v: World, start: int)
    requires ConfigOk(c) && Inv(c, w, start) && Run(c, w, steps, v)
    ensures Inv(c, v, start)
    decreases |steps|
  {
    if steps != [] {
      StepKeepsInv(c, w, steps[0], start);
      RunKeepsInv(c, Apply(c, w, steps[0]), steps[1..], v, start);
    }
  }

  // ---------------------------------------------------------------------------
  // Main results
  // ---------------------------------------------------------------------------

  /** A stored incident and when it was last updated. */
  datatype Stored = Stored(id: Id, incident: Incident, updatedAt: int)

  /** What the store holds: unresolved incidents, one per fingerprint, older than `start`. */
  ghost predicate Restorable(open: seq<Stored>, start: int) {
    && (forall i :: 0 <= i < |open| ==> !open[i].incident.state.Resolved? && open[i].id.at < start)
    && (forall i, j :: 0 <= i < j < |open| ==>
          open[i].id != open[j].id && open[i].incident.fingerprint != open[j].incident.fingerprint)
  }

  /** The service after restoring the first `k` stored incidents. */
  function Restored(open: seq<Stored>, k: nat, start: int): World
    requires k <= |open|
  {
    if k == 0 then World(map[], map[], [], map[], [], 0, [], [], start)
    else
      var w, s := Restored(open, k - 1, start), open[k - 1];
      w.(incidents := w.incidents[s.id := s.incident], order := w.order + [s.id],
         openByFingerprint := w.openByFingerprint[s.incident.fingerprint := s.id],
         lastEmitAt := w.lastEmitAt[s.incident.fingerprint := s.updatedAt])
  }

  lemma {:induction false} RestoredFacts(open: seq<Stored>, k: nat, start: int)
    requires k <= |open|
    ensures var w := Restored(open, k, start);
      && w.created == [] && w.deliveries == [] && w.creationTimestamps == [] && w.counter == 0 && w.clock == start
      && (forall id: Id :: id in w.incidents ==> exists i :: 0 <= i < k && open[i].id == id)
      && (forall f: string :: f in w.openByFingerprint ==> exists i :: 0 <= i < k && open[i].incident.fingerprint == f)
  {
    if k > 0 {
      RestoredFacts(open, k - 1, start);
    }
  }

  lemma {:induction false} RestoredIndex(open: seq<Stored>, k: nat, start: int)
    requires k <= |open| && Restorable(open, start)
    ensures IndexExact(Restored(open, k, start))
  {
    if k > 0 {
      RestoredIndex(open, k - 1, start);
      RestoredFacts(open, k - 1, start);
      var w, v, s := Restored(open, k - 1, start), Restored(open, k, start), open[k - 1];
      assert s.id !in w.incidents && s.incident.fingerprint !in w.openByFingerprint;
      forall f: string, id: Id
        ensures IndexedAs(v, f, id) <==> OpenAs(v, f, id)
      {
        assert IndexedAs(w, f, id) <==> OpenAs(w, f, id);
      }
    }
  }

  lemma RestoredKeepsInv(c: Config, open: seq<Stored>, start: int)
    requires Restorable(open, start)
    ensures Inv(c, Restored(open, |open|, start), start)
  {
    RestoredFacts(open, |open|, start);
    RestoredIndex(open, |open|, start);
  }

  /** In every run there is at most one unresolved incident per fingerprint, and the index
      holds exactly these. */
  lemma OnePerFingerprint(c: Config, open: seq<Stored>, steps: seq<Step>, v: World, start: int)
    requires ConfigOk(c) && Restorable(open, start) && Run(c, Restored(open, |open|, start), steps, v)
    ensures IndexExact(v)
    ensures forall f: string, a: Id, b: Id :: OpenAs(v, f, a) && OpenAs(v, f, b) ==> a == b
  {
    RestoredKeepsInv(c, open, start);
    RunKeepsInv(c, Restored(open, |open|, start), steps, v, start);
    forall f: string, a: Id, b: Id | OpenAs(v, f, a) && OpenAs(v, f, b)
      ensures a == b
    {
      assert IndexedAs(v, f, a) && IndexedAs(v, f, b);
    }
  }

  /** How many creations fall into the interval `[from, from + length]`. */
  function CreatedWithin(created: seq<Id>, from: int, length: int, k: nat): nat
    requires k <= |created|
  {
    if k == 0 then 0
    else CreatedWithin(created, from, length, k - 1) + if from <= created[k - 1].at <= from + length then 1 else 0
  }

  /** The creations in an interval are consecutive. */
  lemma {:induction false} WithinIsBlock(created: seq<Id>, from: int, length: int, k: nat) returns (lo: nat, hi: nat)
    requires k <= |created| && forall i, j :: 0 <= i < j < |created| ==> created[i].at <= created[j].at
    ensures lo <= hi <= k && CreatedWithin(created, from, length, k) == hi - lo
    ensures forall i :: lo <= i < hi ==> from <= created[i].at <= from + length
    ensures forall i :: 0 <= i < lo ==> created[i].at < from
    ensures forall i :: hi <= i < k ==> created[i].at > from + length
  {
    if k == 0 {
      lo, hi := 0, 0;
    } else {
      lo, hi := WithinIsBlock(created, from, length, k - 1);
      var first, next := if lo < hi then created[lo].at else from, if hi < k - 1 then created[hi].at else from + length + 1;
      assert first >= from && next > from + length;
      if created[k - 1].at < from {
        lo, hi := k, k;
      } else if created[k - 1].at <= from + length {
        hi := k;
      }
    }
  }

  /** In every run no interval as long as the window sees more than the limit of creations. */
  lemma StormBound(c: Config, open: seq<Stored>, steps: seq<Step>, v: World, start: int, from: int)
    requires ConfigOk(c) && Restorable(open, start) && Run(c, Restored(open, |open|, start), steps, v)
    ensures CreatedWithin(v.created, from, c.dedupWindowMs, |v.created|) <=
            if c.maxIncidentsPerWindow > 0 then c.maxIncidentsPerWindow else 0
  {
    RestoredKeepsInv(c, open, start);
    RunKeepsInv(c, Restored(open, |open|, start), steps, v, start);
    var lo, hi := WithinIsBlock(v.created, from, c.dedupWindowMs, |v.created|);
    if lo < hi {
      assert v.created[hi - 1].at - v.created[lo].at <= c.dedupWindowMs;
    }
  }

  /** In every run no incident created by the service is delivered more than the limit. */
  lemma DeliveriesBounded(c: Config, open: seq<Stored>, steps: seq<Step>, v: World, start: int, id: Id)
    requires ConfigOk(c) && Restorable(open, start) && Run(c, Restored(open, |open|, start), steps, v) && id in v.created
    ensures Count(v.deliveries, id) <= if c.maxNotificationsPerIncident > 0 then c.maxNotificationsPerIncident else 0
  {
    RestoredKeepsInv(c, open, start);
    RunKeepsInv(c, Restored(open, |open|, start), steps, v, start);
    assert BoundedFor(c, v.incidents, v.deliveries, id);
  }

  // ---------------------------------------------------------------------------
  // Whole calls are runs of steps
  // ---------------------------------------------------------------------------

  ghost predicate Reaches(c: Config, w: World, v: World) {
    exists steps: seq<Step> :: Run(c, w, steps, v)
  }

  lemma ReachesSelf(c: Config, w: World)
    ensures Reaches(c, w, w)
  {
    assert Run(c, w, [], w);
  }

  lemma ReachesStep(c: Config, w: World, step: Step)
    requires Enabled(w, step)
    ensures Reaches(c, w, Apply(c, w, step))
  {
    var v := Apply(c, w, step);
    assert Run(c, v, [step][1..], v);
    assert Run(c, w, [step], v);
  }

  lemma {:induction false} RunJoins(c: Config, w: World, a: seq<Step>, v: World, b: seq<Step>, u: World)
    requires Run(c, w, a, v) && Run(c, v, b, u)
    ensures Run(c, w, a + b, u)
    decreases |a|
  {
    if a == [] {
      assert a + b == b;
    } else {
      assert (a + b)[0] == a[0] && (a + b)[1..] == a[1..] + b;
      RunJoins(c, Apply(c, w, a[0]), a[1..], v, b, u);
    }
  }

  lemma ReachesTrans(c: Config, w: World, v: World, u: World)
    requires Reaches(c, w, v) && Reaches(c, v, u)
    ensures Reaches(c, w, u)
  {
    var a :| Run(c, w, a, v);
    var b :| Run(c, v, b, u);
    RunJoins(c, w, a, v, b, u);
  }

  /** What `emit` does, from start to end. */
  function Emit(c: Config, w: World, fingerprint: string, resolved: bool, now: int): World {
    if resolved then
      var existing := Existing(w, fingerprint);
      if existing.Some? then Deliver(c, Close(w, existing.value), existing.value, now) else w
    else
      var (v, touch) := Route(c, w.(clock := now), fingerprint, now);
      match touch
      case Renotify(id) => Deliver(c, v, id, now)
      case Opened(id) => Deliver(c, v, id, now)
      case Deduped => Touched(v, fingerprint, now)
      case Suppressed => v
  }

  lemma EmitIsRun(c: Config, w: World, fingerprint: string, resolved: bool, now: int)
    requires now >= w.clock
    ensures Reaches(c, w, Emit(c, w, fingerprint, resolved, now))
  {
    ReachesSelf(c, w);
    if resolved {
      var existing := Existing(w, fingerprint);
      if existing.Some? {
        ThenDelivers(c, w, CloseStep(existing.value), existing.value, now);
      }
    } else {
      var step := RouteStep(fingerprint, now);
      var touch := Route(c, w.(clock := now), fingerprint, now).1;
      ReachesStep(c, w, step);
      match touch
      case Renotify(id) => ThenDelivers(c, w, step, id, now);
      case Opened(id) => ThenDelivers(c, w, step, id, now);
      case Deduped =>
        var v := Apply(c, w, step);
        ReachesStep(c, v, TouchStep(fingerprint, now));
        ReachesTrans(c, w, v, Touched(v, fingerprint, now));
      case Suppressed =>
    }
  }

  lemma ThenDelivers(c: Config, w: World, step: Step, id: Id, now: int)
    requires Enabled(w, step)
    ensures Reaches(c, w, Deliver(c, Apply(c, w, step), id, now))
  {
    var v := Apply(c, w, step);
    ReachesStep(c, w, step);
    ReachesStep(c, v, DeliverStep(id, now));
    ReachesTrans(c, w, v, Apply(c, v, DeliverStep(id, now)));
  }

  /** A repeated alert within the window of the last one delivers nothing and opens nothing;
      after it the incident is notified once more, up to its limit. */
  lemma RepeatsAreQuiet(c: Config, w: World, fingerprint: string, now: int)
    requires Existing(w, fingerprint).Some? && fingerprint in w.lastEmitAt
    ensures var v, id := Emit(c, w, fingerprint, false, now), Existing(w, fingerprint).value;
      && v.created == w.created && v.openByFingerprint == w.openByFingerprint
      && v.deliveries == w.deliveries +
           if now - w.lastEmitAt[fingerprint] < c.dedupWindowMs
              || w.incidents[id].notificationCount >= c.maxNotificationsPerIncident then [] else [id]
  {
    assert w.deliveries + [] == w.deliveries;
  }

  function Resolve(c: Config, w: World, id: Id, now: int): World {
    if id in w.incidents && !w.incidents[id].state.Resolved? then Deliver(c, Close(w, id), id, now) else w
  }

  /** The time-based transition of one incident. */
  function TickOne(c: Config, w: World, id: Id, now: int): World {
    if id !in w.incidents || w.incidents[id].state.Resolved? || w.incidents[id].state.Acknowledged? then w
    else
      var i := w.incidents[id];
      var elapsed := now - if i.lastNotifiedAt.Some? then i.lastNotifiedAt.value else i.createdAt;
      if i.state.Open? && elapsed >= c.escalationDelayMs then Deliver(c, Escalate(w, id), id, now)
      else if elapsed >= c.renotifyDelayMs then Deliver(c, w, id, now)
      else w
  }

  function TickAll(c: Config, w: World, ids: seq<Id>, k: nat, now: int): World
    requires k <= |ids|
  {
    if k == 0 then w else TickOne(c, TickAll(c, w, ids, k - 1, now), ids[k - 1], now)
  }

  lemma ResolveIsRun(c: Config, w: World, id: Id, now: int)
    ensures Reaches(c, w, Resolve(c, w, id, now))
  {
    ReachesSelf(c, w);
    if id in w.incidents && !w.incidents[id].state.Resolved? {
      ThenDelivers(c, w, CloseStep(id), id, now);
    }
  }

  lemma TickOneIsRun(c: Config, w: World, id: Id, now: int)
    ensures Reaches(c, w, TickOne(c, w, id, now))
  {
    ReachesSelf(c, w);
    ReachesStep(c, w, DeliverStep(id, now));
    ThenDelivers(c, w, EscalateStep(id), id, now);
  }

  lemma {:induction false} TickIsRun(c: Config, w: World, ids: seq<Id>, k: nat, now: int)
    requires k <= |ids|
    ensures Reaches(c, w, TickAll(c, w, ids, k, now))
    decreases k
  {
    if k == 0 {
      ReachesSelf(c, w);
    } else {
      TickIsRun(c, w, ids, k - 1, now);
      TickOneIsRun(c, TickAll(c, w, ids, k - 1, now), ids[k - 1], now);
      ReachesTrans(c, w, TickAll(c, w, ids, k - 1, now), TickAll(c, w, ids, k, now));
    }
  }

  // ---------------------------------------------------------------------------
  // The service
  // ---------------------------------------------------------------------------

  class AlertRoutingService {
    const config: Config
    var openByFingerprint: map<string, Id>
    var incidents: map<Id, Incident>
    var order: seq<Id>
    var lastEmitAt: map<string, int>
    var creationTimestamps: seq<int>
    var counter: nat
    ghost var created: seq<Id>
    ghost var deliveries: seq<Id>
    ghost var clock: int

    ghost function View(): World
      reads this
    {
      World(openByFingerprint, incidents, order, lastEmitAt, creationTimestamps, counter, created, deliveries, clock)
    }

    /** Creates the service and restores the open incidents of the store. */
    constructor (config: Config, open: seq<Stored>, ghost start: int)
      ensures this.config == config && View() == Restored(open, |open|, start)
    {
      this.config := config;
      openByFingerprint, incidents, order, lastEmitAt, creationTimestamps, counter := map[], map[], [], map[], [], 0;
      created, deliveries, clock := [], [], start;
      new;
      for i := 0 to |open|
        invariant View() == Restored(open, i, start)
      {
        var s := open[i];
        incidents, order := incidents[s.id := s.incident], order + [s.id];
        openByFingerprint := openByFingerprint[s.incident.fingerprint := s.id];
        lastEmitAt := lastEmitAt[s.incident.fingerprint := s.updatedAt];
      }
    }

    method DeliverNotification(id: Id, now: int)
      modifies this
      ensures View() == Deliver(config, old(View()), id, now)
    {
      if id !in incidents || incidents[id].notificationCount >= config.maxNotificationsPerIncident {
        return;
      }
      var i := incidents[id];
      incidents := incidents[id := i.(notificationCount := i.notificationCount + 1, lastNotifiedAt := Some(now))];
      deliveries := deliveries + [id];
    }

    method PruneCreationTimestamps(now: int)
      modifies this`creationTimestamps
      ensures creationTimestamps == Pruned(old(creationTimestamps), now - config.dedupWindowMs)
    {
      var cutoff := now - config.dedupWindowMs;
      while |creationTimestamps| > 0 && creationTimestamps[0] < cutoff
        invariant Pruned(creationTimestamps, cutoff) == Pruned(old(creationTimestamps), cutoff)
        decreases |creationTimestamps|
      {
        creationTimestamps := creationTimestamps[1..];
      }
    }

    method CreateIncident(fingerprint: string, now: int) returns (id: Id)
      modifies this
      ensures id == NextId(old(View()), now) && View() == Deliver(config, Create(old(View()), fingerprint, now), id, now)
    {
      counter := (counter + 1) % COUNTER_LIMIT;
      id := Id(now, counter);
      incidents, order := incidents[id := Incident(fingerprint, Open, now, None, 0)], order + [id];
      openByFingerprint := openByFingerprint[fingerprint := id];
      lastEmitAt := lastEmitAt[fingerprint := now];
      creationTimestamps := creationTimestamps + [now];
      created := created + [id];
      DeliverNotification(id, now);
    }

    /** The storm guard and, if it lets the alert through, a new incident. */
    method OpenIncident(fingerprint: string, now: int)
      modifies this
      ensures var w := old(View());
        var pruned := w.(creationTimestamps := Pruned(w.creationTimestamps, now - config.dedupWindowMs));
        View() == if |pruned.creationTimestamps| >= config.maxIncidentsPerWindow then pruned
                  else Deliver(config, Create(pruned, fingerprint, now), NextId(w, now), now)
    {
      PruneCreationTimestamps(now);
      if |creationTimestamps| < config.maxIncidentsPerWindow {
        var id := CreateIncident(fingerprint, now);
      }
    }

    method FinalizeResolution(id: Id, now: int)
      requires id in incidents && !incidents[id].state.Resolved?
      modifies this
      ensures View() == Deliver(config, Close(old(View()), id), id, now)
    {
      openByFingerprint := openByFingerprint - {incidents[id].fingerprint};
      incidents := incidents[id := incidents[id].(state := Resolved)];
      DeliverNotification(id, now);
    }

    method EmitAlert(fingerprint: string, resolved: bool, now: int)
      modifies this
      ensures View() == Emit(config, old(View()), fingerprint, resolved, now)
    {
      if resolved {
        if fingerprint in openByFingerprint {
          var id := openByFingerprint[fingerprint];
          if id in incidents && !incidents[id].state.Resolved? {
            FinalizeResolution(id, now);
          }
        }
        return;
      }
      clock := now;
      if fingerprint in openByFingerprint {
        var id := openByFingerprint[fingerprint];
        if id in incidents && !incidents[id].state.Resolved? {
          var last := if fingerprint in lastEmitAt then lastEmitAt[fingerprint] else 0;
          lastEmitAt := lastEmitAt[fingerprint := now];
          if now - last >= config.dedupWindowMs {
            DeliverNotification(id, now);
          }
          return;
        }
      }
      OpenIncident(fingerprint, now);
    }

    method AcknowledgeIncident(id: Id)
      modifies this
      ensures View() == Acknowledge(old(View()), id)
    {
      if id in incidents && !incidents[id].state.Resolved? {
        incidents := incidents[id := incidents[id].(state := Acknowledged)];
      }
    }

    method ResolveIncident(id: Id, now: int)
      modifies this
      ensures View() == Resolve(config, old(View()), id, now)
    {
      if id in incidents && !incidents[id].state.Resolved? {
        FinalizeResolution(id, now);
      }
    }

    method TickIncident(id: Id, now: int)
      modifies this
      ensures View() == TickOne(config, old(View()), id, now)
    {
      if id !in incidents || incidents[id].state.Resolved? || incidents[id].state.Acknowledged? {
        return;
      }
      var i := incidents[id];
      var elapsed := now - if i.lastNotifiedAt.Some? then i.lastNotifiedAt.value else i.createdAt;
      if i.state.Open? && elapsed >= config.escalationDelayMs {
        incidents := incidents[id := i.(state := Escalated)];
        DeliverNotification(id, now);
      } else if elapsed >= config.renotifyDelayMs {
        DeliverNotification(id, now);
      }
    }

    method Tick(now: int)
      modifies this
      ensures View() == TickAll(config, old(View()), old(order), |old(order)|, now)
      ensures Reaches(config, old(View()), View())
    {
      var ids := order;
      for k := 0 to |ids|
        invariant View() == TickAll(config, old(View()), ids, k, now)
      {
        TickIncident(ids[k], now);
      }
      TickIsRun(config, old(View()), ids, |ids|, now);
    }
  }
}
