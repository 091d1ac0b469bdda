/**
 What one call of the alert router does: when an alert opens an incident, repeats or resolves
 one, and what a tick does to each incident.
 */
module AlertingRules {
  import opened Wrappers
  import opened Lists
  import opened Alerting

  // ---------------------------------------------------------------------------
  // New alerts
  // ---------------------------------------------------------------------------

  function NotBefore(cutoff: int): int -> bool {
    (t: int) => t >= cutoff
  }

  /** In order of time, dropping the leading old ones keeps exactly the recent ones. */
  lemma {:induction false} PrunedAreRecent(times: seq<int>, cutoff: int)
    requires forall i, j :: 0 <= i < j < |times| ==> times[i] <= times[j]
    ensures Pruned(times, cutoff) == Filter(NotBefore(cutoff), times)
  {
    if times != [] {
      if times[0] < cutoff {
        PrunedAreRecent(times[1..], cutoff);
      } else {
        FilterAll(NotBefore(cutoff), times);
      }
    }
  }

  lemma TimesAscend(c: Config, w: World, start: int)
    requires Inv(c, w, start)
    ensures forall i, j :: 0 <= i < j < |w.creationTimestamps| ==> w.creationTimestamps[i] <= w.creationTimestamps[j]
  {
    var dropped := |w.created| - |w.creationTimestamps|;
    forall i, j | 0 <= i < j < |w.creationTimestamps|
      ensures w.creationTimestamps[i] <= w.creationTimestamps[j]
    {
      assert w.created[dropped + i].at <= w.created[dropped + j].at;
    }
  }

  /** How many incidents were created in the window that ends now. */
  function RecentlyCreated(c: Config, w: World, now: int): nat {
    |Filter(NotBefore(now - c.dedupWindowMs), w.creationTimestamps)|
  }

  /** Nothing was opened or delivered. */
  predicate Ignored(w: World, v: World) {
    && v.incidents == w.incidents && v.created == w.created && v.deliveries == w.deliveries
    && v.openByFingerprint == w.openByFingerprint
  }

  /** Incident `id` of the fingerprint is new, indexed, open and notified once if allowed. */
  ghost predicate HasOpened(c: Config, w: World, v: World, id: Id, fingerprint: string, now: int) {
    && id !in w.incidents && id in v.incidents && v.created == w.created + [id]
    && v.openByFingerprint == w.openByFingerprint[fingerprint := id]
    && v.incidents[id].fingerprint == fingerprint && v.incidents[id].state == Open && v.incidents[id].createdAt == now
    && v.deliveries == w.deliveries + (if c.maxNotificationsPerIncident > 0 then [id] else [])
    && forall x: Id :: x in w.incidents ==> x in v.incidents && v.incidents[x] == w.incidents[x]
  }

  lemma EmitOpens(c: Config, w: World, fingerprint: string, now: int)
    requires Existing(w, fingerprint).None? && NextId(w, now) !in w.incidents
    requires |Pruned(w.creationTimestamps, now - c.dedupWindowMs)| < c.maxIncidentsPerWindow
    ensures HasOpened(c, w, Emit(c, w, fingerprint, false, now), NextId(w, now), fingerprint, now)
  {
    assert Existing(w.(clock := now), fingerprint) == Existing(w, fingerprint);
    assert w.deliveries + [] == w.deliveries;
  }

  lemma EmitIgnores(c: Config, w: World, fingerprint: string, now: int)
    requires Existing(w, fingerprint).None?
    requires |Pruned(w.creationTimestamps, now - c.dedupWindowMs)| >= c.maxIncidentsPerWindow
    ensures Ignored(w, Emit(c, w, fingerprint, false, now))
  {
    assert Existing(w.(clock := now), fingerprint) == Existing(w, fingerprint);
  }

  lemma PrunedWorldKeepsInv(c: Config, w: World, start: int, now: int) returns (v: World)
    requires Inv(c, w, start) && now >= w.clock
    ensures Inv(c, v, start) && v.clock == now && v.counter == w.counter && v.incidents == w.incidents
    ensures v.creationTimestamps == Pruned(w.creationTimestamps, now - c.dedupWindowMs)
  {
    var u := w.(clock := now);
    AdvanceClock(c, w, now, start);
    PruneKeepsInv(c, u, start);
    v := PrunedWorld(c, u);
  }

  lemma IdIsNew(c: Config, w: World, start: int, now: int)
    requires ConfigOk(c) && Inv(c, w, start) && now >= w.clock
    requires |Pruned(w.creationTimestamps, now - c.dedupWindowMs)| < c.maxIncidentsPerWindow
    ensures NextId(w, now) !in w.incidents
  {
    var v := PrunedWorldKeepsInv(c, w, start, now);
    NextIdIsNew(c, v, start);
  }

  /** An alert without an unresolved incident opens one exactly if fewer than the limit were
      created in the window. Otherwise nothing is opened or delivered. */
  lemma NewAlertOpens(c: Config, w: World, start: int, fingerprint: string, now: int)
    requires ConfigOk(c) && Inv(c, w, start) && now >= w.clock && Existing(w, fingerprint).None?
    ensures var v := Emit(c, w, fingerprint, false, now);
      if RecentlyCreated(c, w, now) >= c.maxIncidentsPerWindow then Ignored(w, v)
      else HasOpened(c, w, v, NextId(w, now), fingerprint, now)
  {
    TimesAscend(c, w, start);
    PrunedAreRecent(w.creationTimestamps, now - c.dedupWindowMs);
    if RecentlyCreated(c, w, now) < c.maxIncidentsPerWindow {
      IdIsNew(c, w, start, now);
      EmitOpens(c, w, fingerprint, now);
    } else {
      EmitIgnores(c, w, fingerprint, now);
    }
  }

  // ---------------------------------------------------------------------------
  // Resolving alerts
  // ---------------------------------------------------------------------------

  /** The incident is delivered once more, unless its limit is reached. */
  predicate DeliveredOnce(c: Config, w: World, v: World, id: Id)
    requires id in w.incidents
  {
    v.deliveries == w.deliveries + if w.incidents[id].notificationCount < c.maxNotificationsPerIncident then [id] else []
  }

  /** A resolving alert resolves the unresolved incident of its fingerprint, frees the
      fingerprint and is delivered within the limit; without one it does nothing. */
  lemma ResolvingAlertCloses(c: Config, w: World, fingerprint: string, now: int)
    ensures var v, existing := Emit(c, w, fingerprint, true, now), Existing(w, fingerprint);
      && (existing.None? ==> v == w)
      && (existing.Some? ==>
            var id := existing.value;
            && id in w.incidents && id in v.incidents && v.incidents[id].state == Resolved
            && v.openByFingerprint == w.openByFingerprint - {w.incidents[id].fingerprint}
            && DeliveredOnce(c, w, v, id) && v.created == w.created
            && forall x: Id :: x in w.incidents && x != id ==> x in v.incidents && v.incidents[x] == w.incidents[x])
  {
    assert w.deliveries + [] == w.deliveries;
  }

  /** The incident an alert repeats: the unresolved one of its fingerprint. */
  lemma ExistingIs(c: Config, w: World, start: int, fingerprint: string, id: Id)
    requires Inv(c, w, start)
    ensures Existing(w, fingerprint) == Some(id) <==>
            id in w.incidents && w.incidents[id].fingerprint == fingerprint && w.incidents[id].state != Resolved
  {
    assert IndexedAs(w, fingerprint, id) <==> OpenAs(w, fingerprint, id);
    if fingerprint in w.openByFingerprint {
      var x := w.openByFingerprint[fingerprint];
      assert IndexedAs(w, fingerprint, x) <==> OpenAs(w, fingerprint, x);
    }
  }

  // ---------------------------------------------------------------------------
  // Acknowledging and resolving by hand
  // ---------------------------------------------------------------------------

  /** An unresolved incident that is acknowledged stays unresolved and is left alone by every
      later tick; nothing else changes. */
  lemma AcknowledgedIsQuiet(c: Config, w: World, id: Id, now: int)
    requires id in w.incidents && w.incidents[id].state != Resolved
    ensures var v := Acknowledge(w, id);
      && v == w.(incidents := v.incidents) && v.incidents.Keys == w.incidents.Keys
      && v.incidents[id] == w.incidents[id].(state := Acknowledged) && TickOne(c, v, id, now) == v
      && forall x: Id :: x in w.incidents && x != id ==> v.incidents[x] == w.incidents[x]
  {
  }

  /** Resolving by hand does what a resolving alert does, and nothing to a resolved incident. */
  lemma ResolvedByHand(c: Config, w: World, id: Id, now: int)
    requires id in w.incidents
    ensures var v := Resolve(c, w, id, now);
      && id in v.incidents && v.incidents[id].state == Resolved
      && (w.incidents[id].state == Resolved ==> v == w)
      && (w.incidents[id].state != Resolved ==>
            DeliveredOnce(c, w, v, id) && v.openByFingerprint == w.openByFingerprint - {w.incidents[id].fingerprint})
  {
    assert w.deliveries + [] == w.deliveries;
  }

  // ---------------------------------------------------------------------------
  // Ticks
  // ---------------------------------------------------------------------------

  /** How long the incident has been silent. */
  function Silence(i: Incident, now: int): int {
    match i.lastNotifiedAt
    case Some(at) => now - at
    case None => now - i.createdAt
  }

  predicate EscalationDue(c: Config, i: Incident, now: int) {
    i.state == Open && Silence(i, now) >= c.escalationDelayMs
  }

  predicate NoticeDue(c: Config, i: Incident, now: int) {
    EscalationDue(c, i, now) || ((i.state == Open || i.state == Escalated) && Silence(i, now) >= c.renotifyDelayMs)
  }

  /** What a tick makes of an incident: it escalates an open one that has been silent too long,
      and notifies again, within the limit, what is due. */
  function Ticked(c: Config, i: Incident, now: int): Incident {
    var j := if EscalationDue(c, i, now) then i.(state := Escalated) else i;
    if NoticeDue(c, i, now) && i.notificationCount < c.maxNotificationsPerIncident
    then j.(notificationCount := j.notificationCount + 1, lastNotifiedAt := Some(now)) else j
  }

  lemma TickOneIs(c: Config, w: World, id: Id, now: int)
    requires id in w.incidents
    ensures var v := TickOne(c, w, id, now);
      && v.incidents == w.incidents[id := Ticked(c, w.incidents[id], now)]
      && v.openByFingerprint == w.openByFingerprint && v.created == w.created && v.order == w.order
      && v.deliveries == w.deliveries +
           if NoticeDue(c, w.incidents[id], now) && w.incidents[id].notificationCount < c.maxNotificationsPerIncident
           then [id] else []
  {
    assert w.incidents == w.incidents[id := w.incidents[id]];
    assert w.deliveries + [] == w.deliveries;
  }

  /** A whole tick does this to every incident it lists, and to no other. */
  lemma {:induction false} TickAllIs(c: Config, w: World, ids: seq<Id>, k: nat, now: int, x: Id)
    requires k <= |ids| && Distinct(ids) && (forall j :: 0 <= j < |ids| ==> ids[j] in w.incidents) && x in w.incidents
    ensures var v := TickAll(c, w, ids, k, now);
      && v.incidents.Keys == w.incidents.Keys
      && v.incidents[x] == if x in ids[..k] then Ticked(c, w.incidents[x], now) else w.incidents[x]
    decreases k
  {
    if k > 0 {
      TickAllIs(c, w, ids, k - 1, now, x);
      TickAllIs(c, w, ids, k - 1, now, ids[k - 1]);
      assert ids[..k] == ids[..k - 1] + [ids[k - 1]];
      assert ids[k - 1] !in ids[..k - 1];
      TickOneIs(c, TickAll(c, w, ids, k - 1, now), ids[k - 1], now);
    }
  }
}
