/**
 The recovery gate: after a trip, a coverage type publishes again only after a
 cooldown and a sustained run of healthy, corroborated canary readings.
 */
module RecoveryGate {
  import opened Wrappers

  datatype Admission = Publish | Canary | Hold

  datatype Config = Config(cooldownMs: real, healthyReadingsToGraduate: real, minimumCanaryDurationMs: real,
                           minimumCorroboratingPeers: real)

  datatype Mode = Normal | Open | Trial

  datatype State = State(mode: Mode, resumeAt: real, canaryStartedAt: real, healthyReadings: nat,
                         lastCanaryReadingAt: real, reason: Option<string>)

  const Untouched := State(Normal, 0.0, 0.0, 0, 0.0, None)

  datatype Error = InvalidConfiguration

  predicate IsInteger(x: real) {
    x == x.Floor as real
  }

  predicate IsConfig(c: Config) {
    && IsInteger(c.healthyReadingsToGraduate) && c.healthyReadingsToGraduate >= 2.0
    && IsInteger(c.minimumCorroboratingPeers) && c.minimumCorroboratingPeers >= 1.0
    && c.cooldownMs >= 0.0 && c.minimumCanaryDurationMs >= 0.0
  }

  /** A reading as the gate sees it. */
  datatype Reading = Reading(coverageType: string, triggered: bool, degraded: bool)

  predicate Healthy(r: Reading) {
    !r.triggered && !r.degraded
  }

  predicate Corroborated(c: Config, peers: real) {
    IsInteger(peers) && peers >= c.minimumCorroboratingPeers
  }

  // ---------------------------------------------------------------------------
  // Transitions of one coverage type
  // ---------------------------------------------------------------------------

  function Tripped(c: Config, reason: string, now: real): State {
    State(Open, now + c.cooldownMs, 0.0, 0, 0.0, Some(reason))
  }

  function Admit(c: Config, s: State, r: Reading, peers: real, now: real): (State, Admission) {
    if !Healthy(r) then (Tripped(c, if r.degraded then "degraded reading" else "triggered reading", now), Hold)
    else
      match s.mode
      case Normal => (s, if Corroborated(c, peers) then Publish else Hold)
      case Open =>
        if now < s.resumeAt || !Corroborated(c, peers) then (s, Hold)
        else (State(Trial, s.resumeAt, now, 1, now, s.reason), Canary)
      case Trial =>
        if !Corroborated(c, peers) || now <= s.lastCanaryReadingAt then (Tripped(c, "canary corroboration lost", now), Hold)
        else if (s.healthyReadings + 1) as real >= c.healthyReadingsToGraduate
                && now - s.canaryStartedAt >= c.minimumCanaryDurationMs
        then (State(Normal, s.resumeAt, s.canaryStartedAt, 0, now, None), Canary)
        else (s.(lastCanaryReadingAt := now, healthyReadings := s.healthyReadings + 1), Canary)
  }

  /** Whether this reading trips the gate. */
  predicate Trips(c: Config, s: State, r: Reading, peers: real, now: real) {
    !Healthy(r) || (s.mode == Trial && (!Corroborated(c, peers) || now <= s.lastCanaryReadingAt))
  }

  // ---------------------------------------------------------------------------
  // Runs
  // ---------------------------------------------------------------------------

  datatype Call =
    | TripCall(coverageType: string, reason: string, now: real)
    | AdmitCall(reading: Reading, peers: real, now: real)

  type States = map<string, State>

  function StateFor(states: States, cov: string): State {
    if cov in states then states[cov] else Untouched
  }

  function CoverageOf(call: Call): string {
    if call.TripCall? then call.coverageType else call.reading.coverageType
  }

  function After(c: Config, states: States, call: Call): States {
    var cov := CoverageOf(call);
    match call
    case TripCall(_, reason, now) => states[cov := Tripped(c, reason, now)]
    case AdmitCall(r, peers, now) => states[cov := Admit(c, StateFor(states, cov), r, peers, now).0]
  }

  /** What a call did: it tripped the gate, or a reading got an answer. */
  datatype Event = Trip(now: real) | Answered(answer: Admission, corroborated: bool, healthy: bool, now: real)

  function EventOf(c: Config, states: States, call: Call): Event {
    match call
    case TripCall(_, _, now) => Trip(now)
    case AdmitCall(r, peers, now) =>
      var s := StateFor(states, r.coverageType);
      if Trips(c, s, r, peers, now) then Trip(now)
      else Answered(Admit(c, s, r, peers, now).1, Corroborated(c, peers), Healthy(r), now)
  }

  /** The states after the first `k` calls. */
  function StatesAt(c: Config, calls: seq<Call>, k: nat): States
    requires k <= |calls|
  {
    if k == 0 then map[] else After(c, StatesAt(c, calls, k - 1), calls[k - 1])
  }

  /** The events of `cov` among the first `k` calls. */
  function Events(c: Config, calls: seq<Call>, cov: string, k: nat): seq<Event>
    requires k <= |calls|
  {
    if k == 0 then []
    else
      Events(c, calls, cov, k - 1)
      + if CoverageOf(calls[k - 1]) == cov then [EventOf(c, StatesAt(c, calls, k - 1), calls[k - 1])] else []
  }

  /** The position of the last trip, if any. */
  function LastTrip(es: seq<Event>): Option<nat> {
    if es == [] then None
    else if es[|es| - 1].Trip? then Some(|es| - 1)
    else LastTrip(es[..|es| - 1])
  }

  // ---------------------------------------------------------------------------
  // What every call keeps
  // ---------------------------------------------------------------------------

  predicate IsCanary(e: Event) {
    e.Answered? && e.answer == Canary && e.corroborated && e.healthy
  }

  predicate IsHold(e: Event) {
    e.Answered? && e.answer == Hold && e.healthy
  }

  predicate IsSettled(e: Event) {
    e.Answered? && e.answer != Canary && e.healthy && (e.answer == Publish ==> e.corroborated)
  }

  /** After the trip at `t` come only holds up to `i`, then only canaries at increasing
      times up to `j`, the first of them after the cooldown, then only publishes and holds. */
  ghost predicate Phases(c: Config, es: seq<Event>, t: nat, i: nat, j: nat) {
    && t < i <= j <= |es| && es[t].Trip?
    && (forall k :: t < k < i ==> IsHold(es[k]))
    && (forall k :: i <= k < j ==> IsCanary(es[k]))
    && (forall k, l :: i <= k < l < j ==> es[k].now < es[l].now)
    && (i < j ==> es[i].now >= es[t].now + c.cooldownMs)
    && (forall k :: j <= k < |es| ==> IsSettled(es[k]))
  }

  /** Enough canaries over a long enough time. */
  predicate Graduated(c: Config, es: seq<Event>, i: nat, j: nat) {
    && i < j <= |es| && (j - i) as real >= c.healthyReadingsToGraduate
    && es[j - 1].now - es[i].now >= c.minimumCanaryDurationMs
  }

  predicate Matches(c: Config, s: State, es: seq<Event>, t: nat, i: nat, j: nat) {
    t < |es| && i <= j <= |es| &&
    match s.mode
    case Open => i == j == |es| && s.resumeAt == es[t].now + c.cooldownMs
    case Trial =>
      && i < j == |es| && s.healthyReadings == j - i
      && s.canaryStartedAt == es[i].now && s.lastCanaryReadingAt == es[j - 1].now && !Graduated(c, es, i, j)
    case Normal => Graduated(c, es, i, j)
  }

  ghost predicate Consistent(c: Config, s: State, es: seq<Event>) {
    match LastTrip(es)
    case None => s.mode == Normal
    case Some(t) => exists i: nat, j: nat :: Phases(c, es, t, i, j) && Matches(c, s, es, t, i, j)
  }

  lemma LastTripNext(es: seq<Event>, e: Event)
    ensures LastTrip(es + [e]) == if e.Trip? then Some(|es|) else LastTrip(es)
  {
    assert (es + [e])[..|es|] == es;
  }

  lemma TripConsistent(c: Config, es: seq<Event>, reason: string, now: real)
    requires IsConfig(c)
    ensures Consistent(c, Tripped(c, reason, now), es + [Trip(now)])
  {
    var more := es + [Trip(now)];
    LastTripNext(es, Trip(now));
    assert Phases(c, more, |es|, |more|, |more|) && Matches(c, Tripped(c, reason, now), more, |es|, |more|, |more|);
  }

  /** The phases after one more answer. */
  lemma PhasesNext(c: Config, es: seq<Event>, e: Event, t: nat, i: nat, j: nat, i': nat, j': nat)
    requires Phases(c, es, t, i, j) && e.Answered?
    requires
      || (i' == i && j' == j && i < j && IsSettled(e))
      || (i' == i + 1 && j' == j + 1 && i == j == |es| && IsHold(e))
      || (i' == i && j' == j + 1 && j == |es| && IsCanary(e)
          && if i < j then es[j - 1].now < e.now else e.now >= es[t].now + c.cooldownMs)
    ensures Phases(c, es + [e], t, i', j')
  {
    var more := es + [e];
    assert forall k :: 0 <= k < |es| ==> more[k] == es[k];
    forall k, l | i' <= k < l < j'
      ensures more[k].now < more[l].now
    {
      if l == |es| && k < j - 1 {
        assert es[k].now < es[j - 1].now;
      }
    }
  }

  lemma AnswerMatches(c: Config, s: State, es: seq<Event>, r: Reading, peers: real, now: real, t: nat, i: nat, j: nat)
    returns (i': nat, j': nat)
    requires IsConfig(c) && Phases(c, es, t, i, j) && Matches(c, s, es, t, i, j) && !Trips(c, s, r, peers, now)
    ensures var (s', answer) := Admit(c, s, r, peers, now);
      var more := es + [Answered(answer, Corroborated(c, peers), Healthy(r), now)];
      Phases(c, more, t, i', j') && Matches(c, s', more, t, i', j')
  {
    var (s', answer) := Admit(c, s, r, peers, now);
    var e := Answered(answer, Corroborated(c, peers), Healthy(r), now);
    match s.mode
    case Normal =>
      i', j' := i, j;
      PhasesNext(c, es, e, t, i, j, i', j');
    case Open =>
      i', j' := if answer == Hold then i + 1 else i, j + 1;
      PhasesNext(c, es, e, t, i, j, i', j');
    case Trial =>
      i', j' := i, j + 1;
      PhasesNext(c, es, e, t, i, j, i', j');
  }

  lemma AnswerConsistent(c: Config, s: State, es: seq<Event>, r: Reading, peers: real, now: real)
    requires IsConfig(c) && Consistent(c, s, es) && !Trips(c, s, r, peers, now)
    ensures var (s', answer) := Admit(c, s, r, peers, now);
      Consistent(c, s', es + [Answered(answer, Corroborated(c, peers), Healthy(r), now)])
  {
    LastTripNext(es, Answered(Admit(c, s, r, peers, now).1, Corroborated(c, peers), Healthy(r), now));
    if LastTrip(es).Some? {
      var t := LastTrip(es).value;
      var i: nat, j: nat :| Phases(c, es, t, i, j) && Matches(c, s, es, t, i, j);
      var i', j' := AnswerMatches(c, s, es, r, peers, now, t, i, j);
    }
  }

  lemma {:induction false} RunConsistent(c: Config, calls: seq<Call>, cov: string, k: nat)
    requires IsConfig(c) && k <= |calls|
    ensures Consistent(c, StateFor(StatesAt(c, calls, k), cov), Events(c, calls, cov, k))
  {
    if k > 0 {
      RunConsistent(c, calls, cov, k - 1);
      var before, es, call := StatesAt(c, calls, k - 1), Events(c, calls, cov, k - 1), calls[k - 1];
      if CoverageOf(call) != cov {
        assert es + [] == es;
      } else if call.TripCall? {
        TripConsistent(c, es, call.reason, call.now);
      } else {
        var s := StateFor(before, cov);
        if Trips(c, s, call.reading, call.peers, call.now) {
          TripConsistent(c, es, Admit(c, s, call.reading, call.peers, call.now).0.reason.value, call.now);
        } else {
          AnswerConsistent(c, s, es, call.reading, call.peers, call.now);
        }
      }
    }
  }

  /** The history since a trip has one run of canaries at most. */
  lemma OneCanaryRun(c: Config, es: seq<Event>, t: nat, i: nat, j: nat, a: nat, b: nat)
    requires Phases(c, es, t, i, j) && Phases(c, es, t, a, b) && i < j
    ensures i == a && j == b
  {
    assert IsCanary(es[i]) && IsCanary(es[j - 1]);
    if a < b {
      assert IsCanary(es[a]) && IsCanary(es[b - 1]);
    }
  }

  /** A gate whose canaries have graduated is back to normal. */
  lemma GraduatedIsNormal(c: Config, s: State, es: seq<Event>, t: nat, i: nat, j: nat)
    requires Consistent(c, s, es) && LastTrip(es) == Some(t) && Phases(c, es, t, i, j) && Graduated(c, es, i, j)
    ensures s.mode == Normal
  {
    var a: nat, b: nat :| Phases(c, es, t, a, b) && Matches(c, s, es, t, a, b);
    OneCanaryRun(c, es, t, i, j, a, b);
  }

  ghost predicate HasGraduated(c: Config, es: seq<Event>) {
    LastTrip(es).Some? && exists i: nat, j: nat :: Phases(c, es, LastTrip(es).value, i, j) && Graduated(c, es, i, j)
  }

  /** In every run, a reading after a trip is published exactly if it is healthy and
      corroborated and since the last trip there have been at least
      `healthyReadingsToGraduate` canary answers in a row, at strictly increasing times,
      none before the cooldown, spanning at least `minimumCanaryDurationMs`, each healthy
      and corroborated, with nothing but holds before them and publishes and holds after. */
  lemma PublishIffCanary(c: Config, calls: seq<Call>, k: nat)
    requires IsConfig(c) && k < |calls| && calls[k].AdmitCall?
    requires LastTrip(Events(c, calls, CoverageOf(calls[k]), k)).Some?
    ensures var call := calls[k];
      Admit(c, StateFor(StatesAt(c, calls, k), call.reading.coverageType), call.reading, call.peers, call.now).1 == Publish
      <==> IsGood(c, call) && HasGraduated(c, Events(c, calls, CoverageOf(call), k))
  {
    var cov := CoverageOf(calls[k]);
    var s, es := StateFor(StatesAt(c, calls, k), cov), Events(c, calls, cov, k);
    RunConsistent(c, calls, cov, k);
    if HasGraduated(c, es) {
      var i: nat, j: nat :| Phases(c, es, LastTrip(es).value, i, j) && Graduated(c, es, i, j);
      GraduatedIsNormal(c, s, es, LastTrip(es).value, i, j);
    }
  }

  /** A reading that is neither triggered nor degraded, with a whole number of peers that is
      at least the minimum. */
  predicate IsGood(c: Config, call: Call)
    requires call.AdmitCall?
  {
    && !call.reading.triggered && !call.reading.degraded
    && call.peers == call.peers.Floor as real && call.peers >= c.minimumCorroboratingPeers
  }

  /** No canary was answered after the trip at `t`. */
  predicate NoCanary(es: seq<Event>, t: nat) {
    forall k :: 0 <= k < |es| && k > t ==> !(es[k].Answered? && es[k].answer == Canary)
  }

  /** A canary answer is due: the first one at or past the cooldown, or one later than the last. */
  predicate CanaryDue(c: Config, es: seq<Event>, t: nat, now: real)
    requires t < |es|
  {
    if NoCanary(es, t) then now >= es[t].now + c.cooldownMs else now > es[|es| - 1].now
  }

  lemma CanaryOf(c: Config, s: State, es: seq<Event>, t: nat, i: nat, j: nat, r: Reading, peers: real, now: real)
    requires Phases(c, es, t, i, j) && Matches(c, s, es, t, i, j)
    ensures Admit(c, s, r, peers, now).1 == Canary <==>
            Healthy(r) && Corroborated(c, peers) && s.mode != Normal && CanaryDue(c, es, t, now)
  {
    if s.mode == Trial {
      assert IsCanary(es[i]);
    }
  }

  /** In every run, a reading after a trip gets a canary answer exactly if it is healthy and
      corroborated, the canaries have not graduated, and one is due. */
  lemma CanaryIff(c: Config, calls: seq<Call>, k: nat)
    requires IsConfig(c) && k < |calls| && calls[k].AdmitCall?
    requires LastTrip(Events(c, calls, CoverageOf(calls[k]), k)).Some?
    ensures var call, es := calls[k], Events(c, calls, CoverageOf(calls[k]), k);
      && LastTrip(es).value < |es|
      && (Admit(c, StateFor(StatesAt(c, calls, k), call.reading.coverageType), call.reading, call.peers, call.now).1 == Canary
          <==> IsGood(c, call) && !HasGraduated(c, es) && CanaryDue(c, es, LastTrip(es).value, call.now))
  {
    var cov := CoverageOf(calls[k]);
    var s, es := StateFor(StatesAt(c, calls, k), cov), Events(c, calls, cov, k);
    RunConsistent(c, calls, cov, k);
    var t := LastTrip(es).value;
    var i: nat, j: nat :| Phases(c, es, t, i, j) && Matches(c, s, es, t, i, j);
    NotYetGraduated(c, s, es, t, i, j);
    CanaryOf(c, s, es, t, i, j, calls[k].reading, calls[k].peers, calls[k].now);
  }

  lemma NotYetGraduated(c: Config, s: State, es: seq<Event>, t: nat, i: nat, j: nat)
    requires LastTrip(es) == Some(t) && Phases(c, es, t, i, j) && Matches(c, s, es, t, i, j)
    ensures HasGraduated(c, es) <==> s.mode == Normal
  {
    if HasGraduated(c, es) {
      var a: nat, b: nat :| Phases(c, es, t, a, b) && Graduated(c, es, a, b);
      GraduatedIsNormal(c, s, es, t, a, b);
    }
  }

  // ---------------------------------------------------------------------------
  // Graduation
  // ---------------------------------------------------------------------------

  /** The state after healthy, corroborated readings at the first `k` of the given times. */
  function AfterHealthy(c: Config, s: State, r: Reading, peers: real, times: seq<real>, k: nat): State
    requires k <= |times|
  {
    if k == 0 then s else Admit(c, AfterHealthy(c, s, r, peers, times, k - 1), r, peers, times[k - 1]).0
  }

  /** The first `j` times are enough canaries over a long enough time. */
  predicate Enough(c: Config, times: seq<real>, j: nat) {
    && 1 <= j <= |times| && j as real >= c.healthyReadingsToGraduate
    && times[j - 1] - times[0] >= c.minimumCanaryDurationMs
  }

  ghost predicate EnoughBy(c: Config, times: seq<real>, k: nat) {
    exists j: nat :: j <= k && Enough(c, times, j)
  }

  predicate Increasing(times: seq<real>) {
    forall i, j :: 0 <= i < j < |times| ==> times[i] < times[j]
  }

  /** A tripped gate is back to normal exactly once there have been enough healthy,
      corroborated readings since the cooldown, one later than the other. */
  lemma {:induction false} GraduatesIff(c: Config, reason: string, trippedAt: real, r: Reading, peers: real, times: seq<real>, k: nat)
    requires IsConfig(c) && Healthy(r) && Corroborated(c, peers) && Increasing(times)
    requires 1 <= k <= |times| && times[0] >= trippedAt + c.cooldownMs
    ensures var s := AfterHealthy(c, Tripped(c, reason, trippedAt), r, peers, times, k);
      && (s.mode == Normal <==> EnoughBy(c, times, k))
      && (s.mode != Normal ==> s.mode == Trial && s.healthyReadings == k && s.canaryStartedAt == times[0]
                               && s.lastCanaryReadingAt == times[k - 1])
    decreases k
  {
    var open := Tripped(c, reason, trippedAt);
    if k == 1 {
      assert AfterHealthy(c, open, r, peers, times, 0) == open;
      assert !EnoughBy(c, times, 1);
    } else {
      GraduatesIff(c, reason, trippedAt, r, peers, times, k - 1);
      assert EnoughBy(c, times, k) <==> EnoughBy(c, times, k - 1) || Enough(c, times, k);
    }
  }

  /** Nothing but a trip stops a coverage type that was never tripped from publishing. */
  lemma UntrippedPublishes(c: Config, calls: seq<Call>, k: nat)
    requires IsConfig(c) && k < |calls| && calls[k].AdmitCall?
    requires LastTrip(Events(c, calls, CoverageOf(calls[k]), k)).None?
    ensures var call := calls[k];
      Admit(c, StateFor(StatesAt(c, calls, k), call.reading.coverageType), call.reading, call.peers, call.now).1 == Publish
      <==> IsGood(c, call)
  {
    RunConsistent(c, calls, CoverageOf(calls[k]), k);
  }

  // ---------------------------------------------------------------------------
  // The gate
  // ---------------------------------------------------------------------------

  class OracleRecoveryGate {
    const config: Config
    var states: States

    constructor (config: Config)
      requires IsConfig(config)
      ensures this.config == config && states == map[]
    {
      this.config, states := config, map[];
    }

    method TripGate(coverageType: string, reason: string, now: real)
      modifies this
      ensures states == After(config, old(states), TripCall(coverageType, reason, now))
    {
      states := states[coverageType := State(Open, now + config.cooldownMs, 0.0, 0, 0.0, Some(reason))];
    }

    method AdmitReading(reading: Reading, peers: real, now: real) returns (answer: Admission)
      modifies this
      ensures states == After(config, old(states), AdmitCall(reading, peers, now))
      ensures answer == Admit(config, StateFor(old(states), reading.coverageType), reading, peers, now).1
    {
      var cov := reading.coverageType;
      var state := StateFor(states, cov);
      states := states[cov := state];
      if reading.triggered || reading.degraded {
        TripGate(cov, if reading.degraded then "degraded reading" else "triggered reading", now);
        return Hold;
      }
      var corroborated := Corroborated(config, peers);
      if state.mode == Normal {
        return if corroborated then Publish else Hold;
      }
      if state.mode == Open {
        if now < state.resumeAt || !corroborated {
          return Hold;
        }
        state := state.(mode := Trial, canaryStartedAt := now, lastCanaryReadingAt := now, healthyReadings := 1);
        states := states[cov := state];
        return Canary;
      }
      if !corroborated || now <= state.lastCanaryReadingAt {
        TripGate(cov, "canary corroboration lost", now);
        return Hold;
      }
      state := state.(lastCanaryReadingAt := now, healthyReadings := state.healthyReadings + 1);
      if state.healthyReadings as real >= config.healthyReadingsToGraduate
         && now - state.canaryStartedAt >= config.minimumCanaryDurationMs
      {
        state := state.(mode := Normal, reason := None, healthyReadings := 0);
      }
      states := states[cov := state];
      return Canary;
    }
  }

  /** The constructor's check. */
  method CreateGate(config: Config) returns (r: Result<OracleRecoveryGate, Error>)
    ensures r.Success? <==>
            && config.healthyReadingsToGraduate >= 2.0 && config.healthyReadingsToGraduate.Floor as real == config.healthyReadingsToGraduate
            && config.minimumCorroboratingPeers >= 1.0 && config.minimumCorroboratingPeers.Floor as real == config.minimumCorroboratingPeers
            && config.cooldownMs >= 0.0 && config.minimumCanaryDurationMs >= 0.0
    ensures r.Success? ==> r.value.config == config && r.value.states == map[]
  {
    if !IsConfig(config) {
      return Failure(InvalidConfiguration);
    }
    var gate := new OracleRecoveryGate(config);
    r := Success(gate);
  }
}
