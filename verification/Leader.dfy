/**
 The Redis-backed leader lease.

 Any number of elector instances share one Redis key with an expiry, one epoch
 counter and one clock. Sending a command, executing it in Redis and receiving
 its reply are separate steps; a command whose caller has given up may still
 take effect later, in any order, and a reply may be lost. At most one instance
 whose shutdown release has not taken effect is leader, in every run. Fencing tokens grow strictly
 from lease to lease as long as no late `SET NX` is granted to an instance that
 already holds a grant.
 */
module Leader {
  import opened Wrappers

  type Id = nat

  // ---------------------------------------------------------------------------
  // Redis
  // ---------------------------------------------------------------------------

  /** The lease key. `lease` numbers the grant that created it (bookkeeping). */
  datatype Key = Key(owner: Id, expiry: int, lease: nat)

  /** History of one successful `SET NX`: who got it, the epoch counter just
      before, and the fencing token later handed out under it. */
  datatype Grant = Grant(owner: Id, epochBefore: nat, token: Option<nat>)

  datatype Redis = Redis(key: Option<Key>, epoch: nat, grants: seq<Grant>)

  datatype Op = SetNx | Incr | RenewScript | ReleaseScript

  datatype Reply = Granted(lease: nat) | Refused | Counter(value: nat) | Flag(ok: bool)

  predicate Owns(r: Redis, id: Id) {
    r.key.Some? && r.key.value.owner == id
  }

  /** One atomic Redis command issued by instance `caller` at time `clock`. */
  function Execute(r: Redis, caller: Id, op: Op, clock: int, ttl: nat): (Redis, Reply) {
    match op
    case SetNx =>
      if r.key.None? then
        (r.(key := Some(Key(caller, clock + ttl, |r.grants|)),
            grants := r.grants + [Grant(caller, r.epoch, None)]),
         Granted(|r.grants|))
      else (r, Refused)
    case Incr => (r.(epoch := r.epoch + 1), Counter(r.epoch + 1))
    case RenewScript =>
      if Owns(r, caller) then (r.(key := Some(r.key.value.(expiry := clock + ttl))), Flag(true))
      else (r, Flag(false))
    case ReleaseScript =>
      if Owns(r, caller) then (r.(key := None), Flag(true)) else (r, Flag(false))
  }

  // ---------------------------------------------------------------------------
  // One elector instance
  // ---------------------------------------------------------------------------

  /** Where the tick in progress is suspended. `startedAt` is the clock read
      before the first command of the tick was sent. */
  datatype Wait =
    | Idle
    | AwaitSet(startedAt: int)
    | AwaitIncr(startedAt: int, granted: nat)
    | AwaitRenew(startedAt: int)

  /** The fields of one elector. `lease` remembers which grant the token belongs to. */
  datatype Local = Local(fencingToken: Option<nat>, leaseDeadline: int, wait: Wait,
                         timerOn: bool, releasing: bool, lease: nat)

  const Fresh := Local(None, 0, Idle, true, false, 0)

  predicate IsLeader(l: Local, now: int) {
    l.fencingToken.Some? && now < l.leaseDeadline
  }

  function StepDown(l: Local): Local {
    l.(fencingToken := None, leaseDeadline := 0)
  }

  function BeginTick(l: Local, now: int): Local {
    l.(wait := if l.fencingToken.None? then AwaitSet(now) else AwaitRenew(now))
  }

  function OnSetReply(l: Local, reply: Reply): Local
    requires l.wait.AwaitSet?
  {
    if reply.Granted? then l.(wait := AwaitIncr(l.wait.startedAt, reply.lease)) else l.(wait := Idle)
  }

  function OnIncrReply(l: Local, value: nat, ttl: nat): Local
    requires l.wait.AwaitIncr?
  {
    l.(fencingToken := Some(value), leaseDeadline := l.wait.startedAt + ttl,
       lease := l.wait.granted, wait := Idle)
  }

  function OnRenewReply(l: Local, ok: bool, ttl: nat): Local
    requires l.wait.AwaitRenew?
  {
    if ok then l.(leaseDeadline := l.wait.startedAt + ttl, wait := Idle)
    else StepDown(l).(wait := Idle)
  }

  /** A Redis error inside a tick: give up waiting and step down if leading. */
  function OnTickError(l: Local): Local {
    (if l.fencingToken.Some? then StepDown(l) else l).(wait := Idle)
  }

  /** Shutdown stops the timer; the lease is released only if a token is held. */
  function BeginShutdown(l: Local): Local {
    l.(timerOn := false, releasing := l.fencingToken.Some?)
  }

  function EndRelease(l: Local): Local {
    StepDown(l).(releasing := false)
  }

  /** The elector object: each method is the code between two suspension points. */
  class LeaderElector {
    const leaseTtlMs: nat
    var fencingToken: Option<nat>
    var leaseDeadline: int
    var wait: Wait
    var timerOn: bool
    var releasing: bool
    var lease: nat

    function View(): Local
      reads this
    {
      Local(fencingToken, leaseDeadline, wait, timerOn, releasing, lease)
    }

    constructor (ttl: nat)
      ensures View() == Fresh && leaseTtlMs == ttl
    {
      leaseTtlMs := ttl;
      fencingToken, leaseDeadline, wait := None, 0, Idle;
      timerOn, releasing, lease := true, false, 0;
    }

    /** The token a side-effecting step must carry, or a refusal. */
    method AssertLeadership(now: int) returns (r: Result<nat, string>)
      ensures r.Success? <==> IsLeader(View(), now)
      ensures r.Success? ==> View().fencingToken == Some(r.value)
    {
      if fencingToken.None? || now >= leaseDeadline {
        r := Failure("Oracle leadership not held; refusing side-effecting step");
      } else {
        r := Success(fencingToken.value);
      }
    }

    /** Starts a tick unless one is in progress, returning the command to send. */
    method Tick(now: int) returns (sent: Option<Op>)
      modifies this
      ensures old(wait.Idle? && timerOn) ==>
                View() == BeginTick(old(View()), now) &&
                sent == Some(if old(fencingToken.None?) then SetNx else RenewScript)
      ensures !old(wait.Idle? && timerOn) ==> View() == old(View()) && sent == None
    {
      if !wait.Idle? || !timerOn {
        return None;
      }
      if fencingToken.None? {
        wait := AwaitSet(now);
        sent := Some(SetNx);
      } else {
        wait := AwaitRenew(now);
        sent := Some(RenewScript);
      }
    }

    /** Continues `acquire` after the `SET NX` reply; the lease counter comes next. */
    method AcquireGranted(reply: Reply) returns (sent: Option<Op>)
      requires wait.AwaitSet?
      modifies this
      ensures View() == OnSetReply(old(View()), reply)
      ensures sent == if reply.Granted? then Some(Incr) else None
    {
      if reply.Granted? {
        wait := AwaitIncr(wait.startedAt, reply.lease);
        sent := Some(Incr);
      } else {
        wait := Idle;
        sent := None;
      }
    }

    method AcquireDone(value: nat)
      requires wait.AwaitIncr?
      modifies this
      ensures View() == OnIncrReply(old(View()), value, leaseTtlMs)
    {
      fencingToken := Some(value);
      leaseDeadline := wait.startedAt + leaseTtlMs;
      lease := wait.granted;
      wait := Idle;
    }

    method RenewDone(renewed: bool)
      requires wait.AwaitRenew?
      modifies this
      ensures View() == OnRenewReply(old(View()), renewed, leaseTtlMs)
    {
      if !renewed {
        StepDownNow();
      } else {
        leaseDeadline := wait.startedAt + leaseTtlMs;
      }
      wait := Idle;
    }

    method HandleRedisError()
      modifies this
      ensures View() == OnTickError(old(View()))
    {
      if fencingToken.Some? {
        StepDownNow();
      }
      wait := Idle;
    }

    method Shutdown() returns (sent: Option<Op>)
      modifies this
      ensures View() == BeginShutdown(old(View()))
      ensures sent == if old(fencingToken.Some?) then Some(ReleaseScript) else None
    {
      timerOn := false;
      releasing := fencingToken.Some?;
      sent := if fencingToken.Some? then Some(ReleaseScript) else None;
    }

    method ReleaseDone()
      modifies this
      ensures View() == EndRelease(old(View()))
    {
      StepDownNow();
      releasing := false;
    }

    method StepDownNow()
      modifies this
      ensures View() == StepDown(old(View()))
    {
      fencingToken := None;
      leaseDeadline := 0;
    }
  }

  // ---------------------------------------------------------------------------
  // The whole system and its steps
  // ---------------------------------------------------------------------------

  datatype Command = Command(seqno: nat, op: Op)

  /** An instance with the commands it has sent that have not yet taken effect,
      the command its tick waits for, and the reply if that one has executed.
      `released` notes that its shutdown release has taken effect. */
  datatype Node = Node(local: Local, outbox: seq<Command>, nextSeq: nat,
                       awaited: nat, reply: Option<Reply>, released: bool)

  const NewNode := Node(Fresh, [], 0, 0, None, false)

  /** A token returned by `assertLeadership`, with the lease it was obtained under. */
  datatype Use = Use(lease: nat, token: nat)

  datatype State = State(clock: int, redis: Redis, nodes: map<Id, Node>, log: seq<Use>)

  datatype Step =
    | Advance(ms: nat)           // time passes
    | Expire                     // Redis drops the key once its expiry is reached
    | Tick(id: Id)               // a tick starts and sends its first command
    | Exec(id: Id, at: nat)      // a sent command takes effect, at any position
    | Lose(id: Id, at: nat)      // a sent command never arrives
    | Receive(id: Id)            // the awaited reply arrives
    | Fail(id: Id)               // the tick's await rejects (reply possibly lost)
    | Shutdown(id: Id)
    | Released(id: Id)           // the release returned or failed
    | Assert(id: Id)             // assertLeadership returns a token

  function Send(n: Node, op: Op): Node {
    n.(outbox := n.outbox + [Command(n.nextSeq, op)], nextSeq := n.nextSeq + 1)
  }

  /** Sends a command and waits for its reply. */
  function SendAndWait(n: Node, op: Op): Node {
    Send(n, op).(awaited := n.nextSeq, reply := None)
  }

  function Without(outbox: seq<Command>, at: nat): seq<Command>
    requires at < |outbox|
  {
    outbox[..at] + outbox[at + 1..]
  }

  predicate Enabled(s: State, step: Step) {
    match step
    case Advance(_) => true
    case Expire => s.redis.key.Some? && s.redis.key.value.expiry <= s.clock
    case Tick(id) => id in s.nodes && s.nodes[id].local.timerOn && s.nodes[id].local.wait.Idle?
    case Exec(id, at) => id in s.nodes && at < |s.nodes[id].outbox|
    case Lose(id, at) => id in s.nodes && at < |s.nodes[id].outbox|
    case Receive(id) => id in s.nodes && !s.nodes[id].local.wait.Idle? && s.nodes[id].reply.Some?
    case Fail(id) => id in s.nodes && !s.nodes[id].local.wait.Idle?
    case Shutdown(id) => id in s.nodes && s.nodes[id].local.timerOn
    case Released(id) => id in s.nodes && s.nodes[id].local.releasing
    case Assert(id) => id in s.nodes && IsLeader(s.nodes[id].local, s.clock)
  }

  function AfterTick(s: State, n: Node): Node {
    SendAndWait(n, if n.local.fencingToken.None? then SetNx else RenewScript)
      .(local := BeginTick(n.local, s.clock))
  }

  function AfterExec(n: Node, at: nat, reply: Reply): Node
    requires at < |n.outbox|
  {
    var n' := n.(outbox := Without(n.outbox, at), released := n.released || n.outbox[at].op.ReleaseScript?);
    if !n.local.wait.Idle? && n.outbox[at].seqno == n.awaited then n'.(reply := Some(reply)) else n'
  }

  function AfterReceive(n: Node, ttl: nat): Node
    requires !n.local.wait.Idle? && n.reply.Some?
  {
    match n.local.wait
    case AwaitSet(_) =>
      var l := OnSetReply(n.local, n.reply.value);
      if l.wait.AwaitIncr? then SendAndWait(n, Incr).(local := l) else n.(local := l, reply := None)
    case AwaitIncr(_, _) =>
      if n.reply.value.Counter? then n.(local := OnIncrReply(n.local, n.reply.value.value, ttl), reply := None)
      else n
    case AwaitRenew(_) =>
      n.(local := OnRenewReply(n.local, n.reply.value == Flag(true), ttl), reply := None)
  }

  function AfterShutdown(n: Node): Node {
    (if n.local.fencingToken.Some? then Send(n, ReleaseScript) else n).(local := BeginShutdown(n.local))
  }

  /** Notes the token handed out under a lease when an acquire completes. */
  function NoteToken(r: Redis, n: Node): Redis {
    if n.local.wait.AwaitIncr? && n.local.wait.granted < |r.grants| && n.reply.Some? && n.reply.value.Counter? then
      var k := n.local.wait.granted;
      r.(grants := r.grants[k := r.grants[k].(token := Some(n.reply.value.value))])
    else r
  }

  function Apply(ttl: nat, s: State, step: Step): State
    requires Enabled(s, step)
  {
    match step
    case Advance(ms) => s.(clock := s.clock + ms)
    case Expire => s.(redis := s.redis.(key := None))
    case Tick(id) => s.(nodes := s.nodes[id := AfterTick(s, s.nodes[id])])
    case Exec(id, at) =>
      var (r, reply) := Execute(s.redis, id, s.nodes[id].outbox[at].op, s.clock, ttl);
      s.(redis := r, nodes := s.nodes[id := AfterExec(s.nodes[id], at, reply)])
    case Lose(id, at) =>
      s.(nodes := s.nodes[id := s.nodes[id].(outbox := Without(s.nodes[id].outbox, at))])
    case Receive(id) =>
      s.(redis := NoteToken(s.redis, s.nodes[id]),
         nodes := s.nodes[id := AfterReceive(s.nodes[id], ttl)])
    case Fail(id) =>
      s.(nodes := s.nodes[id := s.nodes[id].(local := OnTickError(s.nodes[id].local), reply := None)])
    case Shutdown(id) => s.(nodes := s.nodes[id := AfterShutdown(s.nodes[id])])
    case Released(id) =>
      s.(nodes := s.nodes[id := s.nodes[id].(local := EndRelease(s.nodes[id].local))])
    case Assert(id) =>
      var l := s.nodes[id].local;
      s.(log := s.log + [Use(l.lease, l.fencingToken.value)])
  }

  /** Nothing has happened yet: no key, no grants, every instance fresh. */
  ghost predicate Initial(s: State) {
    && s.redis.key.None? && s.redis.grants == [] && s.log == []
    && forall id :: id in s.nodes ==> s.nodes[id] == NewNode
  }

  /** `steps` leads from `s` to `t`, each step being possible where it is taken. */
  ghost predicate Run(ttl: nat, s: State, steps: seq<Step>, t: State)
    decreases |steps|
  {
    if steps == [] then s == t
    else Enabled(s, steps[0]) && Run(ttl, Apply(ttl, s, steps[0]), steps[1..], t)
  }

  // ---------------------------------------------------------------------------
  // Exclusion
  // ---------------------------------------------------------------------------

  /** Either `deadline` has passed, or Redis still keeps the key for `id` until then. */
  predicate Covered(s: State, id: Id, deadline: int) {
    s.clock >= deadline || (Owns(s.redis, id) && s.redis.key.value.expiry >= deadline)
  }

  predicate Matches(w: Wait, op: Op) {
    match w
    case Idle => true
    case AwaitSet(_) => op.SetNx?
    case AwaitIncr(_, _) => op.Incr?
    case AwaitRenew(_) => op.RenewScript?
  }

  predicate ReplyMatches(w: Wait, reply: Reply) {
    match w
    case Idle => true
    case AwaitSet(_) => reply.Granted? || reply.Refused?
    case AwaitIncr(_, _) => reply.Counter?
    case AwaitRenew(_) => reply.Flag?
  }

  ghost predicate Acquiring(l: Local) {
    l.wait.AwaitSet? || l.wait.AwaitIncr?
  }

  /** What every step keeps about one instance, in any order of execution. */
  ghost predicate NodeInv(ttl: nat, s: State, id: Id, n: Node) {
    var l := n.local;
    && (l.fencingToken.Some? && !n.released ==> Covered(s, id, l.leaseDeadline))
    && (!l.wait.Idle? ==> l.wait.startedAt <= s.clock && n.awaited < n.nextSeq)
    && (!l.wait.Idle? && n.reply.Some? ==> ReplyMatches(l.wait, n.reply.value))
    && (l.wait.AwaitSet? && n.reply.Some? && n.reply.value.Granted? ==>
          Covered(s, id, l.wait.startedAt + ttl))
    && (l.wait.AwaitIncr? ==> Covered(s, id, l.wait.startedAt + ttl))
    && (l.wait.AwaitRenew? && n.reply == Some(Flag(true)) && !n.released && l.fencingToken.Some? ==>
          Covered(s, id, l.wait.startedAt + ttl))
    && (Acquiring(l) ==> l.fencingToken.None?)
    && (l.releasing || n.released ==> !l.timerOn && !Acquiring(l))
    && (forall c :: c in n.outbox ==>
          && c.seqno < n.nextSeq
          && (c.seqno == n.awaited ==> Matches(l.wait, c.op))
          && (c.op.ReleaseScript? ==>
                !l.timerOn && !Acquiring(l) && (l.releasing || l.fencingToken.None?)))
  }

  ghost predicate Inv(ttl: nat, s: State) {
    && (s.redis.key.Some? ==> s.redis.key.value.expiry <= s.clock + ttl)
    && forall id :: id in s.nodes ==> NodeInv(ttl, s, id, s.nodes[id])
  }

  /** Nothing that happened between `s` and `t` shortened the cover of `id`. */
  ghost predicate CoverKept(s: State, t: State, id: Id) {
    s.clock <= t.clock && forall d :: Covered(s, id, d) ==> Covered(t, id, d)
  }

  lemma IdleNodeKeepsInv(ttl: nat, s: State, t: State, id: Id, n: Node)
    requires NodeInv(ttl, s, id, n) && CoverKept(s, t, id)
    ensures NodeInv(ttl, t, id, n)
  {
  }

  /** Only the owner's own release can cut a lease short of its expiry. */
  lemma StepKeepsCover(ttl: nat, s: State, step: Step, id: Id)
    requires Inv(ttl, s) && Enabled(s, step)
    requires step.Exec? && step.id == id ==> !s.nodes[id].outbox[step.at].op.ReleaseScript?
    ensures CoverKept(s, Apply(ttl, s, step), id)
  {
  }

  lemma ExecKeepsNode(ttl: nat, s: State, id: Id, at: nat)
    requires Inv(ttl, s) && Enabled(s, Exec(id, at))
    ensures var t := Apply(ttl, s, Exec(id, at)); NodeInv(ttl, t, id, t.nodes[id])
  {
    var n := s.nodes[id];
    assert NodeInv(ttl, s, id, n);
    var c := n.outbox[at];
    assert c in n.outbox;
    var t := Apply(ttl, s, Exec(id, at));
    assert forall x :: x in t.nodes[id].outbox ==> x in n.outbox;
    if !c.op.ReleaseScript? {
      StepKeepsCover(ttl, s, Exec(id, at), id);
    }
  }

  lemma SetReplyKeepsNode(ttl: nat, s: State, id: Id)
    requires Inv(ttl, s) && Enabled(s, Receive(id)) && s.nodes[id].local.wait.AwaitSet?
    ensures var t := Apply(ttl, s, Receive(id)); NodeInv(ttl, t, id, t.nodes[id])
  {
    assert NodeInv(ttl, s, id, s.nodes[id]);
    StepKeepsCover(ttl, s, Receive(id), id);
  }

  lemma IncrReplyKeepsNode(ttl: nat, s: State, id: Id)
    requires Inv(ttl, s) && Enabled(s, Receive(id)) && s.nodes[id].local.wait.AwaitIncr?
    ensures var t := Apply(ttl, s, Receive(id)); NodeInv(ttl, t, id, t.nodes[id])
  {
    assert NodeInv(ttl, s, id, s.nodes[id]);
    StepKeepsCover(ttl, s, Receive(id), id);
  }

  lemma RenewReplyKeepsNode(ttl: nat, s: State, id: Id)
    requires Inv(ttl, s) && Enabled(s, Receive(id)) && s.nodes[id].local.wait.AwaitRenew?
    ensures var t := Apply(ttl, s, Receive(id)); NodeInv(ttl, t, id, t.nodes[id])
  {
    assert NodeInv(ttl, s, id, s.nodes[id]);
    StepKeepsCover(ttl, s, Receive(id), id);
  }

  lemma LocalStepKeepsNode(ttl: nat, s: State, step: Step, id: Id)
    requires Inv(ttl, s) && Enabled(s, step)
    requires step == Tick(id) || step == Fail(id) || step == Shutdown(id) || step == Released(id)
          || (step.Lose? && step.id == id)
    ensures var t := Apply(ttl, s, step); NodeInv(ttl, t, id, t.nodes[id])
  {
    var n := s.nodes[id];
    assert NodeInv(ttl, s, id, n);
    StepKeepsCover(ttl, s, step, id);
    if step.Lose? {
      assert forall x :: x in Without(n.outbox, step.at) ==> x in n.outbox;
    }
  }

  lemma StepKeepsInv(ttl: nat, s: State, step: Step)
    requires Inv(ttl, s) && Enabled(s, step)
    ensures Inv(ttl, Apply(ttl, s, step))
  {
    var t := Apply(ttl, s, step);
    forall id | id in t.nodes
      ensures NodeInv(ttl, t, id, t.nodes[id])
    {
      assert NodeInv(ttl, s, id, s.nodes[id]);
      if step == Receive(id) {
        match s.nodes[id].local.wait
        case AwaitSet(_) => SetReplyKeepsNode(ttl, s, id);
        case AwaitIncr(_, _) => IncrReplyKeepsNode(ttl, s, id);
        case AwaitRenew(_) => RenewReplyKeepsNode(ttl, s, id);
      } else if step.Exec? && step.id == id {
        ExecKeepsNode(ttl, s, id, step.at);
      } else if t.nodes[id] == s.nodes[id] {
        StepKeepsCover(ttl, s, step, id);
        IdleNodeKeepsInv(ttl, s, t, id, s.nodes[id]);
      } else {
        LocalStepKeepsNode(ttl, s, step, id);
      }
    }
  }

  /** Exclusion in one state: a leader whose release has not taken effect owns the key,
      trusts it no longer than Redis does, and is the only such one. */
  ghost predicate Exclusive(s: State) {
    && (forall id :: id in s.nodes && Leading(s, id) ==>
          Owns(s.redis, id) && s.nodes[id].local.leaseDeadline <= s.redis.key.value.expiry)
    && (forall a, b :: a in s.nodes && b in s.nodes && Leading(s, a) && Leading(s, b) ==> a == b)
  }

  ghost predicate Leading(s: State, id: Id)
    requires id in s.nodes
  {
    IsLeader(s.nodes[id].local, s.clock) && !s.nodes[id].released
  }

  lemma InvIsExclusive(ttl: nat, s: State)
    requires Inv(ttl, s)
    ensures Exclusive(s)
  {
    forall id | id in s.nodes && Leading(s, id)
      ensures Owns(s.redis, id) && s.nodes[id].local.leaseDeadline <= s.redis.key.value.expiry
    {
      assert NodeInv(ttl, s, id, s.nodes[id]);
    }
  }

  lemma {:induction false} RunKeepsInv(ttl: nat, s: State, steps: seq<Step>, t: State)
    requires Inv(ttl, s) && Run(ttl, s, steps, t)
    ensures Inv(ttl, t)
    decreases |steps|
  {
    if steps != [] {
      StepKeepsInv(ttl, s, steps[0]);
      RunKeepsInv(ttl, Apply(ttl, s, steps[0]), steps[1..], t);
    }
  }

  /** At most one leader until a release takes effect, in every state of every run: lost
      replies, commands taking effect late or out of order, Redis errors and shutdowns
      included. */
  lemma Exclusion(ttl: nat, s: State, steps: seq<Step>, t: State)
    requires Initial(s) && Run(ttl, s, steps, t)
    ensures Exclusive(t)
  {
    RunKeepsInv(ttl, s, steps, t);
    InvIsExclusive(ttl, t);
  }

  /** A leader that stays one stops owning the key exactly when its own release takes effect. */
  lemma OwnsUntilReleased(ttl: nat, s: State, step: Step, id: Id)
    requires Inv(ttl, s) && Enabled(s, step) && id in s.nodes && Leading(s, id)
    requires var t := Apply(ttl, s, step); IsLeader(t.nodes[id].local, t.clock)
    ensures Owns(Apply(ttl, s, step).redis, id) <==>
            !(step.Exec? && step.id == id && s.nodes[id].outbox[step.at].op.ReleaseScript?)
  {
    var t := Apply(ttl, s, step);
    assert NodeInv(ttl, s, id, s.nodes[id]);
    StepKeepsInv(ttl, s, step);
    assert NodeInv(ttl, t, id, t.nodes[id]);
  }

  // ---------------------------------------------------------------------------
  // When an instance leads
  // ---------------------------------------------------------------------------

  /** The instance is refused whenever it asks. */
  ghost predicate NeverLeads(l: Local) {
    forall now: int :: !IsLeader(l, now)
  }

  /** The instance leads with `token` exactly until `deadline`. */
  ghost predicate LeadsUntil(l: Local, token: nat, deadline: int) {
    l.fencingToken == Some(token) && forall now: int :: IsLeader(l, now) <==> now < deadline
  }

  /** A tick that starts reads the clock first and asks for the lease without a token, for a
      renewal with one. */
  lemma TickAsks(ttl: nat, s: State, id: Id)
    requires Enabled(s, Tick(id))
    ensures var n, m := s.nodes[id], Apply(ttl, s, Tick(id)).nodes[id];
      && m.outbox == n.outbox + [Command(n.nextSeq, if n.local.fencingToken == None then SetNx else RenewScript)]
      && !m.local.wait.Idle? && m.local.wait.startedAt == s.clock && m.awaited == n.nextSeq
      && m.local.fencingToken == n.local.fencingToken && m.local.leaseDeadline == n.local.leaseDeadline
  {
  }

  /** An acquire that completes leads with the drawn counter for one lease time, counted from
      before the `SET NX` was sent. */
  lemma AcquiredLeads(ttl: nat, s: State, id: Id)
    requires Enabled(s, Receive(id)) && s.nodes[id].local.wait.AwaitIncr? && s.nodes[id].reply.value.Counter?
    ensures LeadsUntil(Apply(ttl, s, Receive(id)).nodes[id].local, s.nodes[id].reply.value.value,
                       s.nodes[id].local.wait.startedAt + ttl)
  {
  }

  /** A renewal that succeeds extends the lead to one lease time from before it was sent; one
      that is refused ends it. */
  lemma RenewalAnswered(ttl: nat, s: State, id: Id)
    requires Enabled(s, Receive(id)) && s.nodes[id].local.wait.AwaitRenew?
    ensures var l, m := s.nodes[id].local, Apply(ttl, s, Receive(id)).nodes[id].local;
      && (s.nodes[id].reply == Some(Flag(true)) && l.fencingToken.Some? ==>
            LeadsUntil(m, l.fencingToken.value, l.wait.startedAt + ttl))
      && (s.nodes[id].reply == Some(Flag(false)) ==> NeverLeads(m))
  {
  }

  /** An error inside a tick and the end of a release stop an instance from leading at once. */
  lemma ErrorStopsLeading(ttl: nat, s: State, step: Step, id: Id)
    requires Enabled(s, step) && (step == Fail(id) || step == Released(id))
    ensures Apply(ttl, s, step).nodes[id].local.fencingToken == None && NeverLeads(Apply(ttl, s, step).nodes[id].local)
  {
  }

  /** The step completes an acquire of the instance. */
  predicate Acquires(s: State, step: Step, id: Id) {
    && step == Receive(id) && id in s.nodes && s.nodes[id].local.wait.AwaitIncr?
    && s.nodes[id].reply.Some? && s.nodes[id].reply.value.Counter?
  }

  ghost predicate NeverAcquires(ttl: nat, s: State, steps: seq<Step>, id: Id)
    decreases |steps|
  {
    steps != [] ==>
      !Acquires(s, steps[0], id) && Enabled(s, steps[0]) && NeverAcquires(ttl, Apply(ttl, s, steps[0]), steps[1..], id)
  }

  lemma OnlyAcquiresGiveTokens(ttl: nat, s: State, step: Step, id: Id)
    requires Enabled(s, step) && id in s.nodes && s.nodes[id].local.fencingToken.None? && !Acquires(s, step, id)
    ensures Apply(ttl, s, step).nodes[id].local.fencingToken.None?
  {
  }

  /** An instance without a token goes on being refused until an acquire of its own completes. */
  lemma {:induction false} RefusedUntilAcquired(ttl: nat, s: State, steps: seq<Step>, t: State, id: Id)
    requires Run(ttl, s, steps, t) && id in s.nodes && s.nodes[id].local.fencingToken.None?
    requires NeverAcquires(ttl, s, steps, id)
    ensures id in t.nodes && NeverLeads(t.nodes[id].local)
    decreases |steps|
  {
    if steps != [] {
      OnlyAcquiresGiveTokens(ttl, s, steps[0], id);
      RefusedUntilAcquired(ttl, Apply(ttl, s, steps[0]), steps[1..], t, id);
    }
  }

  // ---------------------------------------------------------------------------
  // Fencing
  // ---------------------------------------------------------------------------

  /** The instance has been granted a lease: it has a token, or is on the way to one. */
  predicate Holding(n: Node) {
    || n.local.fencingToken.Some? || n.local.wait.AwaitIncr?
    || (n.local.wait.AwaitSet? && n.reply.Some? && n.reply.value.Granted?)
  }

  /** The step grants no lease to an instance that has one already. */
  predicate SafeGrant(s: State, step: Step)
    requires Enabled(s, step)
  {
    step.Exec? && s.nodes[step.id].outbox[step.at].op.SetNx? && s.redis.key.None? ==> !Holding(s.nodes[step.id])
  }

  ghost predicate SafeRun(ttl: nat, s: State, steps: seq<Step>)
    decreases |steps|
  {
    steps != [] ==>
      Enabled(s, steps[0]) && SafeGrant(s, steps[0]) && SafeRun(ttl, Apply(ttl, s, steps[0]), steps[1..])
  }

  /** `token` was drawn from the epoch counter after grant `k` and, if grant
      `k + 1` has been made, before it. */
  predicate DrawnUnder(r: Redis, k: nat, token: nat) {
    && k < |r.grants| && r.grants[k].epochBefore < token <= r.epoch
    && (k + 1 < |r.grants| ==> token <= r.grants[k + 1].epochBefore)
  }

  /** `token` came after grant `k`, but too late to be usable under it. */
  predicate DrawnLate(r: Redis, k: nat, token: nat) {
    k + 1 < |r.grants| && r.grants[k].epochBefore < token <= r.epoch
  }

  /** Grant `k` went to the instance, and it owns the key under no other. */
  ghost predicate HoldsGrant(r: Redis, id: Id, k: nat) {
    && k < |r.grants| && r.grants[k].owner == id
    && (Owns(r, id) ==> r.key.value.lease == k)
  }

  ghost predicate NodeFenced(ttl: nat, s: State, id: Id, n: Node) {
    var l, r := n.local, s.redis;
    && (l.wait.AwaitSet? && n.reply.Some? && n.reply.value.Granted? ==>
          HoldsGrant(r, id, n.reply.value.lease) && r.grants[n.reply.value.lease].token.None?)
    && (l.wait.AwaitIncr? ==>
          && HoldsGrant(r, id, l.wait.granted) && r.grants[l.wait.granted].token.None?
          && (n.reply.Some? && n.reply.value.Counter? ==>
                || DrawnUnder(r, l.wait.granted, n.reply.value.value)
                || (DrawnLate(r, l.wait.granted, n.reply.value.value) && s.clock >= l.wait.startedAt + ttl)))
    && (l.fencingToken.Some? ==>
          && HoldsGrant(r, id, l.lease) && r.grants[l.lease].token == l.fencingToken
          && (|| DrawnUnder(r, l.lease, l.fencingToken.value)
              || (&& DrawnLate(r, l.lease, l.fencingToken.value) && s.clock >= l.leaseDeadline
                  && !(l.wait.AwaitRenew? && n.reply == Some(Flag(true))))))
  }

  /** Commands on their way are kept as sent, and an answered one is not among them. */
  ghost predicate Tidy(n: Node) {
    && (forall i, j :: 0 <= i < j < |n.outbox| ==> n.outbox[i].seqno < n.outbox[j].seqno)
    && (forall i :: 0 <= i < |n.outbox| ==> n.outbox[i].seqno < n.nextSeq)
    && (!n.local.wait.Idle? ==> n.awaited < n.nextSeq)
    && (!n.local.wait.Idle? && n.reply.Some? ==> forall i :: 0 <= i < |n.outbox| ==> n.outbox[i].seqno != n.awaited)
  }

  lemma SendStaysTidy(n: Node, op: Op)
    requires Tidy(n)
    ensures Tidy(SendAndWait(n, op)) && Tidy(Send(n, op))
  {
  }

  lemma WithoutStaysTidy(n: Node, at: nat)
    requires Tidy(n) && at < |n.outbox|
    ensures Tidy(n.(outbox := Without(n.outbox, at)))
    ensures forall i :: 0 <= i < |n.outbox| - 1 ==> Without(n.outbox, at)[i].seqno != n.outbox[at].seqno
  {
    forall i | 0 <= i < |n.outbox| - 1
      ensures Without(n.outbox, at)[i] == n.outbox[if i < at then i else i + 1]
    {
    }
  }

  lemma ReceiveStaysTidy(n: Node, ttl: nat)
    requires Tidy(n) && !n.local.wait.Idle? && n.reply.Some?
    ensures Tidy(AfterReceive(n, ttl))
  {
    SendStaysTidy(n, Incr);
  }

  lemma ExecStaysTidy(n: Node, at: nat, reply: Reply)
    requires Tidy(n) && at < |n.outbox|
    ensures Tidy(AfterExec(n, at, reply))
  {
    WithoutStaysTidy(n, at);
  }

  lemma TickStaysTidy(s: State, n: Node)
    requires Tidy(n)
    ensures Tidy(AfterTick(s, n)) && Tidy(AfterShutdown(n))
  {
    SendStaysTidy(n, if n.local.fencingToken.None? then SetNx else RenewScript);
    SendStaysTidy(n, ReleaseScript);
  }

  /** Whatever the instance does, its commands stay tidy. */
  lemma StepStaysTidy(ttl: nat, s: State, step: Step, id: Id)
    requires Enabled(s, step) && id in s.nodes && Tidy(s.nodes[id])
    ensures Tidy(Apply(ttl, s, step).nodes[id])
  {
    var n := s.nodes[id];
    match step
    case Tick(_) => TickStaysTidy(s, n);
    case Shutdown(_) => TickStaysTidy(s, n);
    case Receive(i) =>
      if i == id {
        ReceiveStaysTidy(n, ttl);
      }
    case Exec(i, at) =>
      if i == id {
        ExecStaysTidy(n, at, Execute(s.redis, id, n.outbox[at].op, s.clock, ttl).1);
      }
    case Lose(i, at) =>
      if i == id {
        WithoutStaysTidy(n, at);
      }
    case Advance(_) =>
    case Expire =>
    case Fail(_) =>
    case Released(_) =>
    case Assert(_) =>
  }

  ghost predicate RedisFenced(r: Redis) {
    && (r.key.Some? ==>
          && r.key.value.lease == |r.grants| - 1
          && r.grants[r.key.value.lease].owner == r.key.value.owner)
    && (forall k :: 0 <= k < |r.grants| ==> r.grants[k].epochBefore <= r.epoch)
    && (forall j, k :: 0 <= j < k < |r.grants| ==> r.grants[j].epochBefore <= r.grants[k].epochBefore)
  }

  ghost predicate LogFenced(s: State) {
    forall u :: u in s.log ==>
      DrawnUnder(s.redis, u.lease, u.token) && s.redis.grants[u.lease].token == Some(u.token)
  }

  ghost predicate Fenced(ttl: nat, s: State) {
    && Inv(ttl, s) && RedisFenced(s.redis) && LogFenced(s)
    && forall id :: id in s.nodes ==> Tidy(s.nodes[id]) && NodeFenced(ttl, s, id, s.nodes[id])
  }

  /** Grants are only appended, keep owner and epoch, and a new one records the
      epoch; a recorded token is never replaced. */
  ghost predicate RedisGrew(r: Redis, r': Redis) {
    && |r.grants| <= |r'.grants| && r.epoch <= r'.epoch
    && (forall k :: 0 <= k < |r.grants| ==>
          && r'.grants[k].owner == r.grants[k].owner && r'.grants[k].epochBefore == r.grants[k].epochBefore
          && (r.grants[k].token.Some? ==> r'.grants[k].token == r.grants[k].token))
    && (forall k :: |r.grants| <= k < |r'.grants| ==> r.epoch <= r'.grants[k].epochBefore)
  }

  lemma DrawnStays(r: Redis, r': Redis, k: nat, token: nat)
    requires RedisGrew(r, r')
    ensures DrawnUnder(r, k, token) ==> DrawnUnder(r', k, token)
    ensures DrawnLate(r, k, token) ==> DrawnLate(r', k, token)
  {
  }

  lemma StepGrowsRedis(ttl: nat, s: State, step: Step)
    requires Fenced(ttl, s) && Enabled(s, step)
    ensures RedisGrew(s.redis, Apply(ttl, s, step).redis)
    ensures RedisFenced(Apply(ttl, s, step).redis)
  {
    if step.Receive? {
      assert NodeFenced(ttl, s, step.id, s.nodes[step.id]);
    }
  }

  lemma StepKeepsLog(ttl: nat, s: State, step: Step)
    requires Fenced(ttl, s) && Enabled(s, step)
    ensures LogFenced(Apply(ttl, s, step))
  {
    var t := Apply(ttl, s, step);
    StepGrowsRedis(ttl, s, step);
    forall u | u in s.log
      ensures DrawnUnder(t.redis, u.lease, u.token) && t.redis.grants[u.lease].token == Some(u.token)
    {
      DrawnStays(s.redis, t.redis, u.lease, u.token);
    }
    if step.Assert? {
      assert NodeFenced(ttl, s, step.id, s.nodes[step.id]);
    }
  }

  /** What a step by another instance leaves alone for `id`. */
  ghost predicate Undisturbed(s: State, t: State, id: Id) {
    && s.clock <= t.clock && RedisGrew(s.redis, t.redis)
    && (Owns(t.redis, id) ==> Owns(s.redis, id) && s.redis.key.value.lease == t.redis.key.value.lease)
    && (forall k :: 0 <= k < |s.redis.grants| && s.redis.grants[k].owner == id ==>
          t.redis.grants[k] == s.redis.grants[k])
  }

  lemma UndisturbedStaysFenced(ttl: nat, s: State, t: State, id: Id, n: Node)
    requires NodeFenced(ttl, s, id, n) && Undisturbed(s, t, id)
    ensures NodeFenced(ttl, t, id, n)
  {
    var l := n.local;
    if l.wait.AwaitIncr? && n.reply.Some? && n.reply.value.Counter? {
      DrawnStays(s.redis, t.redis, l.wait.granted, n.reply.value.value);
    }
    if l.fencingToken.Some? {
      DrawnStays(s.redis, t.redis, l.lease, l.fencingToken.value);
    }
  }

  lemma NoteLeavesOthers(r: Redis, n: Node, owner: Id, id: Id)
    requires owner != id && (n.local.wait.AwaitIncr? ==> HoldsGrant(r, owner, n.local.wait.granted))
    ensures forall k :: 0 <= k < |r.grants| && r.grants[k].owner == id ==> NoteToken(r, n).grants[k] == r.grants[k]
  {
  }

  lemma ExecuteLeavesOthers(r: Redis, caller: Id, op: Op, clock: int, ttl: nat, id: Id)
    requires caller != id
    ensures var r' := Execute(r, caller, op, clock, ttl).0;
      && (Owns(r', id) ==> Owns(r, id) && r.key.value.lease == r'.key.value.lease)
      && (forall k :: 0 <= k < |r.grants| ==> r'.grants[k] == r.grants[k])
  {
  }

  lemma OthersUndisturbed(ttl: nat, s: State, step: Step, id: Id)
    requires Fenced(ttl, s) && Enabled(s, step)
    requires id in s.nodes && Apply(ttl, s, step).nodes[id] == s.nodes[id]
    requires step.Exec? || step.Receive? ==> step.id != id
    ensures Undisturbed(s, Apply(ttl, s, step), id)
  {
    StepGrowsRedis(ttl, s, step);
    if step.Receive? {
      assert NodeFenced(ttl, s, step.id, s.nodes[step.id]);
      NoteLeavesOthers(s.redis, s.nodes[step.id], step.id, id);
    } else if step.Exec? {
      ExecuteLeavesOthers(s.redis, step.id, s.nodes[step.id].outbox[step.at].op, s.clock, ttl, id);
    }
  }

  /** Starting or abandoning a tick, a lost command and a shutdown grant nothing. */
  lemma LocalStepStaysFenced(ttl: nat, s: State, step: Step, id: Id)
    requires Fenced(ttl, s) && Enabled(s, step)
    requires step == Tick(id) || step == Fail(id) || step == Shutdown(id) || step == Released(id)
          || (step.Lose? && step.id == id)
    ensures var t := Apply(ttl, s, step); NodeFenced(ttl, t, id, t.nodes[id])
  {
    assert NodeFenced(ttl, s, id, s.nodes[id]) && NodeInv(ttl, s, id, s.nodes[id]);
  }

  lemma SetReplyStaysFenced(ttl: nat, s: State, id: Id)
    requires Fenced(ttl, s) && Enabled(s, Receive(id)) && s.nodes[id].local.wait.AwaitSet?
    ensures var t := Apply(ttl, s, Receive(id)); NodeFenced(ttl, t, id, t.nodes[id])
  {
    assert NodeFenced(ttl, s, id, s.nodes[id]) && NodeInv(ttl, s, id, s.nodes[id]);
  }

  lemma IncrReplyStaysFenced(ttl: nat, s: State, id: Id)
    requires Fenced(ttl, s) && Enabled(s, Receive(id)) && s.nodes[id].local.wait.AwaitIncr?
    ensures var t := Apply(ttl, s, Receive(id)); NodeFenced(ttl, t, id, t.nodes[id])
  {
    var n := s.nodes[id];
    assert NodeFenced(ttl, s, id, n) && NodeInv(ttl, s, id, n);
    StepGrowsRedis(ttl, s, Receive(id));
    DrawnStays(s.redis, Apply(ttl, s, Receive(id)).redis, n.local.wait.granted, n.reply.value.value);
  }

  lemma RenewReplyStaysFenced(ttl: nat, s: State, id: Id)
    requires Fenced(ttl, s) && Enabled(s, Receive(id)) && s.nodes[id].local.wait.AwaitRenew?
    ensures var t := Apply(ttl, s, Receive(id)); NodeFenced(ttl, t, id, t.nodes[id])
  {
    var n := s.nodes[id];
    assert NodeFenced(ttl, s, id, n) && NodeInv(ttl, s, id, n);
  }

  /** An executed command nobody waits for changes only Redis and the outbox. */
  lemma StrayExecStaysFenced(ttl: nat, s: State, id: Id, at: nat)
    requires Fenced(ttl, s) && Enabled(s, Exec(id, at)) && SafeGrant(s, Exec(id, at))
    requires var n := s.nodes[id]; n.local.wait.Idle? || n.outbox[at].seqno != n.awaited
    ensures var t := Apply(ttl, s, Exec(id, at)); NodeFenced(ttl, t, id, t.nodes[id])
  {
    var n := s.nodes[id];
    assert NodeFenced(ttl, s, id, n);
    var t := Apply(ttl, s, Exec(id, at));
    if !n.outbox[at].op.SetNx? || s.redis.key.Some? {
      assert Undisturbed(s, t, id) by { StepGrowsRedis(ttl, s, Exec(id, at)); }
      UndisturbedStaysFenced(ttl, s, t, id, n);
    }
  }

  lemma SetExecStaysFenced(ttl: nat, s: State, id: Id, at: nat)
    requires Fenced(ttl, s) && Enabled(s, Exec(id, at)) && SafeGrant(s, Exec(id, at))
    requires s.nodes[id].local.wait.AwaitSet? && s.nodes[id].outbox[at].seqno == s.nodes[id].awaited
    ensures var t := Apply(ttl, s, Exec(id, at)); NodeFenced(ttl, t, id, t.nodes[id])
  {
    var n := s.nodes[id];
    assert NodeFenced(ttl, s, id, n) && NodeInv(ttl, s, id, n);
    assert n.outbox[at] in n.outbox;
  }

  /** An awaited `INCR` that executes after the next grant finds its deadline passed. */
  lemma IncrExecStaysFenced(ttl: nat, s: State, id: Id, at: nat)
    requires Fenced(ttl, s) && Enabled(s, Exec(id, at)) && s.nodes[id].local.wait.AwaitIncr?
    requires s.nodes[id].outbox[at].seqno == s.nodes[id].awaited
    ensures var t := Apply(ttl, s, Exec(id, at)); NodeFenced(ttl, t, id, t.nodes[id])
  {
    var n := s.nodes[id];
    assert NodeFenced(ttl, s, id, n) && NodeInv(ttl, s, id, n);
    assert n.outbox[at] in n.outbox;
  }

  /** A late token never sees its instance's renewal succeed. */
  lemma RenewExecStaysFenced(ttl: nat, s: State, id: Id, at: nat)
    requires Fenced(ttl, s) && Enabled(s, Exec(id, at)) && s.nodes[id].local.wait.AwaitRenew?
    requires s.nodes[id].outbox[at].seqno == s.nodes[id].awaited
    ensures var t := Apply(ttl, s, Exec(id, at)); NodeFenced(ttl, t, id, t.nodes[id])
  {
    var n := s.nodes[id];
    assert NodeFenced(ttl, s, id, n) && NodeInv(ttl, s, id, n);
    assert n.outbox[at] in n.outbox;
  }

  lemma ExecStaysFenced(ttl: nat, s: State, id: Id, at: nat)
    requires Fenced(ttl, s) && Enabled(s, Exec(id, at)) && SafeGrant(s, Exec(id, at))
    ensures var t := Apply(ttl, s, Exec(id, at)); NodeFenced(ttl, t, id, t.nodes[id])
  {
    var n := s.nodes[id];
    if n.local.wait.Idle? || n.outbox[at].seqno != n.awaited {
      StrayExecStaysFenced(ttl, s, id, at);
    } else {
      match n.local.wait
      case AwaitSet(_) => SetExecStaysFenced(ttl, s, id, at);
      case AwaitIncr(_, _) => IncrExecStaysFenced(ttl, s, id, at);
      case AwaitRenew(_) => RenewExecStaysFenced(ttl, s, id, at);
    }
  }

  lemma ReceiveStaysFenced(ttl: nat, s: State, id: Id)
    requires Fenced(ttl, s) && Enabled(s, Receive(id))
    ensures var t := Apply(ttl, s, Receive(id)); NodeFenced(ttl, t, id, t.nodes[id])
  {
    match s.nodes[id].local.wait
    case AwaitSet(_) => SetReplyStaysFenced(ttl, s, id);
    case AwaitIncr(_, _) => IncrReplyStaysFenced(ttl, s, id);
    case AwaitRenew(_) => RenewReplyStaysFenced(ttl, s, id);
  }

  lemma StepStaysFenced(ttl: nat, s: State, step: Step)
    requires Fenced(ttl, s) && Enabled(s, step) && SafeGrant(s, step)
    ensures Fenced(ttl, Apply(ttl, s, step))
  {
    var t := Apply(ttl, s, step);
    StepKeepsInv(ttl, s, step);
    StepGrowsRedis(ttl, s, step);
    StepKeepsLog(ttl, s, step);
    forall id | id in t.nodes
      ensures Tidy(t.nodes[id]) && NodeFenced(ttl, t, id, t.nodes[id])
    {
      assert NodeFenced(ttl, s, id, s.nodes[id]);
      StepStaysTidy(ttl, s, step, id);
      if step == Receive(id) {
        ReceiveStaysFenced(ttl, s, id);
      } else if step.Exec? && step.id == id {
        ExecStaysFenced(ttl, s, id, step.at);
      } else if t.nodes[id] == s.nodes[id] {
        OthersUndisturbed(ttl, s, step, id);
        UndisturbedStaysFenced(ttl, s, t, id, s.nodes[id]);
      } else {
        LocalStepStaysFenced(ttl, s, step, id);
      }
    }
  }

  /** A second grant to one instance leaves it owning the key under a lease its token
      does not belong to. */
  lemma UnsafeGrantUnfences(ttl: nat, s: State, step: Step)
    requires Fenced(ttl, s) && Enabled(s, step) && !SafeGrant(s, step)
    ensures !Fenced(ttl, Apply(ttl, s, step))
  {
    var t := Apply(ttl, s, step);
    assert NodeFenced(ttl, s, step.id, s.nodes[step.id]);
    assert t.nodes[step.id].local == s.nodes[step.id].local;
    assert Tidy(s.nodes[step.id]) && t.redis.key.value.lease == |s.redis.grants|;
    assert !NodeFenced(ttl, t, step.id, t.nodes[step.id]);
  }

  /** A step keeps grants, tokens and the key together exactly if it grants nothing twice. */
  lemma StepFencedIff(ttl: nat, s: State, step: Step)
    requires Fenced(ttl, s) && Enabled(s, step)
    ensures Fenced(ttl, Apply(ttl, s, step)) <==> SafeGrant(s, step)
  {
    if SafeGrant(s, step) {
      StepStaysFenced(ttl, s, step);
    } else {
      UnsafeGrantUnfences(ttl, s, step);
    }
  }

  /** Every state of the run is fenced. */
  ghost predicate FencedAlong(ttl: nat, s: State, steps: seq<Step>)
    decreases |steps|
  {
    && Fenced(ttl, s)
    && (steps != [] ==> Enabled(s, steps[0]) && FencedAlong(ttl, Apply(ttl, s, steps[0]), steps[1..]))
  }

  lemma {:induction false} RunFencedIff(ttl: nat, s: State, steps: seq<Step>, t: State)
    requires Fenced(ttl, s) && Run(ttl, s, steps, t)
    ensures FencedAlong(ttl, s, steps) <==> SafeRun(ttl, s, steps)
    ensures SafeRun(ttl, s, steps) ==> Fenced(ttl, t)
    decreases |steps|
  {
    if steps != [] {
      StepFencedIff(ttl, s, steps[0]);
      if SafeGrant(s, steps[0]) {
        RunFencedIff(ttl, Apply(ttl, s, steps[0]), steps[1..], t);
      }
    }
  }

  /** Tokens grow strictly from lease to lease, and each lease has one token. */
  ghost predicate TokensOrdered(log: seq<Use>) {
    forall u, v :: u in log && v in log ==>
      (u.lease < v.lease ==> u.token < v.token) && (u.lease == v.lease ==> u.token == v.token)
  }

  ghost predicate LeadersOwnTheirLease(s: State) {
    forall id :: id in s.nodes && Leading(s, id) ==>
      Owns(s.redis, id) && s.redis.key.value.lease == s.nodes[id].local.lease
  }

  /** Over every run that grants no lease to an instance holding one, with `INCR`s,
      renewals and releases taking effect as late as they like, fencing tokens order
      the leases, and a leader whose release has not taken effect acts under the very
      lease the key records. */
  lemma Fencing(ttl: nat, s: State, steps: seq<Step>, t: State)
    requires Initial(s) && Run(ttl, s, steps, t) && SafeRun(ttl, s, steps)
    ensures TokensOrdered(t.log) && LeadersOwnTheirLease(t)
  {
    RunFencedIff(ttl, s, steps, t);
    forall u, v | u in t.log && v in t.log
      ensures (u.lease < v.lease ==> u.token < v.token) && (u.lease == v.lease ==> u.token == v.token)
    {
      assert DrawnUnder(t.redis, u.lease, u.token) && DrawnUnder(t.redis, v.lease, v.token);
    }
    InvIsExclusive(ttl, t);
    forall id | id in t.nodes && Leading(t, id)
      ensures t.redis.key.value.lease == t.nodes[id].local.lease
    {
      assert NodeFenced(ttl, t, id, t.nodes[id]);
    }
  }

  /** A `SET NX` takes effect only after every `SET NX` its instance sent before it. */
  predicate SetInOrder(s: State, step: Step)
    requires Enabled(s, step)
  {
    step.Exec? && s.nodes[step.id].outbox[step.at].op.SetNx? ==> NoSet(s.nodes[step.id].outbox[..step.at])
  }

  predicate NoSet(outbox: seq<Command>) {
    forall i :: 0 <= i < |outbox| ==> !outbox[i].op.SetNx?
  }

  ghost predicate SetsInOrder(ttl: nat, s: State, steps: seq<Step>)
    decreases |steps|
  {
    steps != [] ==>
      Enabled(s, steps[0]) && SetInOrder(s, steps[0]) && SetsInOrder(ttl, Apply(ttl, s, steps[0]), steps[1..])
  }

  /** An awaited `SET NX` is the last command sent, and an instance that holds a grant
      has no `SET NX` on its way. */
  ghost predicate NodeOrdered(n: Node) {
    && (n.local.wait.AwaitSet? ==> n.awaited == n.nextSeq - 1)
    && (Holding(n) ==> NoSet(n.outbox))
  }

  ghost predicate Ordered(s: State) {
    forall id :: id in s.nodes ==> Tidy(s.nodes[id]) && NodeOrdered(s.nodes[id])
  }

  lemma OrderedIsSafe(s: State, step: Step)
    requires Ordered(s) && Enabled(s, step)
    ensures SafeGrant(s, step)
  {
    if step.Exec? {
      assert NodeOrdered(s.nodes[step.id]);
    }
  }

  lemma ExecStaysOrdered(ttl: nat, s: State, id: Id, at: nat)
    requires Inv(ttl, s) && Ordered(s) && Enabled(s, Exec(id, at)) && SetInOrder(s, Exec(id, at))
    ensures NodeOrdered(Apply(ttl, s, Exec(id, at)).nodes[id])
  {
    var n, n' := s.nodes[id], Apply(ttl, s, Exec(id, at)).nodes[id];
    assert NodeInv(ttl, s, id, n) && Tidy(n) && NodeOrdered(n) && n.outbox[at] in n.outbox;
    forall i | 0 <= i < |n'.outbox| && Holding(n')
      ensures !n'.outbox[i].op.SetNx?
    {
      assert n'.outbox[i] == n.outbox[if i < at then i else i + 1];
      if i < at {
        assert n'.outbox[i] == n.outbox[..at][i];
      }
    }
  }

  lemma LoseStaysOrdered(n: Node, at: nat)
    requires NodeOrdered(n) && at < |n.outbox|
    ensures NodeOrdered(n.(outbox := Without(n.outbox, at)))
  {
  }

  lemma NodeStepStaysOrdered(ttl: nat, s: State, step: Step, id: Id)
    requires Inv(ttl, s) && Enabled(s, step) && id in s.nodes && NodeOrdered(s.nodes[id])
    requires !(step.Exec? && step.id == id)
    ensures NodeOrdered(Apply(ttl, s, step).nodes[id])
  {
    assert NodeInv(ttl, s, id, s.nodes[id]);
    if step.Lose? && step.id == id {
      LoseStaysOrdered(s.nodes[id], step.at);
    }
  }

  lemma StepStaysOrdered(ttl: nat, s: State, step: Step)
    requires Inv(ttl, s) && Ordered(s) && Enabled(s, step) && SetInOrder(s, step)
    ensures Ordered(Apply(ttl, s, step))
  {
    var t := Apply(ttl, s, step);
    forall id | id in t.nodes
      ensures Tidy(t.nodes[id]) && NodeOrdered(t.nodes[id])
    {
      assert Tidy(s.nodes[id]) && NodeOrdered(s.nodes[id]);
      StepStaysTidy(ttl, s, step, id);
      if step.Exec? && step.id == id {
        ExecStaysOrdered(ttl, s, id, step.at);
      } else {
        NodeStepStaysOrdered(ttl, s, step, id);
      }
    }
  }

  lemma {:induction false} OrderedRunIsSafe(ttl: nat, s: State, steps: seq<Step>)
    requires Inv(ttl, s) && Ordered(s) && SetsInOrder(ttl, s, steps)
    ensures SafeRun(ttl, s, steps)
    decreases |steps|
  {
    if steps != [] {
      OrderedIsSafe(s, steps[0]);
      StepKeepsInv(ttl, s, steps[0]);
      StepStaysOrdered(ttl, s, steps[0]);
      OrderedRunIsSafe(ttl, Apply(ttl, s, steps[0]), steps[1..]);
    }
  }

  /** Fencing holds as long as no `SET NX` overtakes an earlier one of its instance. */
  lemma FencingIfSetsInOrder(ttl: nat, s: State, steps: seq<Step>, t: State)
    requires Initial(s) && Run(ttl, s, steps, t) && SetsInOrder(ttl, s, steps)
    ensures TokensOrdered(t.log) && LeadersOwnTheirLease(t)
  {
    OrderedRunIsSafe(ttl, s, steps);
    Fencing(ttl, s, steps, t);
  }

  /** Commands of one instance take effect in the order they were sent. */
  predicate InOrder(step: Step) {
    step.Exec? ==> step.at == 0
  }

  lemma {:induction false} InOrderKeepsSets(ttl: nat, s: State, steps: seq<Step>, t: State)
    requires Run(ttl, s, steps, t) && forall i :: 0 <= i < |steps| ==> InOrder(steps[i])
    ensures SetsInOrder(ttl, s, steps)
    decreases |steps|
  {
    if steps != [] {
      assert InOrder(steps[0]);
      InOrderKeepsSets(ttl, Apply(ttl, s, steps[0]), steps[1..], t);
    }
  }

  lemma FencingIfInOrder(ttl: nat, s: State, steps: seq<Step>, t: State)
    requires Initial(s) && Run(ttl, s, steps, t) && forall i :: 0 <= i < |steps| ==> InOrder(steps[i])
    ensures TokensOrdered(t.log) && LeadersOwnTheirLease(t)
  {
    InOrderKeepsSets(ttl, s, steps, t);
    FencingIfSetsInOrder(ttl, s, steps, t);
  }

  // ---------------------------------------------------------------------------
  // Where the two results stop
  // ---------------------------------------------------------------------------

  /** Two fresh instances, 0 and 1. */
  function Pair(): State {
    var n := NewNode;
    State(0, Redis(None, 0, []), map[0 := n, 1 := n], [])
  }

  lemma {:induction false} RunJoins(ttl: nat, s: State, a: seq<Step>, m: State, b: seq<Step>, t: State)
    requires Run(ttl, s, a, m) && Run(ttl, m, b, t)
    ensures Run(ttl, s, a + b, t)
    decreases |a|
  {
    if a == [] {
      assert a + b == b;
    } else {
      assert (a + b)[0] == a[0] && (a + b)[1..] == a[1..] + b;
      RunJoins(ttl, Apply(ttl, s, a[0]), a[1..], m, b, t);
    }
  }

  /** Takes one more step of a run under construction. */
  lemma Do(ttl: nat, s: State, steps: seq<Step>, m: State, step: Step) returns (t: State)
    requires Run(ttl, s, steps, m) && Enabled(m, step)
    ensures t == Apply(ttl, m, step) && Run(ttl, s, steps + [step], t)
  {
    t := Apply(ttl, m, step);
    assert Run(ttl, t, [step][1..], t);
    RunJoins(ttl, s, steps, m, [step], t);
  }

  /** Instance `id`, fresh and with nothing in transit, acquires the free key. */
  lemma DoAcquire(ttl: nat, s: State, steps: seq<Step>, m: State, id: Id) returns (more: seq<Step>, t: State)
    requires Run(ttl, s, steps, m) && m.redis.key.None? && id in m.nodes
    requires m.nodes[id] == NewNode
    ensures Run(ttl, s, more, t)
    ensures t == m.(redis := Redis(Some(Key(id, m.clock + ttl, |m.redis.grants|)), m.redis.epoch + 1,
                                   m.redis.grants + [Grant(id, m.redis.epoch, Some(m.redis.epoch + 1))]),
                    nodes := m.nodes[id := Acquired(m, ttl)])
  {
    var a, b := DoSet(ttl, s, steps, m, id);
    var c := Do(ttl, s, a, b, Exec(id, 0));
    assert c.nodes[id].outbox == [];
    t := Do(ttl, s, a + [Exec(id, 0)], c, Receive(id));
    more := a + [Exec(id, 0)] + [Receive(id)];
  }

  /** It is granted the key and sends its `INCR`. */
  lemma DoSet(ttl: nat, s: State, steps: seq<Step>, m: State, id: Id) returns (more: seq<Step>, t: State)
    requires Run(ttl, s, steps, m) && m.redis.key.None? && id in m.nodes && m.nodes[id] == NewNode
    ensures Run(ttl, s, more, t)
    ensures t == m.(redis := Redis(Some(Key(id, m.clock + ttl, |m.redis.grants|)), m.redis.epoch,
                                   m.redis.grants + [Grant(id, m.redis.epoch, None)]),
                    nodes := m.nodes[id := Node(Fresh.(wait := AwaitIncr(m.clock, |m.redis.grants|)),
                                                [Command(1, Incr)], 2, 1, None, false)])
  {
    var a := Do(ttl, s, steps, m, Tick(id));
    assert a.nodes[id].outbox == [Command(0, SetNx)];
    var b := Do(ttl, s, steps + [Tick(id)], a, Exec(id, 0));
    assert b.nodes[id].outbox == [];
    t := Do(ttl, s, steps + [Tick(id)] + [Exec(id, 0)], b, Receive(id));
    assert t.nodes[id].outbox == [Command(1, Incr)];
    more := steps + [Tick(id)] + [Exec(id, 0)] + [Receive(id)];
  }

  function Acquired(m: State, ttl: nat): Node {
    var l := Fresh.(fencingToken := Some(m.redis.epoch + 1), leaseDeadline := m.clock + ttl, lease := |m.redis.grants|);
    Node(l, [], 2, 1, None, false)
  }

  /** Once a release has taken effect two instances can be leader at once: instance 0's
      release has deleted the key, its reply is still on the way, and instance 1
      has acquired. */
  lemma ReleaseWindowOverlaps() returns (steps: seq<Step>, t: State)
    ensures Initial(Pair()) && Run(10, Pair(), steps, t) && 0 in t.nodes && 1 in t.nodes
    ensures IsLeader(t.nodes[0].local, t.clock) && IsLeader(t.nodes[1].local, t.clock)
  {
    steps, t := DoAcquire(10, Pair(), [], Pair(), 0);
    var t1 := Do(10, Pair(), steps, t, Shutdown(0));
    var t2 := Do(10, Pair(), steps + [Shutdown(0)], t1, Exec(0, 0));
    steps, t := DoAcquire(10, Pair(), steps + [Shutdown(0)] + [Exec(0, 0)], t2, 1);
  }

  /** From whatever state, once a late `SET NX` is granted to an idle instance with a
      token, its next renewal makes it leader under a lease it was not told of. */
  lemma LateGrantMisleads(ttl: nat, s: State, id: Id, at: nat) returns (t: State)
    requires ttl > 0 && Fenced(ttl, s) && Enabled(s, Exec(id, at)) && !SafeGrant(s, Exec(id, at))
    requires s.nodes[id].local.fencingToken.Some? && Enabled(s, Tick(id))
    ensures Run(ttl, s, [Exec(id, at)] + [Tick(id)] + [Exec(id, |s.nodes[id].outbox| - 1)] + [Receive(id)], t)
    ensures !LeadersOwnTheirLease(t)
  {
    assert NodeFenced(ttl, s, id, s.nodes[id]) && NodeInv(ttl, s, id, s.nodes[id]);
    t := RenewsSecondGrant(ttl, s, id, at);
  }

  lemma RenewsSecondGrant(ttl: nat, s: State, id: Id, at: nat) returns (t: State)
    requires ttl > 0 && Enabled(s, Exec(id, at)) && s.nodes[id].outbox[at].op.SetNx? && s.redis.key.None?
    requires s.nodes[id].local.fencingToken.Some? && s.nodes[id].local.lease < |s.redis.grants|
    requires Enabled(s, Tick(id)) && !s.nodes[id].released
    ensures Run(ttl, s, [Exec(id, at)] + [Tick(id)] + [Exec(id, |s.nodes[id].outbox| - 1)] + [Receive(id)], t)
    ensures !LeadersOwnTheirLease(t)
  {
    var n := s.nodes[id];
    var last := |n.outbox| - 1;
    assert [] + [Exec(id, at)] == [Exec(id, at)];
    var a := Do(ttl, s, [], s, Exec(id, at));
    var b := Do(ttl, s, [Exec(id, at)], a, Tick(id));
    assert b.nodes[id].outbox[last] == Command(n.nextSeq, RenewScript);
    var c := Do(ttl, s, [Exec(id, at)] + [Tick(id)], b, Exec(id, last));
    assert c.nodes[id].reply == Some(Flag(true));
    t := Do(ttl, s, [Exec(id, at)] + [Tick(id)] + [Exec(id, last)], c, Receive(id));
    assert Leading(t, id) && t.redis.key.value.lease == |s.redis.grants|;
  }

  /** Instance 0 has been granted lease 0 by its second `SET NX` and waits for its
      `INCR`; the first, abandoned `SET NX` is still on its way; the lease has expired. */
  function AbandonedSet(): State {
    var n := Node(Local(None, 0, AwaitIncr(0, 0), true, false, 0), [Command(0, SetNx), Command(2, Incr)], 3, 2, None, false);
    State(10, Redis(None, 0, [Grant(0, 0, None)]), map[0 := n, 1 := NewNode], [])
  }

  /** The second `SET NX` of instance 0 has been granted, its reply is waiting. */
  function SecondSetGranted(): State {
    var n := Node(Local(None, 0, AwaitSet(0), true, false, 0), [Command(0, SetNx)], 2, 1, Some(Granted(0)), false);
    State(0, Redis(Some(Key(0, 10, 0)), 0, [Grant(0, 0, None)]), map[0 := n, 1 := NewNode], [])
  }

  lemma ReachSecondSetGranted() returns (steps: seq<Step>)
    ensures Run(10, Pair(), steps, SecondSetGranted())
  {
    var s := Pair();
    var a := Do(10, s, [], s, Tick(0));
    var b := Do(10, s, [] + [Tick(0)], a, Fail(0));
    var c := Do(10, s, [] + [Tick(0)] + [Fail(0)], b, Tick(0));
    assert c.nodes[0].outbox == [Command(0, SetNx), Command(1, SetNx)];
    var d := Do(10, s, [] + [Tick(0)] + [Fail(0)] + [Tick(0)], c, Exec(0, 1));
    assert d.nodes[0].outbox == [Command(0, SetNx)];
    assert d == SecondSetGranted();
    steps := [] + [Tick(0)] + [Fail(0)] + [Tick(0)] + [Exec(0, 1)];
  }

  lemma ReachAbandonedSet() returns (steps: seq<Step>)
    ensures Run(10, Pair(), steps, AbandonedSet())
  {
    var s := Pair();
    steps := ReachSecondSetGranted();
    var e := Do(10, s, steps, SecondSetGranted(), Receive(0));
    assert e.nodes[0].outbox == [Command(0, SetNx), Command(2, Incr)];
    var f := Do(10, s, steps + [Receive(0)], e, Advance(10));
    var g := Do(10, s, steps + [Receive(0)] + [Advance(10)], f, Expire);
    assert g == AbandonedSet();
    steps := steps + [Receive(0)] + [Advance(10)] + [Expire];
  }

  /** Instance 1 has led under lease 1 with token 1, which has expired; instance 0's
      `INCR` came after it, so its token, unusable as it stands, is 2. */
  function LateToken(): State {
    var n := Node(Local(Some(2), 10, Idle, true, false, 0), [Command(0, SetNx)], 3, 2, None, false);
    State(20, Redis(None, 2, [Grant(0, 0, Some(2)), Grant(1, 0, Some(1))]),
          map[0 := n, 1 := Acquired(AbandonedSet(), 10)], [Use(1, 1)])
  }

  /** The same before lease 1 has expired. */
  function TokenTaken(): State {
    LateToken().(clock := 10, redis := LateToken().redis.(key := Some(Key(1, 20, 1))))
  }

  lemma ReachTokenTaken() returns (steps: seq<Step>)
    ensures Run(10, Pair(), steps, TokenTaken())
  {
    var s := Pair();
    steps := ReachAbandonedSet();
    var a;
    steps, a := DoAcquire(10, s, steps, AbandonedSet(), 1);
    var b := Do(10, s, steps, a, Assert(1));
    var c := Do(10, s, steps + [Assert(1)], b, Exec(0, 1));
    assert c.nodes[0].outbox == [Command(0, SetNx)];
    var d := Do(10, s, steps + [Assert(1)] + [Exec(0, 1)], c, Receive(0));
    assert d == TokenTaken();
    steps := steps + [Assert(1)] + [Exec(0, 1)] + [Receive(0)];
  }

  lemma ReachLateToken() returns (steps: seq<Step>)
    ensures Run(10, Pair(), steps, LateToken())
  {
    var s := Pair();
    steps := ReachTokenTaken();
    var e := Do(10, s, steps, TokenTaken(), Advance(10));
    var f := Do(10, s, steps + [Advance(10)], e, Expire);
    assert f == LateToken();
    steps := steps + [Advance(10)] + [Expire];
  }

  /** The abandoned `SET NX` has been granted at last, and the renewal with it. */
  function Renewed(): State {
    var n := Node(Local(Some(2), 10, AwaitRenew(20), true, false, 0), [], 4, 3, Some(Flag(true)), false);
    State(20, Redis(Some(Key(0, 30, 2)), 2, [Grant(0, 0, Some(2)), Grant(1, 0, Some(1)), Grant(0, 2, None)]),
          map[0 := n, 1 := Acquired(AbandonedSet(), 10)], [Use(1, 1)])
  }

  lemma ReachRenewed() returns (steps: seq<Step>)
    ensures Run(10, Pair(), steps, Renewed())
  {
    var s := Pair();
    steps := ReachLateToken();
    var a := Do(10, s, steps, LateToken(), Exec(0, 0));
    assert a.nodes[0].outbox == [];
    var b := Do(10, s, steps + [Exec(0, 0)], a, Tick(0));
    assert b.nodes[0].outbox == [Command(3, RenewScript)];
    var c := Do(10, s, steps + [Exec(0, 0)] + [Tick(0)], b, Exec(0, 0));
    assert c.nodes[0].outbox == [];
    assert c == Renewed();
    steps := steps + [Exec(0, 0)] + [Tick(0)] + [Exec(0, 0)];
  }

  /** Fencing needs safe grants: once the abandoned `SET NX` takes effect
      at last, a renewal succeeds and token 2 is returned under lease 0, although
      token 1 was returned under lease 1. */
  lemma FencingNeedsSafeGrants() returns (steps: seq<Step>, t: State)
    ensures Initial(Pair()) && Run(10, Pair(), steps, t)
    ensures !TokensOrdered(t.log)
  {
    var s := Pair();
    steps := ReachRenewed();
    var d := Do(10, s, steps, Renewed(), Receive(0));
    t := Do(10, s, steps + [Receive(0)], d, Assert(0));
    steps := steps + [Receive(0)] + [Assert(0)];
    assert t.log[0] == Use(1, 1) && t.log[1] == Use(0, 2);
  }
}
