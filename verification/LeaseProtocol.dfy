/** One registration client, servers that crash and start again with an empty
    registry, and a network that loses and delays requests and responses. The
    world also lets other clients and operators use the registry. */
module LeaseProtocol {
  import opened Wrappers
  import opened Domain
  import opened Protocol
  import opened Leases
  import opened Registration

  /** At most one server is up at a time. Every start is a new incarnation, at a
      new address. */
  datatype Server = Down | Up(incarnation: nat, config: Config, table: Table)

  datatype Call = CreateCall | RenewCall(id: LeaseId) | RemoveCall(id: LeaseId)

  /** A control request on its way to a server. `key` numbers the calls whose
      response the client waits for; a removal has key 0. */
  datatype Request = Request(call: Call, key: nat, server: nat, sentAt: nat)

  datatype Reply = Accepted(lease: Held) | Rejected

  /** `descriptor` is the incarnation that the descriptor on disk points to, which
      may be gone. `since` is when the client entered its phase. `calling`, `key`
      and `reply` describe its latest call. The last four fields are history:
      identifiers created by requests of this client, those it was told of, those
      whose removal it has started, and the times of its attempts to register
      since it last succeeded. */
  datatype World = World(
    clock: nat,
    server: Server,
    incarnations: nat,
    descriptor: Option<nat>,
    used: set<LeaseId>,
    client: Client,
    since: nat,
    calling: Option<nat>,
    key: nat,
    reply: Option<Reply>,
    requests: set<Request>,
    mine: set<LeaseId>,
    returned: set<LeaseId>,
    released: set<LeaseId>,
    attempts: seq<nat>)

  datatype Step =
    | Tick(elapsed: nat)
    | Crash(keepsDescriptor: bool)
    | Boot(config: Config)
    | Lose(request: Request)
    | Serve(request: Request, sample: nat, newId: LeaseId)
    | OtherCreate(registration: CreateLeaseRequest, sample: nat, newId: LeaseId)
    | OtherRenew(id: LeaseId, sample: nat)
    | Unregister(id: LeaseId)
    | Hear(callbackOk: bool)
    | Fail
    | Wake
    | Shutdown
    | Leave

  predicate Waits(w: World) {
    w.client.phase.Connecting? || w.client.phase.Renewing?
  }

  /** When the timer the client sleeps on goes off. */
  function WakeTime(w: World): nat
    requires w.client.phase.BackingOff? || w.client.phase.Holding?
  {
    if w.client.phase.BackingOff? then w.since + w.client.reconnectDelay
    else w.since + w.client.phase.lease.renewAfter
  }

  predicate Enabled(w: World, step: Step) {
    match step
    case Tick(_) => true
    case Crash(_) => w.server.Up?
    case Boot(config) => w.server.Down? && MIN_LEASE_TTL <= config.leaseTtl && 0 < config.maxTargets
    case Lose(request) => request in w.requests
    case Serve(request, sample, newId) =>
      && request in w.requests
      && w.server.Up? && w.server.incarnation == request.server
      && request.sentAt <= sample <= w.clock
      && (request.call.CreateCall? ==> newId !in w.used)
    case OtherCreate(_, sample, newId) => w.server.Up? && sample <= w.clock && newId !in w.used
    case OtherRenew(id, sample) => w.server.Up? && sample <= w.clock && id !in w.mine
    case Unregister(_) => w.server.Up?
    case Hear(_) => Waits(w) && w.reply.Some?
    case Fail => Waits(w)
    case Wake => (w.client.phase.BackingOff? || w.client.phase.Holding?) && WakeTime(w) <= w.clock
    case Shutdown => w.client.phase.Connecting? || w.client.phase.BackingOff? || w.client.phase.Holding?
    case Leave => w.client.phase.Leaving?
  }

  /** A client effect, carried out in the world. */
  function Do(w: World, e: Effect): World {
    match e
    case Register =>
      w.(key := w.key + 1, calling := w.descriptor, reply := None, attempts := w.attempts + [w.clock],
         requests := w.requests
           + if w.descriptor.Some? then {Request(CreateCall, w.key + 1, w.descriptor.value, w.clock)} else {})
    case Renew(lease) =>
      w.(key := w.key + 1, calling := Some(lease.server), reply := None,
         requests := w.requests + {Request(RenewCall(lease.leaseId), w.key + 1, lease.server, w.clock)})
    case RemoveLease(lease, _) =>
      w.(released := w.released + {lease.leaseId},
         requests := w.requests + {Request(RemoveCall(lease.leaseId), 0, lease.server, w.clock)})
    case Announce(lease) => w.(returned := w.returned + {lease.leaseId}, attempts := [])
    case BackOff(_) => w
    case Await(_) => w
  }

  function React(w: World, a: Answer): World {
    var (next, effects) := Respond(w.client, a);
    var w' := w.(client := next, since := w.clock);
    if |effects| == 0 then w'
    else if |effects| == 1 then Do(w', effects[0])
    else Do(Do(w', effects[0]), effects[1])
  }

  /** What the client is told by a step that makes it move on. */
  function AnswerTo(w: World, step: Step): Answer
    requires Enabled(w, step)
  {
    match step
    case Hear(callbackOk) =>
      Answer(false, if w.reply.value.Accepted? then Some(w.reply.value.lease) else None, callbackOk)
    case Shutdown => Answer(true, None, true)
    case _ => Answer(false, None, true)
  }

  /** The server executes a request of this client, and answers it. */
  function Executed(q: CreateLeaseRequest, w: World, request: Request, sample: nat, newId: LeaseId): World
    requires w.server.Up?
  {
    var c := w.server.config;
    var held := id => Held(w.server.incarnation, id, RenewAfter(c.leaseTtl));
    var answered := request.key == w.key && !request.call.RemoveCall?;
    match request.call
    case CreateCall =>
      var (table, r) := Leases.Create(c, w.server.table, q, sample, newId);
      w.(server := w.server.(table := table), requests := w.requests - {request},
         used := if r.Success? then w.used + {newId} else w.used,
         mine := if r.Success? then w.mine + {newId} else w.mine,
         reply := if !answered then w.reply else if r.Success? then Some(Accepted(held(newId))) else Some(Rejected))
    case RenewCall(id) =>
      var (table, r) := Leases.Renew(c, w.server.table, id, sample);
      w.(server := w.server.(table := table), requests := w.requests - {request},
         reply := if !answered then w.reply else if r.Success? then Some(Accepted(held(id))) else Some(Rejected))
    case RemoveCall(id) =>
      w.(server := w.server.(table := Leases.Remove(w.server.table, id).0), requests := w.requests - {request})
  }

  /** `q` is what the client registers. */
  function Apply(q: CreateLeaseRequest, w: World, step: Step): World
    requires Enabled(w, step)
  {
    match step
    case Tick(elapsed) => w.(clock := w.clock + elapsed)
    case Crash(keepsDescriptor) =>
      w.(server := Down, descriptor := if keepsDescriptor then w.descriptor else None)
    case Boot(config) =>
      w.(server := Up(w.incarnations, config, map[]), incarnations := w.incarnations + 1,
         descriptor := Some(w.incarnations))
    case Lose(request) => w.(requests := w.requests - {request})
    case Serve(request, sample, newId) => Executed(q, w, request, sample, newId)
    case OtherCreate(registration, sample, newId) =>
      var (table, r) := Leases.Create(w.server.config, w.server.table, registration, sample, newId);
      w.(server := w.server.(table := table), used := if r.Success? then w.used + {newId} else w.used)
    case OtherRenew(id, sample) =>
      w.(server := w.server.(table := Leases.Renew(w.server.config, w.server.table, id, sample).0))
    case Unregister(id) =>
      w.(server := w.server.(table := Leases.Remove(w.server.table, id).0))
    case Hear(_) => React(w, AnswerTo(w, step))
    case Fail => React(w, AnswerTo(w, step))
    case Wake => React(w, AnswerTo(w, step))
    case Shutdown => React(w, AnswerTo(w, step))
    case Leave => React(w, AnswerTo(w, step))
  }

  predicate IsRun(q: CreateLeaseRequest, w: World, steps: seq<Step>)
    decreases |steps|
  {
    steps == [] || (Enabled(w, steps[0]) && IsRun(q, Apply(q, w, steps[0]), steps[1..]))
  }

  function End(q: CreateLeaseRequest, w: World, steps: seq<Step>): World
    requires IsRun(q, w, steps)
    decreases |steps|
  {
    if steps == [] then w else End(q, Apply(q, w, steps[0]), steps[1..])
  }

  /** The client has just made its first call, to the server that is up, if
      one is. */
  function Initial(server: Server): World {
    var incarnations := if server.Up? then server.incarnation + 1 else 0;
    var descriptor := if server.Up? then Some(server.incarnation) else None;
    Do(World(0, server, incarnations, descriptor, {}, Registration.START, 0, None, 0, None, {}, {}, {}, {}, []),
       Register)
  }

  predicate FreshServer(server: Server) {
    server.Up? ==>
      server.table == map[] && MIN_LEASE_TTL <= server.config.leaseTtl && 0 < server.config.maxTargets
  }

  /** Identifiers: which are in use, which the client knows, which it let go. */
  ghost predicate IdsInv(w: World) {
    && (w.server.Up? ==> w.server.table.Keys <= w.used)
    && w.mine <= w.used && w.returned <= w.mine && w.released <= w.returned
    && (forall r :: r in w.requests && r.call.RenewCall? ==> r.call.id in w.returned)
    && (forall r :: r in w.requests && r.call.RemoveCall? ==> r.call.id in w.released)
    && (Current(w.client).Some? ==> Current(w.client).value.leaseId in w.returned && Current(w.client).value.leaseId !in w.released)
    && (forall id :: id in w.returned ==>
          id in w.released || (Current(w.client).Some? && Current(w.client).value.leaseId == id))
  }

  /** Calls: which requests and replies belong to the call the client waits for. */
  ghost predicate CallsInv(w: World) {
    && 0 < w.key && w.since <= w.clock
    && (forall r :: r in w.requests ==> r.key <= w.key && r.sentAt <= w.clock)
    && (forall r :: r in w.requests && r.call.RemoveCall? ==> r.key == 0)
    && (Waits(w) && w.reply.Some? ==> forall r :: r in w.requests ==> r.key != w.key)
    && (w.client.phase.Connecting? ==>
          && (forall r :: r in w.requests && r.key == w.key ==>
                r == Request(CreateCall, w.key, r.server, w.since) && w.calling == Some(r.server))
          && (w.reply.Some? && w.reply.value.Accepted? ==>
                w.reply.value.lease.leaseId in w.mine - w.returned && w.calling == Some(w.reply.value.lease.server)))
    && (w.client.phase.Renewing? ==>
          && w.calling == Some(w.client.phase.lease.server)
          && (forall r :: r in w.requests && r.key == w.key ==>
                r == Request(RenewCall(w.client.phase.lease.leaseId), w.key, w.client.phase.lease.server, w.since))
          && (w.reply.Some? && w.reply.value.Accepted? ==>
                && w.reply.value.lease.leaseId == w.client.phase.lease.leaseId
                && w.reply.value.lease.server == w.client.phase.lease.server))
  }

  ghost predicate Inv(w: World) {
    IdsInv(w) && CallsInv(w)
  }

  lemma ServeKeepsInv(q: CreateLeaseRequest, w: World, step: Step)
    requires Inv(w) && step.Serve? && Enabled(w, step)
    ensures Inv(Apply(q, w, step))
  {
  }

  lemma EnvironmentKeepsInv(q: CreateLeaseRequest, w: World, step: Step)
    requires Inv(w) && Enabled(w, step)
    requires step.Tick? || step.Crash? || step.Boot? || step.Lose?
             || step.OtherCreate? || step.OtherRenew? || step.Unregister?
    ensures Inv(Apply(q, w, step))
  {
  }

  predicate ClientMoves(step: Step) {
    step.Hear? || step.Fail? || step.Wake? || step.Shutdown? || step.Leave?
  }

  lemma ConnectingKeepsIds(q: CreateLeaseRequest, w: World, step: Step)
    requires Inv(w) && Enabled(w, step) && ClientMoves(step)
    requires w.client.phase.Connecting?
    ensures IdsInv(Apply(q, w, step))
  {
  }

  lemma ConnectingKeepsCalls(q: CreateLeaseRequest, w: World, step: Step)
    requires Inv(w) && Enabled(w, step) && ClientMoves(step)
    requires w.client.phase.Connecting?
    ensures CallsInv(Apply(q, w, step))
  {
  }

  lemma SleepingKeepsIds(q: CreateLeaseRequest, w: World, step: Step)
    requires Inv(w) && Enabled(w, step) && ClientMoves(step)
    requires w.client.phase.BackingOff? || w.client.phase.Holding?
    ensures IdsInv(Apply(q, w, step))
  {
  }

  lemma SleepingKeepsCalls(q: CreateLeaseRequest, w: World, step: Step)
    requires Inv(w) && Enabled(w, step) && ClientMoves(step)
    requires w.client.phase.BackingOff? || w.client.phase.Holding?
    ensures CallsInv(Apply(q, w, step))
  {
  }

  lemma RenewingKeepsIds(q: CreateLeaseRequest, w: World, step: Step)
    requires Inv(w) && Enabled(w, step) && ClientMoves(step)
    requires w.client.phase.Renewing? || w.client.phase.Leaving?
    ensures IdsInv(Apply(q, w, step))
  {
  }

  lemma RenewingKeepsCalls(q: CreateLeaseRequest, w: World, step: Step)
    requires Inv(w) && Enabled(w, step) && ClientMoves(step)
    requires w.client.phase.Renewing? || w.client.phase.Leaving?
    ensures CallsInv(Apply(q, w, step))
  {
  }

  lemma StepKeepsInv(q: CreateLeaseRequest, w: World, step: Step)
    requires Inv(w) && Enabled(w, step)
    ensures Inv(Apply(q, w, step))
  {
    if ClientMoves(step) {
      if w.client.phase.Connecting? {
        ConnectingKeepsIds(q, w, step);
        ConnectingKeepsCalls(q, w, step);
      } else if w.client.phase.BackingOff? || w.client.phase.Holding? {
        SleepingKeepsIds(q, w, step);
        SleepingKeepsCalls(q, w, step);
      } else {
        RenewingKeepsIds(q, w, step);
        RenewingKeepsCalls(q, w, step);
      }
    } else if step.Serve? {
      ServeKeepsInv(q, w, step);
    } else {
      EnvironmentKeepsInv(q, w, step);
    }
  }

  lemma {:induction false} RunKeepsInv(q: CreateLeaseRequest, w: World, steps: seq<Step>)
    requires Inv(w) && IsRun(q, w, steps)
    ensures Inv(End(q, w, steps))
    decreases |steps|
  {
    if steps != [] {
      StepKeepsInv(q, w, steps[0]);
      RunKeepsInv(q, Apply(q, w, steps[0]), steps[1..]);
    }
  }

  /** In every run, whatever crashes, restarts, losses and delays it contains:
      a lease the client was told of is the one it keeps alive or has had its
      removal started, and it keeps at most one alive. */
  lemma ClientOwnsOneLease(q: CreateLeaseRequest, server: Server, steps: seq<Step>, id: LeaseId)
    requires FreshServer(server) && IsRun(q, Initial(server), steps)
    ensures var w := End(q, Initial(server), steps);
            id in w.returned ==>
              (id in w.released <==> !(Current(w.client).Some? && Current(w.client).value.leaseId == id))
  {
    RunKeepsInv(q, Initial(server), steps);
  }

  /** However late a removal of an earlier lease arrives, it is not the current
      lease that it removes. */
  lemma LateRemovalSparesCurrent(q: CreateLeaseRequest, server: Server, steps: seq<Step>, step: Step)
    requires FreshServer(server) && IsRun(q, Initial(server), steps)
    requires var w := End(q, Initial(server), steps);
             && Enabled(w, step) && step.Serve? && step.request.call.RemoveCall? && Current(w.client).Some?
    ensures var w := End(q, Initial(server), steps);
            var id := Current(w.client).value.leaseId;
            && step.request.call.id != id
            && (id in w.server.table ==>
                  && id in Apply(q, w, step).server.table
                  && Apply(q, w, step).server.table[id] == w.server.table[id])
  {
    RunKeepsInv(q, Initial(server), steps);
  }

  /** A removal is what it says: the client sends one for each lease it gives up, to
      the server of that lease, and a server that gets it has the lease no longer. */
  lemma RemovalsAreSentAndServed(q: CreateLeaseRequest, server: Server, steps: seq<Step>, step: Step, id: LeaseId)
    requires FreshServer(server) && IsRun(q, Initial(server), steps)
    requires Enabled(End(q, Initial(server), steps), step)
    ensures var w := End(q, Initial(server), steps);
            var w' := Apply(q, w, step);
            && (id in w'.released && id !in w.released ==>
                  exists held: Held ::
                    held.leaseId == id && Request(RemoveCall(id), 0, held.server, w.clock) in w'.requests
                    && (Current(w.client) == Some(held) || w.reply == Some(Accepted(held))))
            && (step.Serve? && step.request.call == RemoveCall(id) ==> id !in w'.server.table)
  {
    RunKeepsInv(q, Initial(server), steps);
    var w := End(q, Initial(server), steps);
    if ClientMoves(step) && id in Apply(q, w, step).released && id !in w.released {
      ReleaseForm(q, w, step, id);
    }
  }

  /** A client that waits for an answer has just sent its call: to the server of its
      lease, or to the one that the descriptor names, if there is one. */
  lemma CallsAreSent(q: CreateLeaseRequest, w: World, step: Step)
    requires Enabled(w, step) && ClientMoves(step)
    ensures var w' := Apply(q, w, step);
            && (w'.client.phase.Renewing? ==>
                  var lease := w'.client.phase.lease;
                  && w'.key == w.key + 1
                  && Request(RenewCall(lease.leaseId), w'.key, lease.server, w.clock) in w'.requests)
            && (w'.client.phase.Connecting? ==>
                  && w'.key == w.key + 1 && w'.calling == w.descriptor
                  && (w.descriptor.Some? ==>
                        Request(CreateCall, w'.key, w.descriptor.value, w.clock) in w'.requests))
  {
  }

  lemma ReleaseForm(q: CreateLeaseRequest, w: World, step: Step, id: LeaseId)
    requires Enabled(w, step) && ClientMoves(step)
    requires id in Apply(q, w, step).released && id !in w.released
    ensures exists held: Held ::
              held.leaseId == id && Request(RemoveCall(id), 0, held.server, w.clock) in Apply(q, w, step).requests
              && (Current(w.client) == Some(held) || w.reply == Some(Accepted(held)))
  {
    var held := if Current(w.client).Some? then Current(w.client).value else w.reply.value.lease;
    assert held.leaseId == id;
  }

  /** Every creation and renewal that the run executes for the client used a
      clock reading of at most `s`. */
  predicate SampledBy(steps: seq<Step>, s: nat) {
    forall i :: 0 <= i < |steps| && steps[i].Serve? && !steps[i].request.call.RemoveCall? ==> steps[i].sample <= s
  }

  ghost predicate ExpiresBy(w: World, s: nat) {
    w.server.Up? ==> forall id :: id in w.mine && id in w.server.table ==>
      w.server.table[id].expiresAt <= s + w.server.config.leaseTtl
  }

  lemma StepKeepsExpiry(q: CreateLeaseRequest, w: World, step: Step, s: nat)
    requires IdsInv(w) && Enabled(w, step) && ExpiresBy(w, s)
    requires step.Serve? && !step.request.call.RemoveCall? ==> step.sample <= s
    ensures ExpiresBy(Apply(q, w, step), s)
  {
  }

  lemma {:induction false} RunKeepsExpiry(q: CreateLeaseRequest, w: World, steps: seq<Step>, s: nat)
    requires Inv(w) && IsRun(q, w, steps) && SampledBy(steps, s) && ExpiresBy(w, s)
    ensures ExpiresBy(End(q, w, steps), s)
    decreases |steps|
  {
    if steps != [] {
      StepKeepsInv(q, w, steps[0]);
      StepKeepsExpiry(q, w, steps[0], s);
      RunKeepsExpiry(q, Apply(q, w, steps[0]), steps[1..], s);
    }
  }

  /** No ghost routes: once a lifetime has passed since the last clock reading
      that served a creation or renewal of the client, no request is sent to any
      lease it ever created, including those whose response was lost or whose
      creation it had given up. */
  lemma NoGhostRoutes(
    q: CreateLeaseRequest, server: Server, steps: seq<Step>, s: nat, sample: nat, route: Route)
    requires FreshServer(server) && IsRun(q, Initial(server), steps) && SampledBy(steps, s)
    ensures var w := End(q, Initial(server), steps);
            w.server.Up? && s + w.server.config.leaseTtl <= sample ==>
              MatchingIds(w.server.table, sample, route) !! w.mine
  {
    RunKeepsExpiry(q, Initial(server), steps, s);
  }

  /** Pauses: each attempt to register comes at least the prescribed pause after
      the one before it. */
  ghost predicate PausesInv(w: World) {
    && AreSpread(w.attempts)
    && (w.attempts != [] ==> w.attempts[|w.attempts| - 1] <= w.since)
    && (w.client.phase.Connecting? || w.client.phase.BackingOff? ==>
          w.attempts != [] && w.client.reconnectDelay == DelayAfter(|w.attempts| - 1))
    && (w.client.phase.Holding? || w.client.phase.Renewing? ==>
          w.attempts == [] && w.client.reconnectDelay == DelayAfter(0))
  }

  predicate AreSpread(attempts: seq<nat>) {
    forall i :: 0 <= i < |attempts| - 1 ==> attempts[i] + DelayAfter(i) <= attempts[i + 1]
  }

  lemma OneMoreAttempt(attempts: seq<nat>, at: nat)
    requires AreSpread(attempts)
    requires attempts != [] ==> attempts[|attempts| - 1] + DelayAfter(|attempts| - 1) <= at
    ensures AreSpread(attempts + [at])
  {
    var longer := attempts + [at];
    forall i | 0 <= i < |longer| - 1
      ensures longer[i] + DelayAfter(i) <= longer[i + 1]
    {
      assert longer[i] == attempts[i];
    }
  }

  /** What waking from a pause does to the fields that count here. */
  lemma RetryForm(q: CreateLeaseRequest, w: World, step: Step)
    requires Enabled(w, step) && ClientMoves(step) && w.client.phase.BackingOff?
    ensures var w' := Apply(q, w, step);
            && w'.since == w.clock
            && (if step.Shutdown? then w'.attempts == w.attempts && w'.client.phase.Stopped?
                else w.since + w.client.reconnectDelay <= w.clock && w'.attempts == w.attempts + [w.clock]
                     && w'.client == Client(Doubled(w.client.reconnectDelay), Connecting))
  {
  }

  lemma FailedAttemptKeepsPauses(q: CreateLeaseRequest, w: World, step: Step)
    requires w.since <= w.clock && PausesInv(w) && Enabled(w, step) && ClientMoves(step)
    requires w.client.phase.BackingOff?
    ensures PausesInv(Apply(q, w, step))
  {
    RetryForm(q, w, step);
    if !step.Shutdown? {
      OneMoreAttempt(w.attempts, w.clock);
      DoublingIsClosedForm(|w.attempts| - 1);
    }
  }

  lemma ClientKeepsPauses(q: CreateLeaseRequest, w: World, step: Step)
    requires w.since <= w.clock && PausesInv(w) && Enabled(w, step) && ClientMoves(step)
    requires !w.client.phase.BackingOff?
    ensures PausesInv(Apply(q, w, step))
  {
  }

  lemma OthersKeepPauses(q: CreateLeaseRequest, w: World, step: Step)
    requires PausesInv(w) && Enabled(w, step) && !ClientMoves(step)
    ensures PausesInv(Apply(q, w, step))
  {
  }

  lemma StepKeepsPauses(q: CreateLeaseRequest, w: World, step: Step)
    requires w.since <= w.clock && PausesInv(w) && Enabled(w, step)
    ensures PausesInv(Apply(q, w, step))
  {
    if ClientMoves(step) && w.client.phase.BackingOff? {
      FailedAttemptKeepsPauses(q, w, step);
    } else if ClientMoves(step) {
      ClientKeepsPauses(q, w, step);
    } else {
      OthersKeepPauses(q, w, step);
    }
  }

  lemma {:induction false} RunKeepsPauses(q: CreateLeaseRequest, w: World, steps: seq<Step>)
    requires Inv(w) && PausesInv(w) && IsRun(q, w, steps)
    ensures PausesInv(End(q, w, steps))
    decreases |steps|
  {
    if steps != [] {
      StepKeepsInv(q, w, steps[0]);
      StepKeepsPauses(q, w, steps[0]);
      RunKeepsPauses(q, Apply(q, w, steps[0]), steps[1..]);
    }
  }

  /** The least time between the first and the last of `n` attempts. */
  function Span(n: nat): nat {
    if n <= 1 then 0 else Span(n - 1) + DelayAfter(n - 2)
  }

  lemma {:induction false} SpanInMillis(n: nat)
    requires 7 <= n
    ensures Span(n) == (6300 + 5000 * (n - 7)) * NANOS_PER_MILLI
  {
    if n == 7 {
      assert Span(5) == 1500 * NANOS_PER_MILLI by {
        assert Span(3) == 300 * NANOS_PER_MILLI;
      }
    } else {
      SpanInMillis(n - 1);
      LimitIsReached(n - 2);
    }
  }

  lemma {:induction false} LimitIsReached(k: nat)
    requires 6 <= k
    ensures 64 <= Pow2(k) && DelayAfter(k) == MAX_RECONNECT_DELAY
  {
    if k == 6 {
      assert Pow2(6) == 64 by {
        assert Pow2(3) == 8;
      }
    } else {
      LimitIsReached(k - 1);
    }
  }

  lemma {:induction false} AttemptsSpread(w: World, i: nat, n: nat)
    requires PausesInv(w) && 0 < n && i + n <= |w.attempts|
    ensures w.attempts[i] + Span(n) <= w.attempts[i + n - 1]
  {
    if n > 1 {
      AttemptsSpread(w, i, n - 1);
      DelayGrows(n - 2, i + n - 2);
    }
  }

  lemma {:induction false} DelayGrows(j: nat, k: nat)
    requires j <= k
    ensures DelayAfter(j) <= DelayAfter(k)
  {
    if j < k {
      DelayGrows(j, k - 1);
      DoublingIsClosedForm(k - 1);
    }
  }

  /** In every run, any seven or more consecutive attempts without a success in
      between take at least 6.3 s, and 5 s more for each attempt beyond the
      seventh. */
  lemma FailedAttemptsAreSpread(q: CreateLeaseRequest, server: Server, steps: seq<Step>, i: nat, n: nat)
    requires FreshServer(server) && IsRun(q, Initial(server), steps)
    requires 7 <= n && i + n <= |End(q, Initial(server), steps).attempts|
    ensures var attempts := End(q, Initial(server), steps).attempts;
            attempts[i] + (6300 + 5000 * (n - 7)) * NANOS_PER_MILLI <= attempts[i + n - 1]
  {
    RunKeepsPauses(q, Initial(server), steps);
    AttemptsSpread(End(q, Initial(server), steps), i, n);
    SpanInMillis(n);
  }

  /** At most so many attempts without a success fall into a window of time. */
  function AttemptsWithin(window: nat): nat {
    if window < 6300 * NANOS_PER_MILLI then 6
    else 7 + (window - 6300 * NANOS_PER_MILLI) / (5000 * NANOS_PER_MILLI)
  }

  lemma AttemptsInWindow(w: World, i: nat, n: nat, window: nat)
    requires PausesInv(w) && 0 < n && i + n <= |w.attempts|
    requires w.attempts[i + n - 1] <= w.attempts[i] + window
    ensures n <= AttemptsWithin(window)
  {
    if n >= 7 {
      AttemptsSpread(w, i, n);
      SpanInMillis(n);
    }
  }
}
