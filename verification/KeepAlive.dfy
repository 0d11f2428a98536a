/** When a held lease cannot lapse. The client renews after a third of the
    lifetime, every call may take the whole request timeout, and a timer may go
    off late by up to `jitter`. */
module KeepAlive {
  import opened Wrappers
  import opened Domain
  import opened Protocol
  import opened Leases
  import opened Registration
  import opened LeaseProtocol

  /** No call has been waiting for longer than the request timeout, and no timer
      is overdue by more than `jitter`. */
  predicate Prompt(w: World, jitter: nat) {
    match w.client.phase
    case Connecting => w.clock <= w.since + CONTROL_REQUEST_TIMEOUT
    case Renewing(_) => w.clock <= w.since + CONTROL_REQUEST_TIMEOUT
    case BackingOff => w.clock <= WakeTime(w) + jitter
    case Holding(_) => w.clock <= WakeTime(w) + jitter
    case _ => true
  }

  /** Nothing outside the lease protocol interferes: the server stays up, calls
      are answered, the client is not told to stop, and no operator removes one
      of its leases. */
  predicate Kind(w: World, step: Step) {
    match step
    case Crash(_) => false
    case Fail => false
    case Shutdown => false
    case Hear(callbackOk) => callbackOk
    case Unregister(id) => id !in w.mine
    case _ => true
  }

  /** A run of such steps through such worlds. */
  predicate KindRun(q: CreateLeaseRequest, w: World, steps: seq<Step>, jitter: nat)
    decreases |steps|
  {
    && Prompt(w, jitter)
    && (steps == [] ||
        (Enabled(w, steps[0]) && Kind(w, steps[0]) && KindRun(q, Apply(q, w, steps[0]), steps[1..], jitter)))
  }

  /** Two calls and one renewal interval fit strictly into the lifetime. */
  predicate Survives(ttl: nat, jitter: nat) {
    2 * CONTROL_REQUEST_TIMEOUT + RenewAfter(ttl) + jitter < ttl
  }

  /** The lease is stored for the client's request, and its expiry leaves room for
      what the client still has to do. */
  ghost predicate Kept(q: CreateLeaseRequest, w: World, c: Config, id: LeaseId, jitter: nat) {
    && w.server.Up? && w.server.config == c
    && id in w.server.table && w.server.table[id].request == q
    && id in w.mine && id !in w.released
    && var held := Held(w.server.incarnation, id, RenewAfter(c.leaseTtl));
       var expiry := w.server.table[id].expiresAt;
       match w.client.phase
       case Connecting =>
         w.reply == Some(Accepted(held)) && w.since + c.leaseTtl <= expiry && NoRenewal(w, id)
       case Holding(lease) =>
         lease == held && w.since + c.leaseTtl <= expiry + CONTROL_REQUEST_TIMEOUT && NoRenewal(w, id)
       case Renewing(lease) =>
         && lease == held
         && (if w.reply == None then
               && w.since + c.leaseTtl <= expiry + CONTROL_REQUEST_TIMEOUT + held.renewAfter + jitter
               && OneRenewal(w, id)
             else
               w.reply == Some(Accepted(held)) && w.since + c.leaseTtl <= expiry && NoRenewal(w, id))
       case _ => false
  }

  ghost predicate NoRenewal(w: World, id: LeaseId) {
    forall r :: r in w.requests ==> r.call != RenewCall(id)
  }

  ghost predicate OneRenewal(w: World, id: LeaseId) {
    && w.server.Up?
    && forall r :: r in w.requests && r.call == RenewCall(id) ==>
         r == Request(RenewCall(id), w.key, w.server.incarnation, w.since)
  }

  /** A kept lease is live, and every request on its route is sent to it, with
      whatever clock reading the request is matched. */
  lemma KeptIsLive(
    q: CreateLeaseRequest, w: World, c: Config, id: LeaseId, jitter: nat, sample: nat, route: Route)
    requires Kept(q, w, c, id, jitter) && Prompt(w, jitter) && Survives(c.leaseTtl, jitter)
    requires sample <= w.clock && RouteMatches(q, route)
    ensures w.clock < w.server.table[id].expiresAt
    ensures id in MatchingIds(w.server.table, sample, route)
  {
  }

  lemma ServingKeeps(q: CreateLeaseRequest, w: World, step: Step, c: Config, id: LeaseId, jitter: nat)
    requires Inv(w) && Kept(q, w, c, id, jitter) && Prompt(w, jitter) && Survives(c.leaseTtl, jitter)
    requires Enabled(w, step) && step.Serve?
    ensures Kept(q, Apply(q, w, step), c, id, jitter)
  {
    KeptIsLive(q, w, c, id, jitter, w.clock, Route(q.verb, q.path, q.host));
  }

  lemma OthersKeep(q: CreateLeaseRequest, w: World, step: Step, c: Config, id: LeaseId, jitter: nat)
    requires Inv(w) && Kept(q, w, c, id, jitter) && Prompt(w, jitter) && Survives(c.leaseTtl, jitter)
    requires Enabled(w, step) && Kind(w, step) && !ClientMoves(step) && !step.Serve?
    ensures Kept(q, Apply(q, w, step), c, id, jitter)
  {
  }

  lemma ClientKeeps(q: CreateLeaseRequest, w: World, step: Step, c: Config, id: LeaseId, jitter: nat)
    requires Inv(w) && Kept(q, w, c, id, jitter) && Prompt(w, jitter) && Survives(c.leaseTtl, jitter)
    requires Enabled(w, step) && Kind(w, step) && ClientMoves(step)
    ensures Kept(q, Apply(q, w, step), c, id, jitter)
  {
  }

  lemma {:induction false} KindRunIsRun(q: CreateLeaseRequest, w: World, steps: seq<Step>, jitter: nat)
    requires KindRun(q, w, steps, jitter)
    ensures IsRun(q, w, steps) && Prompt(End(q, w, steps), jitter)
    decreases |steps|
  {
    if steps != [] {
      KindRunIsRun(q, Apply(q, w, steps[0]), steps[1..], jitter);
    }
  }

  lemma StepKeeps(q: CreateLeaseRequest, w: World, step: Step, c: Config, id: LeaseId, jitter: nat)
    requires Inv(w) && Kept(q, w, c, id, jitter) && Prompt(w, jitter) && Survives(c.leaseTtl, jitter)
    requires Enabled(w, step) && Kind(w, step)
    ensures Kept(q, Apply(q, w, step), c, id, jitter)
  {
    if ClientMoves(step) {
      ClientKeeps(q, w, step, c, id, jitter);
    } else if step.Serve? {
      ServingKeeps(q, w, step, c, id, jitter);
    } else {
      OthersKeep(q, w, step, c, id, jitter);
    }
  }

  lemma {:induction false} RunKeeps(
    q: CreateLeaseRequest, w: World, steps: seq<Step>, c: Config, id: LeaseId, jitter: nat)
    requires Inv(w) && Kept(q, w, c, id, jitter) && Survives(c.leaseTtl, jitter)
    requires KindRun(q, w, steps, jitter) && IsRun(q, w, steps)
    ensures Kept(q, End(q, w, steps), c, id, jitter)
    decreases |steps|
  {
    if steps != [] {
      StepKeepsInv(q, w, steps[0]);
      StepKeeps(q, w, steps[0], c, id, jitter);
      RunKeeps(q, Apply(q, w, steps[0]), steps[1..], c, id, jitter);
    }
  }

  /** The server accepts the creation that the client is waiting for. */
  predicate Grants(q: CreateLeaseRequest, w: World, step: Step) {
    && Enabled(w, step) && step.Serve? && step.request.call.CreateCall?
    && w.client.phase.Connecting? && step.request.key == w.key
    && Leases.Create(w.server.config, w.server.table, q, step.sample, step.newId).1.Success?
  }

  lemma GrantIsKept(q: CreateLeaseRequest, w: World, step: Step, jitter: nat)
    requires Inv(w) && Grants(q, w, step)
    ensures Kept(q, Apply(q, w, step), w.server.config, step.newId, jitter)
  {
  }

  /** After any past, with crashes, restarts and lost messages: from the moment a
      server accepts the client's creation, through any number of renewals, the
      lease is live and gets every request on its route, whatever the clock
      reading of the request, and the client keeps that lease and is never
      refused a renewal. */
  lemma LeaseNeverLapses(
    q: CreateLeaseRequest, server: Server, past: seq<Step>, grant: Step, steps: seq<Step>, jitter: nat)
    requires FreshServer(server) && IsRun(q, Initial(server), past)
    requires Grants(q, End(q, Initial(server), past), grant)
    requires KindRun(q, Apply(q, End(q, Initial(server), past), grant), steps, jitter)
    requires Survives(End(q, Initial(server), past).server.config.leaseTtl, jitter)
    ensures var granted := Apply(q, End(q, Initial(server), past), grant);
            && IsRun(q, granted, steps)
            && var last := End(q, granted, steps);
               && last.server.Up? && grant.newId in last.server.table
               && last.server.table[grant.newId].request == q
               && last.clock < last.server.table[grant.newId].expiresAt
               && (forall sample: nat, route :: sample <= last.clock && RouteMatches(q, route) ==>
                     grant.newId in MatchingIds(last.server.table, sample, route))
               && (Waits(last) ==> last.reply != Some(Rejected))
               && (last.client.phase.Connecting?
                   || (Current(last.client).Some? && Current(last.client).value.leaseId == grant.newId))
  {
    var w := End(q, Initial(server), past);
    var granted := Apply(q, w, grant);
    var c := w.server.config;
    RunKeepsInv(q, Initial(server), past);
    GrantIsKept(q, w, grant, jitter);
    StepKeepsInv(q, w, grant);
    KindRunIsRun(q, granted, steps, jitter);
    RunKeeps(q, granted, steps, c, grant.newId, jitter);
    var last := End(q, granted, steps);
    forall sample: nat, route | sample <= last.clock && RouteMatches(q, route)
      ensures grant.newId in MatchingIds(last.server.table, sample, route)
    {
      KeptIsLive(q, last, c, grant.newId, jitter, sample, route);
    }
    KeptIsLive(q, last, c, grant.newId, jitter, last.clock, Route(q.verb, q.path, q.host));
  }

  ghost predicate AllLive(w: World) {
    w.server.Up? && w.mine <= Prune(w.server.table, w.clock).Keys
  }

  /** With a server that is up from the start, no kind run ever has a lease of
      the client expired. */
  ghost predicate NeverLapses(q: CreateLeaseRequest, c: Config, jitter: nat) {
    forall steps :: KindRun(q, Initial(Up(0, c, map[])), steps, jitter) ==>
      IsRun(q, Initial(Up(0, c, map[])), steps) && AllLive(End(q, Initial(Up(0, c, map[])), steps))
  }

  /** Before the first creation is accepted. */
  ghost predicate Waiting(w: World, c: Config) {
    && w.server.Up? && w.server.config == c && w.descriptor == Some(w.server.incarnation)
    && w.mine == {}
    && (w.client.phase.Connecting? || w.client.phase.BackingOff?)
    && (w.client.phase.Connecting? ==>
          w.calling == w.descriptor && (w.reply.Some? ==> w.reply.value.Rejected?))
    && (forall r :: r in w.requests && r.call.CreateCall? ==> w.client.phase.Connecting? && r.key == w.key)
  }

  ghost predicate NoCreation(w: World) {
    forall r :: r in w.requests ==> !r.call.CreateCall?
  }

  ghost predicate KeptAlone(q: CreateLeaseRequest, w: World, c: Config, id: LeaseId, jitter: nat) {
    Kept(q, w, c, id, jitter) && w.mine == {id} && NoCreation(w)
  }

  lemma WaitingStep(q: CreateLeaseRequest, w: World, step: Step, c: Config, jitter: nat)
    requires Inv(w) && Waiting(w, c) && Enabled(w, step) && Kind(w, step)
    ensures Waiting(Apply(q, w, step), c) || exists id :: KeptAlone(q, Apply(q, w, step), c, id, jitter)
  {
    if Grants(q, w, step) {
      GrantIsKept(q, w, step, jitter);
      assert KeptAlone(q, Apply(q, w, step), c, step.newId, jitter);
    } else if ClientMoves(step) {
      assert Waiting(Apply(q, w, step), c);
    } else if step.Serve? {
      assert Waiting(Apply(q, w, step), c);
    }
  }

  lemma KeptAloneStep(q: CreateLeaseRequest, w: World, step: Step, c: Config, id: LeaseId, jitter: nat)
    requires Inv(w) && KeptAlone(q, w, c, id, jitter) && Prompt(w, jitter) && Survives(c.leaseTtl, jitter)
    requires Enabled(w, step) && Kind(w, step)
    ensures KeptAlone(q, Apply(q, w, step), c, id, jitter)
  {
    StepKeeps(q, w, step, c, id, jitter);
  }

  lemma {:induction false} RunKeepsAllLive(
    q: CreateLeaseRequest, w: World, steps: seq<Step>, c: Config, jitter: nat)
    requires Inv(w) && (Waiting(w, c) || exists id :: KeptAlone(q, w, c, id, jitter))
    requires Survives(c.leaseTtl, jitter)
    requires KindRun(q, w, steps, jitter) && IsRun(q, w, steps)
    ensures AllLive(End(q, w, steps))
    decreases |steps|
  {
    if steps == [] {
      if !Waiting(w, c) {
        var id :| KeptAlone(q, w, c, id, jitter);
        KeptIsLive(q, w, c, id, jitter, w.clock, Route(q.verb, q.path, q.host));
      }
    } else {
      StepKeepsInv(q, w, steps[0]);
      if Waiting(w, c) {
        WaitingStep(q, w, steps[0], c, jitter);
      } else {
        var id :| KeptAlone(q, w, c, id, jitter);
        KeptAloneStep(q, w, steps[0], c, id, jitter);
      }
      RunKeepsAllLive(q, Apply(q, w, steps[0]), steps[1..], c, jitter);
    }
  }

  /** A client that has just heard of its lease: its timer goes off late, and the
      renewal takes the whole timeout without being served. */
  lemma SlowRenewalLapses(q: CreateLeaseRequest, w: World, jitter: nat) returns (steps: seq<Step>)
    requires w.server.Up? && w.client.phase.Holding? && w.since == w.clock
    requires var lease := w.client.phase.lease;
             && lease.leaseId in w.mine && lease.leaseId in w.server.table
             && w.server.table[lease.leaseId].expiresAt
                <= w.clock + lease.renewAfter + jitter + CONTROL_REQUEST_TIMEOUT
    ensures KindRun(q, w, steps, jitter) && IsRun(q, w, steps) && !AllLive(End(q, w, steps))
  {
    var lease := w.client.phase.lease;
    var s3, s4, s5 := Tick(lease.renewAfter + jitter), Wake, Tick(CONTROL_REQUEST_TIMEOUT);
    var w4 := Apply(q, w, s3);
    var w5 := Apply(q, w4, s4);
    var w6 := Apply(q, w5, s5);
    assert lease.leaseId in w6.mine && lease.leaseId !in Prune(w6.server.table, w6.clock);
    KindRunFrom(q, w5, s5, [], jitter);
    KindRunFrom(q, w4, s4, [s5], jitter);
    KindRunFrom(q, w, s3, [s4, s5], jitter);
    steps := [s3, s4, s5];
    assert [s3] + [s4, s5] == steps && [s4] + [s5] == [s4, s5] && [s5] + [] == [s5];
  }

  /** A creation that is sampled at once, but whose response takes the whole
      timeout. */
  lemma SlowCreation(q: CreateLeaseRequest, c: Config, jitter: nat) returns (w1: World, w2: World, w3: World)
    requires Allowed(c, q) && 0 < c.maxTargets
    ensures var w0, s0 := Initial(Up(0, c, map[])), Serve(Request(CreateCall, 1, 0, 0), 0, 7);
            Prompt(w0, jitter) && Enabled(w0, s0) && Kind(w0, s0) && w1 == Apply(q, w0, s0)
    ensures Prompt(w1, jitter) && w2 == Apply(q, w1, Tick(CONTROL_REQUEST_TIMEOUT))
    ensures Prompt(w2, jitter) && Enabled(w2, Hear(true)) && w3 == Apply(q, w2, Hear(true))
    ensures w3.server.Up? && w3.client.phase.Holding? && w3.since == w3.clock == CONTROL_REQUEST_TIMEOUT
    ensures w3.client.phase.lease == Held(0, 7, RenewAfter(c.leaseTtl)) && 7 in w3.mine
    ensures w3.server.table == map[7 := Lease(q, c.leaseTtl)]
  {
    assert Prune(map[], 0) == map[];
    w1 := Apply(q, Initial(Up(0, c, map[])), Serve(Request(CreateCall, 1, 0, 0), 0, 7));
    w2 := Apply(q, w1, Tick(CONTROL_REQUEST_TIMEOUT));
    w3 := Apply(q, w2, Hear(true));
  }

  /** The slowest run: a slow creation, and then the same with a renewal. */
  lemma SlowestRunLapses(q: CreateLeaseRequest, c: Config, jitter: nat)
    requires Allowed(c, q) && 0 < c.maxTargets
    requires !Survives(c.leaseTtl, jitter)
    ensures !NeverLapses(q, c, jitter)
  {
    var s0, s1, s2 := Serve(Request(CreateCall, 1, 0, 0), 0, 7), Tick(CONTROL_REQUEST_TIMEOUT), Hear(true);
    var w1, w2, w3 := SlowCreation(q, c, jitter);
    var rest := SlowRenewalLapses(q, w3, jitter);
    KindRunFrom(q, w2, s2, rest, jitter);
    KindRunFrom(q, w1, s1, [s2] + rest, jitter);
    KindRunFrom(q, Initial(Up(0, c, map[])), s0, [s1] + ([s2] + rest), jitter);
  }

  lemma KindRunFrom(q: CreateLeaseRequest, w: World, step: Step, steps: seq<Step>, jitter: nat)
    requires Prompt(w, jitter) && Enabled(w, step) && Kind(w, step)
    requires KindRun(q, Apply(q, w, step), steps, jitter) && IsRun(q, Apply(q, w, step), steps)
    ensures KindRun(q, w, [step] + steps, jitter) && IsRun(q, w, [step] + steps)
    ensures End(q, w, [step] + steps) == End(q, Apply(q, w, step), steps)
  {
    assert ([step] + steps)[1..] == steps;
  }

  /** The bound is exact: a lease can lapse in some kind run if two request
      timeouts, one renewal interval and the timer's lateness reach the
      lifetime, and in none otherwise. */
  lemma KeepAliveIsExact(q: CreateLeaseRequest, c: Config, jitter: nat)
    requires Allowed(c, q) && 0 < c.maxTargets && MIN_LEASE_TTL <= c.leaseTtl
    ensures NeverLapses(q, c, jitter) <==> Survives(c.leaseTtl, jitter)
  {
    if Survives(c.leaseTtl, jitter) {
      var w := Initial(Up(0, c, map[]));
      forall steps | KindRun(q, w, steps, jitter)
        ensures IsRun(q, w, steps) && AllLive(End(q, w, steps))
      {
        KindRunIsRun(q, w, steps, jitter);
        RunKeepsAllLive(q, w, steps, c, jitter);
      }
    } else {
      SlowestRunLapses(q, c, jitter);
    }
  }

  /** With timers on time, every lifetime above 6 s is enough; a lifetime of 6 s
      is not. Up to four seconds less than two thirds of the lifetime, timers may
      be late. */
  lemma SixSecondsAreNeeded(ttl: nat, jitter: nat)
    ensures 6 * SECOND < ttl ==> Survives(ttl, 0)
    ensures !Survives(6 * SECOND, 0)
    ensures jitter + 2 * CONTROL_REQUEST_TIMEOUT < 2 * ttl / 3 ==> Survives(ttl, jitter)
  {
  }
}
