/** How soon a client is registered again once a server is up and stays up. */
module Reconvergence {
  import opened Wrappers
  import opened Domain
  import opened Protocol
  import opened Leases
  import opened Registration
  import opened LeaseProtocol
  import opened KeepAlive
  import opened Sets

  /** The server of this incarnation is up, and its descriptor is on disk. */
  predicate Serving(w: World, incarnation: nat) {
    w.server.Up? && w.server.incarnation == incarnation && w.descriptor == Some(incarnation)
  }

  /** The client holds a lease that this incarnation created. */
  predicate HoldsAt(w: World, incarnation: nat) {
    w.client.phase.Holding? && w.client.phase.lease.server == incarnation
  }

  predicate Running(w: World) {
    !w.client.phase.Leaving? && !w.client.phase.Stopped?
  }

  /** The server stays up and has room, calls to it do not fail unless they were
      made before (up to number `before`), calls to any other incarnation are not
      answered any more, and nobody stops the client. */
  predicate Steady(q: CreateLeaseRequest, w: World, step: Step, incarnation: nat, before: nat) {
    match step
    case Crash(_) => false
    case Shutdown => false
    case Fail => w.calling != Some(incarnation) || w.key <= before
    case Hear(callbackOk) => callbackOk && w.calling == Some(incarnation)
    case Serve(request, sample, newId) =>
      request.call.CreateCall? && w.server.Up? ==>
        Leases.Create(w.server.config, w.server.table, q, sample, newId).1.Success?
    case _ => true
  }

  /** A run of such steps through prompt worlds. */
  predicate SteadyRun(
    q: CreateLeaseRequest, w: World, steps: seq<Step>, incarnation: nat, before: nat, jitter: nat)
    decreases |steps|
  {
    && Prompt(w, jitter)
    && (steps == [] ||
        (Enabled(w, steps[0]) && Steady(q, w, steps[0], incarnation, before)
         && SteadyRun(q, Apply(q, w, steps[0]), steps[1..], incarnation, before, jitter)))
  }

  /** Somewhere along the run the client holds a lease at this incarnation. */
  predicate Reconnects(q: CreateLeaseRequest, w: World, steps: seq<Step>, incarnation: nat)
    requires IsRun(q, w, steps)
    decreases |steps|
  {
    HoldsAt(w, incarnation)
    || (steps != [] && Reconnects(q, Apply(q, w, steps[0]), steps[1..], incarnation))
  }

  /** The latest time at which the client can still be without a lease there. */
  function Deadline(w: World, incarnation: nat, before: nat, jitter: nat): nat {
    match w.client.phase
    case Connecting =>
      if w.calling == Some(incarnation) && w.reply != Some(Rejected) && before < w.key then
        w.since + CONTROL_REQUEST_TIMEOUT
      else w.since + 2 * CONTROL_REQUEST_TIMEOUT + MAX_RECONNECT_DELAY + jitter
    case BackingOff => WakeTime(w) + jitter + CONTROL_REQUEST_TIMEOUT
    case Holding(_) => WakeTime(w) + jitter + 2 * CONTROL_REQUEST_TIMEOUT
    case _ => w.since + 2 * CONTROL_REQUEST_TIMEOUT
  }

  lemma DeadlineIsAhead(w: World, incarnation: nat, before: nat, jitter: nat)
    requires Prompt(w, jitter) && Running(w)
    ensures w.clock <= Deadline(w, incarnation, before, jitter)
  {
  }

  ghost predicate Converging(w: World, incarnation: nat, before: nat) {
    && Inv(w) && before <= w.key && Serving(w, incarnation) && Running(w)
    && w.client.reconnectDelay <= MAX_RECONNECT_DELAY
  }

  lemma ClientKeepsDeadline(
    q: CreateLeaseRequest, w: World, step: Step, incarnation: nat, before: nat, jitter: nat)
    requires Converging(w, incarnation, before) && Prompt(w, jitter) && !HoldsAt(w, incarnation)
    requires Enabled(w, step) && Steady(q, w, step, incarnation, before) && ClientMoves(step)
    ensures !HoldsAt(Apply(q, w, step), incarnation) ==>
              && Converging(Apply(q, w, step), incarnation, before)
              && Deadline(Apply(q, w, step), incarnation, before, jitter) <= Deadline(w, incarnation, before, jitter)
  {
    StepKeepsInv(q, w, step);
  }

  lemma OthersKeepDeadline(
    q: CreateLeaseRequest, w: World, step: Step, incarnation: nat, before: nat, jitter: nat)
    requires Converging(w, incarnation, before) && !HoldsAt(w, incarnation)
    requires Enabled(w, step) && Steady(q, w, step, incarnation, before) && !ClientMoves(step)
    ensures !HoldsAt(Apply(q, w, step), incarnation) ==>
              && Converging(Apply(q, w, step), incarnation, before)
              && Deadline(Apply(q, w, step), incarnation, before, jitter) <= Deadline(w, incarnation, before, jitter)
  {
    StepKeepsInv(q, w, step);
  }

  lemma {:induction false} SteadyRunIsRun(
    q: CreateLeaseRequest, w: World, steps: seq<Step>, incarnation: nat, before: nat, jitter: nat)
    requires SteadyRun(q, w, steps, incarnation, before, jitter)
    ensures IsRun(q, w, steps)
    decreases |steps|
  {
    if steps != [] {
      SteadyRunIsRun(q, Apply(q, w, steps[0]), steps[1..], incarnation, before, jitter);
    }
  }

  lemma {:induction false} ReconnectsOrDeadlineHolds(
    q: CreateLeaseRequest, w: World, steps: seq<Step>, incarnation: nat, before: nat, jitter: nat)
    requires Converging(w, incarnation, before)
    requires SteadyRun(q, w, steps, incarnation, before, jitter) && IsRun(q, w, steps)
    ensures Reconnects(q, w, steps, incarnation)
            || End(q, w, steps).clock <= Deadline(w, incarnation, before, jitter)
    decreases |steps|
  {
    DeadlineIsAhead(w, incarnation, before, jitter);
    if steps != [] && !HoldsAt(w, incarnation) {
      if ClientMoves(steps[0]) {
        ClientKeepsDeadline(q, w, steps[0], incarnation, before, jitter);
      } else {
        OthersKeepDeadline(q, w, steps[0], incarnation, before, jitter);
      }
      var next := Apply(q, w, steps[0]);
      if !HoldsAt(next, incarnation) {
        ReconnectsOrDeadlineHolds(q, next, steps[1..], incarnation, before, jitter);
      }
    }
  }

  /** How long it can take, from the interval of the lease held at the start. */
  function Bound(w: World, jitter: nat): nat {
    var waiting := 2 * CONTROL_REQUEST_TIMEOUT + MAX_RECONNECT_DELAY;
    var holding :=
      if w.client.phase.Holding? then w.client.phase.lease.renewAfter + 2 * CONTROL_REQUEST_TIMEOUT else 0;
    jitter + if waiting <= holding then holding else waiting
  }

  /** After any past: a client that runs while a server is up and stays up holds a
      lease there within the renewal interval plus 4 s, or within 9 s, whichever
      is longer, whatever it was doing and however long the server was away. The
      call it is waiting for at the start may still fail, also at this server. */
  lemma ReconnectsInTime(
    q: CreateLeaseRequest, server: Server, past: seq<Step>, steps: seq<Step>, incarnation: nat, jitter: nat)
    requires FreshServer(server) && IsRun(q, Initial(server), past)
    requires var w := End(q, Initial(server), past);
             Serving(w, incarnation) && Running(w) && SteadyRun(q, w, steps, incarnation, w.key, jitter)
    ensures var w := End(q, Initial(server), past);
            && IsRun(q, w, steps)
            && (w.clock + Bound(w, jitter) < End(q, w, steps).clock ==> Reconnects(q, w, steps, incarnation))
  {
    var w := End(q, Initial(server), past);
    RunKeepsInv(q, Initial(server), past);
    RunKeepsPauses(q, Initial(server), past);
    if |w.attempts| > 0 {
      DoublingIsClosedForm(|w.attempts| - 1);
    }
    DoublingIsClosedForm(0);
    SteadyRunIsRun(q, w, steps, incarnation, w.key, jitter);
    ReconnectsOrDeadlineHolds(q, w, steps, incarnation, w.key, jitter);
  }

  /** The server accepts one more registration of the client. */
  predicate HasRoom(q: CreateLeaseRequest, w: World) {
    && w.server.Up? && Allowed(w.server.config, q)
    && |Prune(w.server.table, w.clock)| < w.server.config.maxTargets
  }

  lemma RoomStays(q: CreateLeaseRequest, w: World, elapsed: nat)
    requires HasRoom(q, w)
    ensures HasRoom(q, Apply(q, w, Tick(elapsed)))
  {
    var later := Prune(w.server.table, w.clock + elapsed);
    assert later.Keys <= Prune(w.server.table, w.clock).Keys;
    CardinalityMonotone(later.Keys, Prune(w.server.table, w.clock).Keys);
  }

  /** A steady run that ends with a lease at this incarnation. */
  predicate LeadsThere(
    q: CreateLeaseRequest, w: World, steps: seq<Step>, incarnation: nat, before: nat, jitter: nat)
  {
    SteadyRun(q, w, steps, incarnation, before, jitter) && IsRun(q, w, steps)
    && HoldsAt(End(q, w, steps), incarnation)
  }

  lemma Begins(
    q: CreateLeaseRequest, w: World, step: Step, rest: seq<Step>, incarnation: nat, before: nat, jitter: nat)
    requires Prompt(w, jitter) && Enabled(w, step) && Steady(q, w, step, incarnation, before)
    requires LeadsThere(q, Apply(q, w, step), rest, incarnation, before, jitter)
    ensures LeadsThere(q, w, [step] + rest, incarnation, before, jitter)
  {
    assert ([step] + rest)[1..] == rest;
  }

  /** The client has just asked this incarnation for a lease. */
  predicate Asks(w: World, incarnation: nat) {
    && w.client.phase.Connecting? && w.calling == Some(incarnation) && w.since == w.clock && w.reply == None
    && Request(CreateCall, w.key, incarnation, w.clock) in w.requests
  }

  lemma AskingLeads(q: CreateLeaseRequest, w: World, incarnation: nat, before: nat, jitter: nat)
    returns (steps: seq<Step>)
    requires Serving(w, incarnation) && HasRoom(q, w) && Asks(w, incarnation)
    ensures LeadsThere(q, w, steps, incarnation, before, jitter)
  {
    var newId := Unused(w.used);
    var serve := Serve(Request(CreateCall, w.key, incarnation, w.clock), w.clock, newId);
    var served := Apply(q, w, serve);
    Begins(q, served, Hear(true), [], incarnation, before, jitter);
    Begins(q, w, serve, [Hear(true)] + [], incarnation, before, jitter);
    steps := [serve] + ([Hear(true)] + []);
  }

  lemma {:induction false} Unused(used: set<LeaseId>) returns (id: LeaseId)
    ensures id !in used
  {
    if used == {} {
      return 0;
    }
    var most := Most(used);
    id := most + 1;
  }

  lemma {:induction false} Most(ids: set<LeaseId>) returns (most: LeaseId)
    requires ids != {}
    ensures forall id :: id in ids ==> id <= most
  {
    var some :| some in ids;
    if ids == {some} {
      return some;
    }
    assert ids == (ids - {some}) + {some};
    most := Most(ids - {some});
    most := if most < some then some else most;
  }

  /** Waiting for its timer, or for an answer that does not come. */
  lemma BackingOffLeads(q: CreateLeaseRequest, w: World, incarnation: nat, before: nat, jitter: nat)
    returns (steps: seq<Step>)
    requires Serving(w, incarnation) && HasRoom(q, w) && w.client.phase.BackingOff? && Prompt(w, jitter)
    ensures LeadsThere(q, w, steps, incarnation, before, jitter)
  {
    var sleep := Tick(if WakeTime(w) <= w.clock then 0 else WakeTime(w) - w.clock);
    RoomStays(q, w, sleep.elapsed);
    var awake := Apply(q, w, sleep);
    steps := AskingLeads(q, Apply(q, awake, Wake), incarnation, before, jitter);
    Begins(q, awake, Wake, steps, incarnation, before, jitter);
    Begins(q, w, sleep, [Wake] + steps, incarnation, before, jitter);
    steps := [sleep] + ([Wake] + steps);
  }

  lemma FailingLeads(q: CreateLeaseRequest, w: World, incarnation: nat, before: nat, jitter: nat)
    returns (steps: seq<Step>)
    requires Serving(w, incarnation) && HasRoom(q, w) && Waits(w) && Prompt(w, jitter)
    requires w.calling != Some(incarnation) || w.key <= before
    ensures LeadsThere(q, w, steps, incarnation, before, jitter)
  {
    if w.client.phase.Connecting? {
      steps := BackingOffLeads(q, Apply(q, w, Fail), incarnation, before, jitter);
    } else {
      steps := AskingLeads(q, Apply(q, w, Fail), incarnation, before, jitter);
    }
    Begins(q, w, Fail, steps, incarnation, before, jitter);
    steps := [Fail] + steps;
  }

  lemma HoldingLeads(q: CreateLeaseRequest, w: World, incarnation: nat, before: nat, jitter: nat)
    returns (steps: seq<Step>)
    requires Serving(w, incarnation) && HasRoom(q, w) && w.client.phase.Holding? && Prompt(w, jitter)
    ensures LeadsThere(q, w, steps, incarnation, before, jitter)
  {
    if w.client.phase.lease.server == incarnation {
      return [];
    }
    var sleep := Tick(if WakeTime(w) <= w.clock then 0 else WakeTime(w) - w.clock);
    RoomStays(q, w, sleep.elapsed);
    var awake := Apply(q, w, sleep);
    steps := FailingLeads(q, Apply(q, awake, Wake), incarnation, before, jitter);
    Begins(q, awake, Wake, steps, incarnation, before, jitter);
    Begins(q, w, sleep, [Wake] + steps, incarnation, before, jitter);
    steps := [sleep] + ([Wake] + steps);
  }

  /** And there is such a run: after any past, wherever the client stands and even
      if its pending call was lost, it gets to a lease at a server with room. */
  lemma ReconnectionIsPossible(
    q: CreateLeaseRequest, server: Server, past: seq<Step>, incarnation: nat, jitter: nat)
    returns (steps: seq<Step>)
    requires FreshServer(server) && IsRun(q, Initial(server), past)
    requires var w := End(q, Initial(server), past);
             Serving(w, incarnation) && Running(w) && HasRoom(q, w) && Prompt(w, jitter)
    ensures var w := End(q, Initial(server), past);
            LeadsThere(q, w, steps, incarnation, w.key, jitter)
  {
    var w := End(q, Initial(server), past);
    if w.client.phase.BackingOff? {
      steps := BackingOffLeads(q, w, incarnation, w.key, jitter);
    } else if w.client.phase.Holding? {
      steps := HoldingLeads(q, w, incarnation, w.key, jitter);
    } else {
      steps := FailingLeads(q, w, incarnation, w.key, jitter);
    }
  }
}
