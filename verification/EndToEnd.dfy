/** The lease protocol and the ingress as one system: the ingress lives and dies
    with the server, and matches requests against the server's own table. */
module EndToEnd {
  import opened Wrappers
  import opened Domain
  import opened Leases
  import opened Dispatch
  import LeaseProtocol
  import KeepAlive

  /** The protocol's world and the ingress of the server that is up. */
  datatype System = System(control: LeaseProtocol.World, ingress: World)

  datatype Move =
    | Pass(elapsed: nat)
    | Control(action: LeaseProtocol.Step)
    | Traffic(step: Step)

  predicate IsMatch(step: Step, table: Table) {
    step.Match? ==> step.table == table
  }

  ghost predicate Possible(l: Limits, s: System, move: Move) {
    match move
    case Pass(_) => true
    case Control(action) => !action.Tick? && LeaseProtocol.Enabled(s.control, action)
    case Traffic(step) =>
      && !step.Tick? && s.control.server.Up? && Enabled(l, s.ingress, step)
      && IsMatch(step, s.control.server.table)
  }

  /** A server that starts has a new ingress. */
  function Next(q: CreateLeaseRequest, l: Limits, s: System, move: Move): System
    requires Possible(l, s, move)
  {
    match move
    case Pass(elapsed) =>
      System(LeaseProtocol.Apply(q, s.control, LeaseProtocol.Tick(elapsed)), Apply(l, s.ingress, Tick(elapsed)))
    case Control(action) =>
      System(LeaseProtocol.Apply(q, s.control, action),
             if action.Boot? then Initial(l).(clock := s.ingress.clock) else s.ingress)
    case Traffic(step) => s.(ingress := Apply(l, s.ingress, step))
  }

  function Start(server: LeaseProtocol.Server, l: Limits): System {
    System(LeaseProtocol.Initial(server), Initial(l))
  }

  ghost predicate IsRun(q: CreateLeaseRequest, l: Limits, s: System, moves: seq<Move>)
    decreases |moves|
  {
    moves == [] || (Possible(l, s, moves[0]) && IsRun(q, l, Next(q, l, s, moves[0]), moves[1..]))
  }

  ghost function End(q: CreateLeaseRequest, l: Limits, s: System, moves: seq<Move>): System
    requires IsRun(q, l, s, moves)
    decreases |moves|
  {
    if moves == [] then s else End(q, l, Next(q, l, s, moves[0]), moves[1..])
  }

  /** As `KindRun`, with any traffic beside it. */
  ghost predicate KindRun(q: CreateLeaseRequest, l: Limits, s: System, moves: seq<Move>, jitter: nat)
    decreases |moves|
  {
    && KeepAlive.Prompt(s.control, jitter)
    && (moves == [] ||
        (Possible(l, s, moves[0])
         && (moves[0].Control? ==> KeepAlive.Kind(s.control, moves[0].action))
         && KindRun(q, l, Next(q, l, s, moves[0]), moves[1..], jitter)))
  }

  ghost predicate SystemInv(l: Limits, s: System) {
    && LeaseProtocol.Inv(s.control)
    && Inv(l, s.ingress) && StartsInv(s.ingress)
    && s.control.clock == s.ingress.clock
  }

  lemma FreshIngress(l: Limits, clock: nat)
    ensures var w := Initial(l).(clock := clock); Inv(l, w) && StartsInv(w)
  {
    InitialInv(l);
    var w := Initial(l).(clock := clock);
    assert IngressHolders(w) == {} && DeliveryHolders(w) == {};
  }

  lemma NextKeepsInv(q: CreateLeaseRequest, l: Limits, s: System, move: Move)
    requires SystemInv(l, s) && Possible(l, s, move)
    ensures SystemInv(l, Next(q, l, s, move))
  {
    match move
    case Pass(elapsed) =>
      LeaseProtocol.StepKeepsInv(q, s.control, LeaseProtocol.Tick(elapsed));
      StepKeepsInv(l, s.ingress, Tick(elapsed));
    case Control(action) =>
      LeaseProtocol.StepKeepsInv(q, s.control, action);
      ActionKeepsClock(q, s.control, action);
      FreshIngress(l, s.ingress.clock);
    case Traffic(step) =>
      StepKeepsInv(l, s.ingress, step);
      StepKeepsClock(l, s.ingress, step);
  }

  lemma ActionKeepsClock(q: CreateLeaseRequest, w: LeaseProtocol.World, action: LeaseProtocol.Step)
    requires LeaseProtocol.Enabled(w, action) && !action.Tick?
    ensures LeaseProtocol.Apply(q, w, action).clock == w.clock
  {
  }

  lemma StepKeepsClock(l: Limits, w: World, step: Step)
    requires Enabled(l, w, step) && !step.Tick?
    ensures Apply(l, w, step).clock == w.clock
  {
  }

  lemma {:induction false} RunKeepsSystem(q: CreateLeaseRequest, l: Limits, s: System, moves: seq<Move>)
    requires SystemInv(l, s) && IsRun(q, l, s, moves)
    ensures SystemInv(l, End(q, l, s, moves))
    decreases |moves|
  {
    if moves != [] {
      NextKeepsInv(q, l, s, moves[0]);
      RunKeepsSystem(q, l, Next(q, l, s, moves[0]), moves[1..]);
    }
  }

  /** The request has not been matched, and will not be if it has ended. */
  predicate IsUnmatched(r: Request) {
    && r.deliveries == []
    && (r.phase.Matching? || r.phase.Aborted? || r.phase == Finished(ShortCircuit(503, 0, "ingress-capacity")))
  }

  /** The lease was among those that the request was matched with. */
  predicate IsMatched(q: CreateLeaseRequest, r: Request, id: LeaseId) {
    id in r.table && r.table[id].request == q && id in MatchingIds(r.table, r.sample, r.route)
  }

  ghost predicate MatchedIfFits(q: CreateLeaseRequest, w: World, n: nat, id: LeaseId) {
    n in w.requests && RouteMatches(q, w.requests[n].route) ==>
      IsUnmatched(w.requests[n]) || IsMatched(q, w.requests[n], id)
  }

  /** No step but its own match changes what a request was matched with. */
  lemma TrafficKeepsMatched(q: CreateLeaseRequest, l: Limits, w: World, step: Step, n: nat, id: LeaseId)
    requires Enabled(l, w, step) && !step.Tick? && MatchedIfFits(q, w, n, id)
    requires step.Match? && step.q == n && RouteMatches(q, w.requests[n].route) ==>
               && id in step.table && step.table[id].request == q
               && id in MatchingIds(step.table, step.sample, w.requests[n].route)
    ensures MatchedIfFits(q, Apply(l, w, step), n, id)
  {
    if step.q != n {
      StepIsLocal(l, w, step, n);
    }
  }

  /** Along a kind run, the lease is kept and requests are matched with it. */
  lemma KindMoveKeeps(
    q: CreateLeaseRequest, l: Limits, s: System, move: Move, c: Config, id: LeaseId, jitter: nat, n: nat)
    requires SystemInv(l, s) && KeepAlive.Kept(q, s.control, c, id, jitter) && MatchedIfFits(q, s.ingress, n, id)
    requires KeepAlive.Prompt(s.control, jitter) && KeepAlive.Survives(c.leaseTtl, jitter)
    requires Possible(l, s, move) && (move.Control? ==> KeepAlive.Kind(s.control, move.action))
    ensures var s' := Next(q, l, s, move);
            KeepAlive.Kept(q, s'.control, c, id, jitter) && MatchedIfFits(q, s'.ingress, n, id)
  {
    match move
    case Pass(elapsed) =>
      KeepAlive.StepKeeps(q, s.control, LeaseProtocol.Tick(elapsed), c, id, jitter);
    case Control(action) =>
      KeepAlive.StepKeeps(q, s.control, action, c, id, jitter);
    case Traffic(step) =>
      if step.Match? && RouteMatches(q, s.ingress.requests[step.q].route) {
        KeepAlive.KeptIsLive(q, s.control, c, id, jitter, step.sample, s.ingress.requests[step.q].route);
      }
      TrafficKeepsMatched(q, l, s.ingress, step, n, id);
  }

  lemma {:induction false} KindRunKeeps(
    q: CreateLeaseRequest, l: Limits, s: System, moves: seq<Move>, c: Config, id: LeaseId, jitter: nat, n: nat)
    requires SystemInv(l, s) && KeepAlive.Kept(q, s.control, c, id, jitter) && MatchedIfFits(q, s.ingress, n, id)
    requires KeepAlive.Survives(c.leaseTtl, jitter) && KindRun(q, l, s, moves, jitter)
    ensures IsRun(q, l, s, moves)
    ensures SystemInv(l, End(q, l, s, moves)) && MatchedIfFits(q, End(q, l, s, moves).ingress, n, id)
    decreases |moves|
  {
    if moves != [] {
      NextKeepsInv(q, l, s, moves[0]);
      KindMoveKeeps(q, l, s, moves[0], c, id, jitter, n);
      KindRunKeeps(q, l, Next(q, l, s, moves[0]), moves[1..], c, id, jitter, n);
    }
  }

  /** The request is not answered for want of targets, and if it has deliveries then
      exactly one of them is for the lease, with the client's own target and wish
      about the host. */
  ghost predicate GetsRequest(q: CreateLeaseRequest, r: Request, id: LeaseId) {
    && (r.phase.Finished? ==> r.phase.response.reason != "no-targets")
    && (r.deliveries != [] ==> |r.targets| == |r.deliveries| && exists i :: IsOnly(q, r, i, id))
  }

  ghost predicate IsOnly(q: CreateLeaseRequest, r: Request, i: int, id: LeaseId)
    requires |r.targets| == |r.deliveries|
  {
    && 0 <= i < |r.deliveries|
    && r.deliveries[i].leaseId == id && r.targets[i] == DispatchTarget(id, q.target, q.preserveHost)
    && forall j :: 0 <= j < |r.deliveries| && j != i ==> r.deliveries[j].leaseId != id
  }

  lemma MatchedRequestHasTarget(q: CreateLeaseRequest, l: Limits, r: Request, id: LeaseId)
    requires RequestInv(l, r) && IsMatched(q, r, id)
    ensures r.phase.Finished? ==> r.phase.response.reason != "no-targets"
  {
  }

  lemma OnlyDelivery(q: CreateLeaseRequest, l: Limits, r: Request, id: LeaseId)
    requires RequestInv(l, r) && IsMatched(q, r, id) && r.deliveries != []
    ensures |r.targets| == |r.deliveries| && exists i :: IsOnly(q, r, i, id)
  {
    assert Targets(r.targets, id);
    var i :| 0 <= i < |r.targets| && r.targets[i].leaseId == id;
    assert r.targets[i] == TargetOf(id, r.table[id]);
    forall j | 0 <= j < |r.deliveries| && j != i
      ensures r.deliveries[j].leaseId != id
    {
      assert r.deliveries[j].leaseId == r.targets[j].leaseId;
      assert j < i || i < j;
    }
    assert IsOnly(q, r, i, id);
  }

  /** From a sound system in which a creation is granted. */
  lemma GrantedLeaseGetsEachRequest(
    q: CreateLeaseRequest, l: Limits, s: System, grant: LeaseProtocol.Step, moves: seq<Move>, jitter: nat, n: nat)
    requires SystemInv(l, s) && KeepAlive.Grants(q, s.control, grant)
    requires KeepAlive.Survives(s.control.server.config.leaseTtl, jitter)
    requires KindRun(q, l, Next(q, l, s, Control(grant)), moves, jitter)
    requires n in s.ingress.requests ==> s.ingress.requests[n].phase.Matching?
    ensures var granted := Next(q, l, s, Control(grant));
            && IsRun(q, l, granted, moves)
            && var requests := End(q, l, granted, moves).ingress.requests;
               n in requests && RouteMatches(q, requests[n].route) ==> GetsRequest(q, requests[n], grant.newId)
  {
    var granted := Next(q, l, s, Control(grant));
    KeepAlive.GrantIsKept(q, s.control, grant, jitter);
    NextKeepsInv(q, l, s, Control(grant));
    MatchingIsUnmatched(l, s.ingress, n);
    KindRunKeeps(q, l, granted, moves, s.control.server.config, grant.newId, jitter, n);
    MatchedGetsRequest(q, l, End(q, l, granted, moves).ingress, n, grant.newId);
  }

  lemma StartIsSound(server: LeaseProtocol.Server, l: Limits)
    requires LeaseProtocol.FreshServer(server)
    ensures SystemInv(l, Start(server, l))
  {
    InitialInv(l);
  }

  /** After any past of the whole system, with crashes and any traffic: from the
      moment a server accepts the client's creation, and as long as the lease is
      kept alive, each request on its route that is not matched yet gets to it: it
      is not answered for want of targets, and if it reaches dispatch it has
      exactly one delivery for the lease. */
  lemma HeldLeaseGetsEachRequest(
    q: CreateLeaseRequest, server: LeaseProtocol.Server, l: Limits, past: seq<Move>,
    grant: LeaseProtocol.Step, moves: seq<Move>, jitter: nat, n: nat)
    requires LeaseProtocol.FreshServer(server) && IsRun(q, l, Start(server, l), past)
    requires var s := End(q, l, Start(server, l), past);
             && KeepAlive.Grants(q, s.control, grant)
             && KeepAlive.Survives(s.control.server.config.leaseTtl, jitter)
             && KindRun(q, l, Next(q, l, s, Control(grant)), moves, jitter)
             && (n in s.ingress.requests ==> s.ingress.requests[n].phase.Matching?)
    ensures var s := End(q, l, Start(server, l), past);
            var granted := Next(q, l, s, Control(grant));
            && IsRun(q, l, granted, moves)
            && var requests := End(q, l, granted, moves).ingress.requests;
               n in requests && RouteMatches(q, requests[n].route) ==> GetsRequest(q, requests[n], grant.newId)
  {
    StartIsSound(server, l);
    RunKeepsSystem(q, l, Start(server, l), past);
    GrantedLeaseGetsEachRequest(q, l, End(q, l, Start(server, l), past), grant, moves, jitter, n);
  }

  lemma MatchingIsUnmatched(l: Limits, w: World, n: nat)
    requires RequestsInv(l, w) && (n in w.requests ==> w.requests[n].phase.Matching?)
    ensures n in w.requests ==> IsUnmatched(w.requests[n])
  {
  }

  lemma MatchedGetsRequest(q: CreateLeaseRequest, l: Limits, w: World, n: nat, id: LeaseId)
    requires RequestsInv(l, w) && MatchedIfFits(q, w, n, id)
    ensures n in w.requests && RouteMatches(q, w.requests[n].route) ==> GetsRequest(q, w.requests[n], id)
  {
    if n in w.requests && RouteMatches(q, w.requests[n].route) && IsMatched(q, w.requests[n], id) {
      MatchedRequestHasTarget(q, l, w.requests[n], id);
      if w.requests[n].deliveries != [] {
        OnlyDelivery(q, l, w.requests[n], id);
      }
    }
  }
}
