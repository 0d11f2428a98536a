/** Leases that a failing client leaves behind: created for an attempt whose
    response never reached it, so that nobody renews or removes them. */
module Orphans {
  import opened Domain
  import opened Leases
  import opened LeaseProtocol

  /** The request that created each lease of the client. */
  type Births = map<LeaseId, Request>

  predicate Creates(q: CreateLeaseRequest, w: World, step: Step)
    requires Enabled(w, step)
  {
    && step.Serve? && step.request.call.CreateCall?
    && Leases.Create(w.server.config, w.server.table, q, step.sample, step.newId).1.Success?
  }

  function Bear(q: CreateLeaseRequest, w: World, step: Step, births: Births): Births
    requires Enabled(w, step)
  {
    if Creates(q, w, step) then births[step.newId := step.request] else births
  }

  function BirthsOf(q: CreateLeaseRequest, w: World, steps: seq<Step>, births: Births): Births
    requires IsRun(q, w, steps)
    decreases |steps|
  {
    if steps == [] then births
    else BirthsOf(q, Apply(q, w, steps[0]), steps[1..], Bear(q, w, steps[0], births))
  }

  /** Servers read the clock for a creation within `delay` of its sending. */
  predicate Delivered(step: Step, delay: nat) {
    step.Serve? && step.request.call.CreateCall? ==> step.sample <= step.request.sentAt + delay
  }

  /** The number of the last call before the attempts since the last success. */
  function Base(w: World): int {
    w.key - |w.attempts|
  }

  /** A creation request of the present attempts carries the time of its attempt. */
  predicate IsAttempt(w: World, r: Request) {
    && r.call.CreateCall? && 0 < r.key <= w.key
    && (Base(w) < r.key ==> r.sentAt == w.attempts[r.key - Base(w) - 1])
  }

  ghost predicate BirthsInv(w: World, births: Births) {
    && 0 <= Base(w)
    && births.Keys == w.mine
    && (forall id :: id in births ==> IsAttempt(w, births[id]))
    && (forall r :: r in w.requests && r.call.CreateCall? ==> IsAttempt(w, r))
    && (forall r, s :: r in w.requests && s in w.requests && r.call.CreateCall? && s.call.CreateCall? ==>
          r.key == s.key ==> r == s)
    && (forall r, id :: r in w.requests && r.call.CreateCall? && id in births ==> births[id].key != r.key)
    && (forall id, other :: id in births && other in births ==> births[id].key == births[other].key ==> id == other)
  }

  ghost predicate ExpiryInv(w: World, births: Births, delay: nat) {
    w.server.Up? ==>
      forall id :: id in births && id !in w.returned && id in w.server.table ==>
        w.server.table[id].expiresAt <= births[id].sentAt + delay + w.server.config.leaseTtl
  }

  lemma ServeForm(q: CreateLeaseRequest, w: World, step: Step)
    requires IdsInv(w) && Enabled(w, step) && step.Serve?
    ensures var w' := Apply(q, w, step);
            && w'.key == w.key && w'.attempts == w.attempts
            && w'.requests == w.requests - {step.request}
            && w'.mine == w.mine + if Creates(q, w, step) then {step.newId} else {}
    ensures Creates(q, w, step) ==> step.newId !in w.mine
  {
  }

  lemma ServeKeepsBirths(q: CreateLeaseRequest, w: World, step: Step, births: Births)
    requires Inv(w) && BirthsInv(w, births) && Enabled(w, step) && step.Serve?
    ensures BirthsInv(Apply(q, w, step), Bear(q, w, step, births))
  {
    ServeForm(q, w, step);
    var w', births' := Apply(q, w, step), Bear(q, w, step, births);
    if !Creates(q, w, step) {
      FewerRequests(w, w', births);
    } else {
      Birth(w, w', births, step.request, step.newId);
    }
  }

  lemma FewerRequests(w: World, w': World, births: Births)
    requires BirthsInv(w, births)
    requires w'.key == w.key && w'.attempts == w.attempts && w'.mine == w.mine && w'.requests <= w.requests
    ensures BirthsInv(w', births)
  {
    assert forall r: Request :: IsAttempt(w, r) ==> IsAttempt(w', r);
  }

  lemma Birth(w: World, w': World, births: Births, request: Request, id: LeaseId)
    requires BirthsInv(w, births) && request in w.requests && request.call.CreateCall? && id !in w.mine
    requires w'.key == w.key && w'.attempts == w.attempts
    requires w'.mine == w.mine + {id} && w'.requests == w.requests - {request}
    ensures BirthsInv(w', births[id := request])
  {
    FewerRequests(w, w'.(mine := w.mine), births);
    assert IsAttempt(w', request);
    assert forall r: Request :: IsAttempt(w, r) ==> IsAttempt(w', r);
  }

  /** A step of the client makes at most one attempt to register, and another call
      only when no attempt is recorded. */
  ghost predicate IsClientForm(w: World, w': World) {
    && w'.mine == w.mine
    && ((w'.key >= w.key && w'.attempts == [] && NoNewCreation(w, w'))
        || (w'.key == w.key && w'.attempts == w.attempts && NoNewCreation(w, w'))
        || OneAttempt(w, w'))
  }

  lemma ConnectingForm(q: CreateLeaseRequest, w: World, step: Step)
    requires PausesInv(w) && Enabled(w, step) && ClientMoves(step) && w.client.phase.Connecting?
    ensures IsClientForm(w, Apply(q, w, step))
  {
  }

  lemma ClientForm(q: CreateLeaseRequest, w: World, step: Step)
    requires PausesInv(w) && Enabled(w, step) && ClientMoves(step) && !w.client.phase.Connecting?
    ensures IsClientForm(w, Apply(q, w, step))
  {
  }

  ghost predicate NoNewCreation(w: World, w': World) {
    forall r :: r in w'.requests && r.call.CreateCall? ==> r in w.requests
  }

  ghost predicate OneAttempt(w: World, w': World) {
    && w'.key == w.key + 1 && w'.attempts == w.attempts + [w.clock]
    && forall r :: r in w'.requests && r.call.CreateCall? && r !in w.requests ==>
         w.descriptor.Some? && r == Request(CreateCall, w.key + 1, w.descriptor.value, w.clock)
  }

  lemma ClientKeepsBirths(q: CreateLeaseRequest, w: World, step: Step, births: Births)
    requires Inv(w) && PausesInv(w) && BirthsInv(w, births) && Enabled(w, step) && ClientMoves(step)
    ensures BirthsInv(Apply(q, w, step), births)
  {
    if w.client.phase.Connecting? {
      ConnectingForm(q, w, step);
    } else {
      ClientForm(q, w, step);
    }
    var w' := Apply(q, w, step);
    if OneAttempt(w, w') {
      Attempt(w, w', births);
    } else {
      assert forall r: Request :: IsAttempt(w, r) ==> IsAttempt(w', r);
    }
  }

  lemma Attempt(w: World, w': World, births: Births)
    requires BirthsInv(w, births) && OneAttempt(w, w') && w'.mine == w.mine
    ensures BirthsInv(w', births)
  {
    assert forall r: Request :: IsAttempt(w, r) ==> IsAttempt(w', r);
    forall r | r in w'.requests && r.call.CreateCall?
      ensures IsAttempt(w', r)
    {
      assert r in w.requests ==> IsAttempt(w, r);
    }
  }

  lemma OthersKeepBirths(q: CreateLeaseRequest, w: World, step: Step, births: Births)
    requires BirthsInv(w, births) && Enabled(w, step) && !ClientMoves(step) && !step.Serve?
    ensures BirthsInv(Apply(q, w, step), births)
  {
  }

  lemma StepKeepsBirths(q: CreateLeaseRequest, w: World, step: Step, births: Births)
    requires Inv(w) && PausesInv(w) && BirthsInv(w, births) && Enabled(w, step)
    ensures BirthsInv(Apply(q, w, step), Bear(q, w, step, births))
  {
    if ClientMoves(step) {
      ClientKeepsBirths(q, w, step, births);
    } else if step.Serve? {
      ServeKeepsBirths(q, w, step, births);
    } else {
      OthersKeepBirths(q, w, step, births);
    }
  }

  lemma StepKeepsExpiry(q: CreateLeaseRequest, w: World, step: Step, births: Births, delay: nat)
    requires Inv(w) && births.Keys == w.mine && ExpiryInv(w, births, delay)
    requires Enabled(w, step) && Delivered(step, delay)
    ensures ExpiryInv(Apply(q, w, step), Bear(q, w, step, births), delay)
  {
  }

  lemma {:induction false} RunKeepsBirths(
    q: CreateLeaseRequest, w: World, steps: seq<Step>, births: Births, delay: nat)
    requires Inv(w) && PausesInv(w) && BirthsInv(w, births) && ExpiryInv(w, births, delay)
    requires IsRun(q, w, steps) && forall s :: s in steps ==> Delivered(s, delay)
    ensures Inv(End(q, w, steps)) && PausesInv(End(q, w, steps))
    ensures BirthsInv(End(q, w, steps), BirthsOf(q, w, steps, births))
    ensures ExpiryInv(End(q, w, steps), BirthsOf(q, w, steps, births), delay)
    decreases |steps|
  {
    if steps != [] {
      assert steps[0] in steps && forall s :: s in steps[1..] ==> s in steps;
      StepKeepsInv(q, w, steps[0]);
      StepKeepsPauses(q, w, steps[0]);
      StepKeepsExpiry(q, w, steps[0], births, delay);
      StepKeepsBirths(q, w, steps[0], births);
      RunKeepsBirths(q, Apply(q, w, steps[0]), steps[1..], Bear(q, w, steps[0], births), delay);
    }
  }

  /** The live leases that the attempts since the client's last success have left
      behind. */
  function Orphaned(w: World, births: Births): set<LeaseId> {
    if w.server.Down? then {}
    else set id | id in Prune(w.server.table, w.clock) && id in births && id !in w.returned && Base(w) < births[id].key
  }

  /** The attempt that left a lease behind. */
  function AttemptOf(w: World, births: Births, id: LeaseId): int
    requires id in births
  {
    births[id].key - Base(w) - 1
  }

  lemma {:induction false} AttemptsDiffer(w: World, births: Births, ids: set<LeaseId>)
    requires BirthsInv(w, births) && ids <= births.Keys
    ensures |set id | id in ids :: AttemptOf(w, births, id)| == |ids|
  {
    var attempts := set id | id in ids :: AttemptOf(w, births, id);
    if ids != {} {
      var id :| id in ids;
      AttemptsDiffer(w, births, ids - {id});
      var others := set other | other in ids - {id} :: AttemptOf(w, births, other);
      assert attempts == others + {AttemptOf(w, births, id)};
    }
  }

  /** The attempts from number `j` on are those that lie less than `window` back. */
  lemma RecentAttempts(w: World, window: nat) returns (j: nat)
    requires PausesInv(w) && CallsInv(w)
    ensures j <= |w.attempts|
    ensures forall i :: 0 <= i < |w.attempts| && w.clock < w.attempts[i] + window ==> j <= i
    ensures |w.attempts| - j <= AttemptsWithin(window)
  {
    j := 0;
    while j < |w.attempts| && w.attempts[j] + window <= w.clock
      invariant j <= |w.attempts|
      invariant forall i :: 0 <= i < j ==> w.attempts[i] + window <= w.clock
    {
      j := j + 1;
    }
    if j < |w.attempts| {
      AttemptsInWindow(w, j, |w.attempts| - j, window);
    }
  }

  ghost predicate IsSound(w: World, births: Births, delay: nat) {
    Inv(w) && PausesInv(w) && BirthsInv(w, births) && ExpiryInv(w, births, delay)
  }

  lemma InitialBirths(server: LeaseProtocol.Server, delay: nat)
    requires FreshServer(server)
    ensures IsSound(Initial(server), map[], delay)
  {
  }

  ghost predicate FewOrphans(w: World, births: Births, delay: nat) {
    w.server.Up? ==> |Orphaned(w, births)| <= AttemptsWithin(w.server.config.leaseTtl + delay)
  }

  predicate AllDelivered(steps: seq<Step>, delay: nat) {
    forall s :: s in steps ==> Delivered(s, delay)
  }

  lemma RunHasFewOrphans(q: CreateLeaseRequest, w: World, steps: seq<Step>, delay: nat)
    requires IsSound(w, map[], delay) && IsRun(q, w, steps) && AllDelivered(steps, delay)
    ensures FewOrphans(End(q, w, steps), BirthsOf(q, w, steps, map[]), delay)
  {
    RunKeepsBirths(q, w, steps, map[], delay);
    OrphansFit(End(q, w, steps), BirthsOf(q, w, steps, map[]), delay);
  }

  lemma OrphansOfRun(q: CreateLeaseRequest, w: World, steps: seq<Step>)
    requires forall d: nat :: IsSound(w, map[], d)
    requires IsRun(q, w, steps)
    ensures forall d: nat :: AllDelivered(steps, d) ==>
              FewOrphans(End(q, w, steps), BirthsOf(q, w, steps, map[]), d)
  {
    forall d: nat | AllDelivered(steps, d)
      ensures FewOrphans(End(q, w, steps), BirthsOf(q, w, steps, map[]), d)
    {
      assert IsSound(w, map[], d);
      RunHasFewOrphans(q, w, steps, d);
    }
  }

  lemma OrphansFit(w: World, births: Births, delay: nat)
    requires PausesInv(w) && CallsInv(w) && BirthsInv(w, births) && ExpiryInv(w, births, delay)
    ensures w.server.Up? ==> |Orphaned(w, births)| <= AttemptsWithin(w.server.config.leaseTtl + delay)
  {
    if w.server.Up? {
      OrphansOfUp(w, births, delay);
    }
  }

  lemma OrphanIsRecent(w: World, births: Births, delay: nat, id: LeaseId)
    requires BirthsInv(w, births) && ExpiryInv(w, births, delay) && w.server.Up? && id in Orphaned(w, births)
    ensures var i := AttemptOf(w, births, id);
            0 <= i < |w.attempts| && w.clock < w.attempts[i] + w.server.config.leaseTtl + delay
  {
    assert IsAttempt(w, births[id]);
    assert w.server.table[id].expiresAt <= births[id].sentAt + delay + w.server.config.leaseTtl;
  }

  lemma OrphansOfUp(w: World, births: Births, delay: nat)
    requires PausesInv(w) && CallsInv(w) && BirthsInv(w, births) && ExpiryInv(w, births, delay) && w.server.Up?
    ensures |Orphaned(w, births)| <= AttemptsWithin(w.server.config.leaseTtl + delay)
  {
    var orphans := Orphaned(w, births);
    var j := RecentAttempts(w, w.server.config.leaseTtl + delay);
    AttemptsDiffer(w, births, orphans);
    var attempts := set id | id in orphans :: AttemptOf(w, births, id);
    forall id | id in orphans
      ensures j <= AttemptOf(w, births, id) < |w.attempts|
    {
      OrphanIsRecent(w, births, delay, id);
    }
    CountRecent(attempts, j, |w.attempts|);
  }

  lemma CountRecent(attempts: set<int>, j: nat, m: nat)
    requires j <= m && forall i :: i in attempts ==> j <= i < m
    ensures |attempts| <= m - j
  {
    var recent: set<int> := Sets.Below(m) - Sets.Below(j);
    assert Sets.Below(j) <= Sets.Below(m);
    Sets.CardinalityMonotone(attempts, recent);
  }

  lemma OrphansAreFew(q: CreateLeaseRequest, server: LeaseProtocol.Server, steps: seq<Step>, delay: nat)
    requires FreshServer(server) && IsRun(q, Initial(server), steps)
    requires forall s :: s in steps ==> Delivered(s, delay)
    ensures var w := End(q, Initial(server), steps);
            w.server.Up? ==>
              |Orphaned(w, BirthsOf(q, Initial(server), steps, map[]))|
              <= AttemptsWithin(w.server.config.leaseTtl + delay)
  {
    forall d: nat
      ensures IsSound(Initial(server), map[], d)
    {
      InitialBirths(server, d);
    }
    OrphansOfRun(q, Initial(server), steps);
    assert AllDelivered(steps, delay);
    assert FewOrphans(End(q, Initial(server), steps), BirthsOf(q, Initial(server), steps, map[]), delay);
  }
}
