/** When every target is attempted: exactly if there are enough permits for all
    requests that can be in flight, each to as many targets as there can be. */
module Capacity {
  import opened Wrappers
  import opened Domain
  import opened Leases
  import opened Aggregation
  import opened Dispatch
  import opened Deadlines
  import opened Urgency

  /** Requests are matched against tables of at most `n` leases. */
  predicate Narrow(steps: seq<Step>, n: nat) {
    forall s :: s in steps && s.Match? ==> |s.table| <= n
  }

  /** Each target of each finished request was sent the request. */
  ghost predicate Attempted(w: World) {
    forall q: nat, i: nat :: At(w, q, i) && w.requests[q].phase.Finished? ==> w.requests[q].deliveries[i].sends == 1
  }

  ghost predicate AlwaysAttempts(l: Limits, n: nat) {
    forall steps :: UrgentRun(l, Initial(l), steps) && Narrow(steps, n) ==>
      IsRun(l, Initial(l), steps) && Attempted(End(l, Initial(l), steps))
  }

  ghost predicate NarrowWorld(w: World, n: nat) {
    forall q :: q in w.requests ==> |w.requests[q].deliveries| <= n && |w.requests[q].targets| <= n
  }

  /** The tasks that have a permit or want one. */
  ghost function Contenders(w: World): set<(nat, nat)> {
    set q: nat, i: nat |
      q in w.requests && i < |w.requests[q].deliveries|
      && (w.requests[q].deliveries[i].stage.Sending? || w.requests[q].deliveries[i].stage.Waiting?)
      :: (q, i)
  }

  lemma {:induction false} TargetsFit(table: Table, now: nat, route: Route, targets: seq<DispatchTarget>)
    requires IsMatching(table, now, route, targets)
    ensures |targets| <= |table|
  {
    var ids := set i | 0 <= i < |targets| :: targets[i].leaseId;
    IdsAreDistinct(targets);
    Sets.CardinalityMonotone(ids, table.Keys);
  }

  lemma {:induction false} IdsAreDistinct(targets: seq<DispatchTarget>)
    requires forall i, j :: 0 <= i < j < |targets| ==> targets[i].leaseId != targets[j].leaseId
    ensures |set i | 0 <= i < |targets| :: targets[i].leaseId| == |targets|
  {
    if targets != [] {
      var last := |targets| - 1;
      IdsAreDistinct(targets[..last]);
      assert (set i | 0 <= i < |targets| :: targets[i].leaseId)
          == (set i | 0 <= i < |targets[..last]| :: targets[..last][i].leaseId) + {targets[last].leaseId};
    }
  }

  lemma ContenderIsInFlight(l: Limits, w: World, n: nat, q: nat, i: nat)
    requires RequestsInv(l, w) && NarrowWorld(w, n) && (q, i) in Contenders(w)
    requires !Enabled(l, w, Cancel(q, i))
    ensures q in IngressHolders(w) && i < n
  {
    var r := w.requests[q];
    assert At(w, q, i);
    assert RequestInv(l, r);
    assert !r.deliveries[i].stage.Joined?;
  }

  lemma Widens(a: nat, b: nat, n: nat)
    requires a <= b
    ensures a * n <= b * n
  {
  }

  /** With no aborted task left, tasks contend only for requests in flight. */
  lemma ContendersFit(l: Limits, w: World, n: nat)
    requires Inv(l, w) && NarrowWorld(w, n)
    requires forall step: Step :: step.Cancel? ==> !Enabled(l, w, step)
    ensures |Contenders(w)| <= l.maxInflight * n
  {
    var holders := IngressHolders(w);
    forall c | c in Contenders(w)
      ensures c in Sets.Grid(holders, n)
    {
      ContenderIsInFlight(l, w, n, c.0, c.1);
    }
    Sets.CardinalityMonotone(Contenders(w), Sets.Grid(holders, n));
    Sets.GridSize(holders, n);
    Widens(|holders|, l.maxInflight, n);
  }

  /** As long as no more tasks contend than there are permits, no time passes while
      a task waits. */
  lemma NobodyWaitsWithinCapacity(l: Limits, w: World, q: nat, i: nat)
    requires Inv(l, w) && Settled(l, w) && |Contenders(w)| <= l.maxDeliveries
    requires At(w, q, i)
    ensures !StageOf(w, q, i).Waiting?
  {
    assert !Enabled(l, w, Acquire(q, i));
    assert StageOf(w, q, i).Waiting? ==> (q, i) in Contenders(w);
    assert DeliveryHolders(w) <= Contenders(w) - if StageOf(w, q, i).Waiting? then {(q, i)} else {};
    Sets.CardinalityMonotone(
      DeliveryHolders(w), Contenders(w) - if StageOf(w, q, i).Waiting? then {(q, i)} else {});
  }

  /** Whoever waits has just begun to, and whoever is done was sent to. */
  predicate IsPrompt(d: Delivery, clock: nat) {
    match d.stage
    case Waiting(start) => start == clock
    case Resolved(_, _, _) => d.sends == 1
    case Joined(_, _, _) => d.sends == 1
    case _ => true
  }

  ghost predicate Prompt(w: World, n: nat) {
    && NarrowWorld(w, n)
    && forall q: nat, i: nat :: At(w, q, i) ==> IsPrompt(w.requests[q].deliveries[i], w.clock)
  }

  lemma TickKeepsPrompt(l: Limits, w: World, elapsed: nat, n: nat)
    requires Inv(l, w) && Prompt(w, n) && l.maxInflight * n <= l.maxDeliveries
    requires Urgent(l, w, Tick(elapsed))
    ensures Prompt(Apply(l, w, Tick(elapsed)), n)
  {
    var w' := Apply(l, w, Tick(elapsed));
    if elapsed > 0 {
      assert Apply(l, w, Tick(0)) == w;
      ContendersFit(l, w, n);
    }
    forall q: nat, i: nat | At(w', q, i)
      ensures IsPrompt(w'.requests[q].deliveries[i], w'.clock)
    {
      assert At(w, q, i);
      if elapsed > 0 {
        NobodyWaitsWithinCapacity(l, w, q, i);
      }
    }
  }

  lemma StepKeepsNarrow(l: Limits, w: World, step: Step, n: nat)
    requires NarrowWorld(w, n) && Enabled(l, w, step) && (step.Match? ==> |step.table| <= n)
    ensures NarrowWorld(Apply(l, w, step), n)
  {
    if step.Match? {
      TargetsFit(step.table, step.sample, w.requests[step.q].route, step.targets);
    }
  }

  lemma MoveIsPrompt(l: Limits, w: World, step: Step)
    requires Enabled(l, w, step) && (MovesDelivery(step) || step.Join?) && 0 < l.targetTimeout
    requires At(w, step.q, step.i) && IsPrompt(w.requests[step.q].deliveries[step.i], w.clock)
    requires DeliveryOk(w.requests[step.q].deliveries[step.i], w.requests[step.q].phase.Aborted?)
    ensures At(Apply(l, w, step), step.q, step.i)
    ensures IsPrompt(Apply(l, w, step).requests[step.q].deliveries[step.i], w.clock)
  {
  }

  lemma StepKeepsPrompt(l: Limits, w: World, step: Step, n: nat)
    requires Inv(l, w) && Prompt(w, n) && 0 < l.targetTimeout
    requires Enabled(l, w, step) && !step.Tick? && (step.Match? ==> |step.table| <= n)
    ensures Prompt(Apply(l, w, step), n)
  {
    StepKeepsNarrow(l, w, step, n);
    var w' := Apply(l, w, step);
    forall q: nat, i: nat | At(w', q, i)
      ensures IsPrompt(w'.requests[q].deliveries[i], w'.clock)
    {
      DeliveryChanges(l, w, step, q, i);
      if At(w, q, i) && (MovesDelivery(step) || step.Join?) && step.q == q && step.i == i {
        assert RequestInv(l, w.requests[q]);
        MoveIsPrompt(l, w, step);
      }
    }
  }

  lemma {:induction false} RunKeepsPrompt(l: Limits, w: World, steps: seq<Step>, n: nat)
    requires Inv(l, w) && StartsInv(w) && Prompt(w, n)
    requires 0 < l.targetTimeout && l.maxInflight * n <= l.maxDeliveries
    requires UrgentRun(l, w, steps) && IsRun(l, w, steps) && Narrow(steps, n)
    ensures Prompt(End(l, w, steps), n)
    decreases |steps|
  {
    if steps != [] {
      assert steps[0] in steps && forall s :: s in steps[1..] ==> s in steps;
      StepKeepsInv(l, w, steps[0]);
      if steps[0].Tick? {
        TickKeepsPrompt(l, w, steps[0].elapsed, n);
      } else {
        StepKeepsPrompt(l, w, steps[0], n);
      }
      RunKeepsPrompt(l, Apply(l, w, steps[0]), steps[1..], n);
    }
  }

  lemma CapacitySuffices(l: Limits, n: nat)
    requires 0 < l.targetTimeout && l.maxInflight * n <= l.maxDeliveries
    ensures AlwaysAttempts(l, n)
  {
    forall steps | UrgentRun(l, Initial(l), steps) && Narrow(steps, n)
      ensures IsRun(l, Initial(l), steps) && Attempted(End(l, Initial(l), steps))
    {
      UrgentRunIsRun(l, Initial(l), steps);
      InitialInv(l);
      RunKeepsInv(l, Initial(l), steps);
      RunKeepsPrompt(l, Initial(l), steps, n);
      var w := End(l, Initial(l), steps);
      forall q: nat, i: nat | At(w, q, i) && w.requests[q].phase.Finished?
        ensures w.requests[q].deliveries[i].sends == 1
      {
        assert RequestInv(l, w.requests[q]);
      }
    }
  }

  const POST_HOOK := Route("POST", "/hook", None)
  const HOOK := CreateLeaseRequest("POST", "/hook", None, TargetUrl("http://localhost/", true), false)

  function HookTable(n: nat): (table: Table)
    ensures |table| == n && table.Keys == Sets.Below(n)
    ensures forall id :: id in table ==> table[id] == Lease(HOOK, 1)
  {
    var table := map id | id in Sets.Below(n) :: Lease(HOOK, 1);
    assert table.Keys == Sets.Below(n);
    table
  }

  function HookTargets(n: nat): (targets: seq<DispatchTarget>)
    ensures |targets| == n && forall i :: 0 <= i < n ==> targets[i] == TargetOf(i, Lease(HOOK, 1))
  {
    seq(n, i requires 0 <= i < n => TargetOf(i, Lease(HOOK, 1)))
  }

  lemma HookMatches(n: nat)
    ensures IsMatching(HookTable(n), 0, POST_HOOK, HookTargets(n))
  {
    forall id | id in MatchingIds(HookTable(n), 0, POST_HOOK)
      ensures Targets(HookTargets(n), id)
    {
      assert HookTargets(n)[id].leaseId == id;
    }
  }

  function HookRequest(n: nat): Request {
    Request(Joining, POST_HOOK, HookTable(n), 0, HookTargets(n), Spawn(HookTargets(n)), 0, false)
  }

  /** The first `k` requests have been read, each with `n` tasks to run. */
  function Crowd(l: Limits, n: nat, k: nat): World
    requires k <= l.maxInflight
  {
    World(0, l.maxInflight - k, l.maxDeliveries, map q | q in Sets.Below(k) :: HookRequest(n))
  }

  /** The worlds in which one more request has arrived, and has been matched. */
  function WithArrived(l: Limits, n: nat, k: nat): World
    requires k < l.maxInflight
  {
    var w := Crowd(l, n, k + 1);
    w.(requests := w.requests[k := Request(Matching, POST_HOOK, map[], 0, [], [], 0, false)])
  }

  function WithMatched(l: Limits, n: nat, k: nat): World
    requires k < l.maxInflight
  {
    var w := Crowd(l, n, k + 1);
    w.(requests := w.requests[k := Request(Reading, POST_HOOK, HookTable(n), 0, HookTargets(n), [], 0, false)])
  }

  lemma Arrives(l: Limits, n: nat, k: nat)
    requires k < l.maxInflight
    ensures Enabled(l, Crowd(l, n, k), Arrive(k, POST_HOOK))
    ensures Apply(l, Crowd(l, n, k), Arrive(k, POST_HOOK)) == WithArrived(l, n, k)
  {
    assert Apply(l, Crowd(l, n, k), Arrive(k, POST_HOOK)).requests == WithArrived(l, n, k).requests;
  }

  lemma Matches(l: Limits, n: nat, k: nat)
    requires k < l.maxInflight && 0 < n
    ensures Enabled(l, WithArrived(l, n, k), Match(k, HookTable(n), 0, HookTargets(n)))
    ensures Apply(l, WithArrived(l, n, k), Match(k, HookTable(n), 0, HookTargets(n))) == WithMatched(l, n, k)
  {
    HookMatches(n);
  }

  lemma IsRead(l: Limits, n: nat, k: nat)
    requires k < l.maxInflight
    ensures Enabled(l, WithMatched(l, n, k), BodyRead(k))
    ensures Apply(l, WithMatched(l, n, k), BodyRead(k)) == Crowd(l, n, k + 1)
  {
    assert Apply(l, WithMatched(l, n, k), BodyRead(k)).requests == Crowd(l, n, k + 1).requests;
  }

  lemma OneMore(l: Limits, n: nat, k: nat) returns (steps: seq<Step>)
    requires k < l.maxInflight && 0 < n
    ensures Leads(l, Crowd(l, n, k), steps, Crowd(l, n, k + 1)) && Narrow(steps, n)
  {
    var s0, s1, s2 := Arrive(k, POST_HOOK), Match(k, HookTable(n), 0, HookTargets(n)), BodyRead(k);
    Arrives(l, n, k);
    Matches(l, n, k);
    IsRead(l, n, k);
    First(l, WithMatched(l, n, k), s2, []);
    First(l, WithArrived(l, n, k), s1, [s2] + []);
    First(l, Crowd(l, n, k), s0, [s1] + ([s2] + []));
    steps := [s0] + ([s1] + ([s2] + []));
  }

  lemma NobodyYet(l: Limits, n: nat)
    ensures Crowd(l, n, 0) == Initial(l)
  {
    assert Crowd(l, n, 0).requests == map[];
  }

  lemma {:induction false} Gathers(l: Limits, n: nat, k: nat) returns (steps: seq<Step>)
    requires k <= l.maxInflight && 0 < n
    ensures Leads(l, Initial(l), steps, Crowd(l, n, k)) && Narrow(steps, n)
  {
    if k == 0 {
      NobodyYet(l, n);
      steps := [];
    } else {
      var first := Gathers(l, n, k - 1);
      var more := OneMore(l, n, k - 1);
      LeadsOn(l, Initial(l), first, Crowd(l, n, k - 1), more, Crowd(l, n, k));
      steps := first + more;
    }
  }

  predicate IsBusy(r: Request, n: nat) {
    && r.phase.Joining? && |r.deliveries| == n
    && forall i :: 0 <= i < n ==> IsUndone(r.deliveries[i].stage)
  }

  predicate IsUndone(stage: Stage) {
    stage == Spawned || stage == Waiting(0) || stage == Sending(0)
  }

  /** All at the instant 0: `maxInflight` requests with `n` tasks each, none of
      which is done. */
  ghost predicate Crowded(l: Limits, w: World, n: nat) {
    && w.clock == 0
    && w.requests.Keys == Sets.Below(l.maxInflight)
    && forall q :: q in w.requests ==> IsBusy(w.requests[q], n)
  }

  predicate Takes(step: Step) {
    step.Start? || step.Acquire?
  }

  /** No task can start or get a permit. */
  ghost predicate Packed(l: Limits, w: World) {
    forall step :: Takes(step) ==> !Enabled(l, w, step)
  }

  lemma TakeKeepsBusy(l: Limits, w: World, step: Step, n: nat)
    requires Takes(step) && Enabled(l, w, step) && w.clock == 0 && IsBusy(w.requests[step.q], n)
    ensures var w' := Apply(l, w, step);
            && w'.clock == 0 && w'.requests.Keys == w.requests.Keys && IsBusy(w'.requests[step.q], n)
  {
  }

  lemma TakeKeepsCrowded(l: Limits, w: World, step: Step, n: nat)
    requires Crowded(l, w, n) && Takes(step) && Enabled(l, w, step)
    ensures Crowded(l, Apply(l, w, step), n)
  {
    TakeKeepsBusy(l, w, step, n);
    var w' := Apply(l, w, step);
    forall q | q in w'.requests
      ensures IsBusy(w'.requests[q], n)
    {
      if q != step.q {
        StepIsLocal(l, w, step, q);
      }
    }
  }

  /** Tasks start and take permits as long as they can. */
  lemma {:induction false} Packs(l: Limits, w: World, n: nat) returns (steps: seq<Step>)
    requires Crowded(l, w, n)
    ensures UrgentRun(l, w, steps) && IsRun(l, w, steps) && Undisturbed(steps)
    ensures Crowded(l, End(l, w, steps), n)
    ensures Packed(l, End(l, w, steps))
    decreases |Todo(w)|
  {
    if Packed(l, w) {
      return [];
    }
    var step :| Takes(step) && Enabled(l, w, step);
    TakeKeepsCrowded(l, w, step, n);
    OwnStepTakesTodo(l, w, step);
    Sets.CardinalityStrict(Todo(Apply(l, w, step)), Todo(w));
    var rest := Packs(l, Apply(l, w, step), n);
    First(l, w, step, rest);
    steps := [step] + rest;
  }

  lemma CrowdHasTask(l: Limits, w: World, n: nat) returns (q: nat, i: nat)
    requires Inv(l, w) && Crowded(l, w, n) && l.maxDeliveries < l.maxInflight * n
    ensures q in w.requests && i < n && (q, i) !in DeliveryHolders(w)
  {
    var tasks := Sets.Grid(w.requests.Keys, n);
    Sets.GridSize(w.requests.Keys, n);
    if tasks <= DeliveryHolders(w) {
      Sets.CardinalityMonotone(tasks, DeliveryHolders(w));
    }
    var task :| task in tasks && task !in DeliveryHolders(w);
    q, i := task.0, task.1;
  }

  lemma TaskOfCrowd(l: Limits, w: World, n: nat, q: nat, i: nat)
    requires Crowded(l, w, n) && q in w.requests && i < n
    ensures At(w, q, i) && w.requests[q].phase.Joining? && IsUndone(StageOf(w, q, i))
  {
  }

  /** Not all of too many tasks have a permit. */
  lemma SomebodyWaits(l: Limits, w: World, n: nat) returns (q: nat, i: nat)
    requires Inv(l, w) && Crowded(l, w, n) && l.maxDeliveries < l.maxInflight * n
    requires Packed(l, w)
    ensures At(w, q, i) && StageOf(w, q, i) == Waiting(0) && w.deliveryFree == 0
    ensures w.requests[q].phase.Joining? && w.requests[q].deliveries[i].sends == 0
  {
    q, i := CrowdHasTask(l, w, n);
    TaskOfCrowd(l, w, n, q, i);
    PackedTask(l, w, q, i);
    UnsentWaits(l, w, q, i);
  }

  lemma PackedTask(l: Limits, w: World, q: nat, i: nat)
    requires Packed(l, w) && At(w, q, i)
    ensures !StageOf(w, q, i).Spawned? && (StageOf(w, q, i).Waiting? ==> w.deliveryFree == 0)
  {
    assert !Enabled(l, w, Start(q, i)) && !Enabled(l, w, Acquire(q, i));
  }

  lemma UnsentWaits(l: Limits, w: World, q: nat, i: nat)
    requires RequestsInv(l, w) && At(w, q, i)
    ensures (q, i) in DeliveryHolders(w) <==> StageOf(w, q, i).Sending?
    ensures StageOf(w, q, i).Waiting? ==> w.requests[q].deliveries[i].sends == 0
  {
    assert RequestInv(l, w.requests[q]);
    assert DeliveryOk(w.requests[q].deliveries[i], w.requests[q].phase.Aborted?);
  }

  /** A task that is not done asks for nothing but a start or a permit until its
      timer goes off. */
  lemma UndoneIsQuiet(l: Limits, w: World, step: Step)
    requires step.Expire? || step.Join? || step.Cancel?
    requires At(w, step.q, step.i) ==>
               && w.requests[step.q].phase.Joining? && IsUndone(StageOf(w, step.q, step.i))
               && w.clock < l.targetTimeout
    ensures !Enabled(l, w, step)
  {
  }

  lemma UndoneIsUnfinished(l: Limits, w: World, q: nat)
    requires q in w.requests ==> |w.requests[q].deliveries| > 0 && IsUndone(w.requests[q].deliveries[0].stage)
    ensures !Enabled(l, w, Finish(q))
  {
  }

  lemma TakingIgnoresClock(l: Limits, w: World, step: Step, clock: nat)
    requires Takes(step)
    ensures Enabled(l, w.(clock := clock), step) <==> Enabled(l, w, step)
  {
    assert At(w.(clock := clock), step.q, step.i) <==> At(w, step.q, step.i);
  }

  /** Until the first timer goes off, nothing happens. */
  lemma CrowdIsSettled(l: Limits, w: World, n: nat, t: nat)
    requires Crowded(l, w, n) && 0 < n && t < l.targetTimeout
    requires Packed(l, w)
    ensures Settled(l, w.(clock := t))
  {
    var w' := w.(clock := t);
    forall step | IsOwn(step)
      ensures !Enabled(l, w', step)
    {
      if Takes(step) {
        TakingIgnoresClock(l, w, step, t);
      } else if step.Finish? {
        UndoneIsUnfinished(l, w', step.q);
      } else {
        if At(w', step.q, step.i) {
          TaskOfCrowd(l, w, n, step.q, step.i);
        }
        UndoneIsQuiet(l, w', step);
      }
    }
  }

  lemma UnsentStaysOnce(l: Limits, w: World, step: Step, q: nat, i: nat)
    requires Enabled(l, w, step) && At(w, q, i)
    requires Rank(StageOf(w, q, i)) <= 1 && w.requests[q].deliveries[i].sends == 0
    requires w.requests[q].phase.Joining? || w.requests[q].phase.Finished? || w.requests[q].phase.Aborted?
    ensures var w' := Apply(l, w, step);
            && At(w', q, i) && Rank(StageOf(w', q, i)) <= 1 && w'.requests[q].deliveries[i].sends == 0
            && (w'.requests[q].phase.Joining? || w'.requests[q].phase.Finished? || w'.requests[q].phase.Aborted?)
  {
    if step.Tick? || step.q != q {
      StepIsLocal(l, w, step, q);
    }
  }

  /** A delivery that is done and was not sent is never sent. */
  lemma {:induction false} UnsentStays(l: Limits, w: World, steps: seq<Step>, q: nat, i: nat)
    requires IsRun(l, w, steps) && At(w, q, i)
    requires Rank(StageOf(w, q, i)) <= 1 && w.requests[q].deliveries[i].sends == 0
    requires w.requests[q].phase.Joining? || w.requests[q].phase.Finished? || w.requests[q].phase.Aborted?
    ensures At(End(l, w, steps), q, i) && End(l, w, steps).requests[q].deliveries[i].sends == 0
    decreases |steps|
  {
    if steps != [] {
      UnsentStaysOnce(l, w, steps[0], q, i);
      UnsentStays(l, Apply(l, w, steps[0]), steps[1..], q, i);
    }
  }

  lemma NarrowTogether(a: seq<Step>, b: seq<Step>, n: nat)
    requires Narrow(a, n) && (Undisturbed(b) || Narrow(b, n))
    ensures Narrow(a + b, n)
  {
  }

  /** A full house, as far as there are permits. */
  lemma FullHouse(l: Limits, n: nat) returns (steps: seq<Step>, w: World)
    requires 0 < n
    ensures Leads(l, Initial(l), steps, w) && Narrow(steps, n)
    ensures Inv(l, w) && Crowded(l, w, n) && Packed(l, w)
  {
    var crowd := Crowd(l, n, l.maxInflight);
    var first := Gathers(l, n, l.maxInflight);
    var packing := Packs(l, crowd, n);
    w := End(l, crowd, packing);
    LeadsOn(l, Initial(l), first, crowd, packing, w);
    NarrowTogether(first, packing, n);
    steps := first + packing;
    InitialInv(l);
    RunKeepsInv(l, Initial(l), steps);
  }

  /** A delivery of a joining request that is done without having been sent. */
  predicate IsUnsent(w: World, q: nat, i: nat) {
    && At(w, q, i) && w.requests[q].phase.Joining?
    && StageOf(w, q, i).Resolved? && w.requests[q].deliveries[i].sends == 0
  }

  /** In it, a task waits out its timeout. */
  lemma TaskLapses(l: Limits, w: World, n: nat) returns (steps: seq<Step>, last: World, q: nat, i: nat)
    requires Inv(l, w) && Crowded(l, w, n) && Packed(l, w) && l.maxDeliveries < l.maxInflight * n
    ensures Leads(l, w, steps, last) && Undisturbed(steps)
    ensures IsUnsent(last, q, i)
  {
    q, i := SomebodyWaits(l, w, n);
    CrowdLetsTimePass(l, w, n);
    steps, last := Lapse(l, w, q, i);
  }

  lemma Lapse(l: Limits, w: World, q: nat, i: nat) returns (steps: seq<Step>, last: World)
    requires Urgent(l, w, Tick(l.targetTimeout))
    requires At(w, q, i) && StageOf(w, q, i) == Waiting(0) && w.requests[q].phase.Joining?
    requires w.requests[q].deliveries[i].sends == 0
    ensures Leads(l, w, steps, last) && Undisturbed(steps) && IsUnsent(last, q, i)
  {
    ExpiresAfterTick(l, w, q, i);
    var late := Apply(l, w, Tick(l.targetTimeout));
    LeadsTwice(l, w, Tick(l.targetTimeout), Expire(q, i));
    steps, last := [Tick(l.targetTimeout), Expire(q, i)], Apply(l, late, Expire(q, i));
  }

  lemma CrowdLetsTimePass(l: Limits, w: World, n: nat)
    requires Crowded(l, w, n) && 0 < n && Packed(l, w)
    ensures Urgent(l, w, Tick(l.targetTimeout))
  {
    forall t: nat | t < l.targetTimeout
      ensures Settled(l, Apply(l, w, Tick(t)))
    {
      CrowdIsSettled(l, w, n, t);
      assert Apply(l, w, Tick(t)) == w.(clock := t);
    }
  }

  lemma ExpiresAfterTick(l: Limits, w: World, q: nat, i: nat)
    requires At(w, q, i) && StageOf(w, q, i) == Waiting(0) && w.requests[q].phase.Joining?
    requires w.requests[q].deliveries[i].sends == 0
    ensures var late := Apply(l, w, Tick(l.targetTimeout));
            && Enabled(l, late, Expire(q, i))
            && IsUnsent(Apply(l, late, Expire(q, i)), q, i)
  {
    var late := Apply(l, w, Tick(l.targetTimeout));
    assert At(late, q, i) && StageOf(late, q, i) == StageOf(w, q, i);
  }

  lemma UnsentIsReached(l: Limits, n: nat) returns (steps: seq<Step>, w: World, q: nat, i: nat)
    requires l.maxDeliveries < l.maxInflight * n
    ensures Leads(l, Initial(l), steps, w) && Narrow(steps, n) && IsUnsent(w, q, i)
  {
    var first, full := FullHouse(l, n);
    var lapse;
    lapse, w, q, i := TaskLapses(l, full, n);
    LeadsOn(l, Initial(l), first, full, lapse, w);
    NarrowTogether(first, lapse, n);
    steps := first + lapse;
  }

  lemma AlwaysAccepts(l: Limits, steps: seq<Step>, q: nat, i: nat)
    requires IsRun(l, Initial(l), steps) && l.policy.Always?
    requires var w := End(l, Initial(l), steps); At(w, q, i) && w.requests[q].phase.Finished?
    ensures End(l, Initial(l), steps).requests[q].phase.response.status == 200
  {
    InitialInv(l);
    RunKeepsInv(l, Initial(l), steps);
    assert RequestInv(l, End(l, Initial(l), steps).requests[q]);
  }

  /** With too few permits, some run finishes a request with a target that was
      never sent it, and under the policy `always` accepts that request. */
  lemma TooFewPermits(l: Limits, n: nat) returns (steps: seq<Step>, q: nat, i: nat)
    requires l.maxDeliveries < l.maxInflight * n
    ensures UrgentRun(l, Initial(l), steps) && IsRun(l, Initial(l), steps) && Narrow(steps, n)
    ensures var w := End(l, Initial(l), steps);
            && At(w, q, i) && w.requests[q].phase.Finished? && w.requests[q].deliveries[i].sends == 0
            && (l.policy.Always? ==> w.requests[q].phase.response.status == 200)
  {
    var first, w;
    first, w, q, i := UnsentIsReached(l, n);
    var rest := JoiningFinishes(l, first, q);
    UnsentStays(l, w, rest, q, i);
    LeadsOn(l, Initial(l), first, w, rest, End(l, w, rest));
    NarrowTogether(first, rest, n);
    steps := first + rest;
    if l.policy.Always? {
      AlwaysAccepts(l, steps, q, i);
    }
  }

  /** With one permit for one request to two targets, for instance. */
  lemma AlwaysWithoutAttempt() returns (steps: seq<Step>, q: nat, i: nat)
    ensures var l := Limits(1, 1, 10, Always, false);
            && UrgentRun(l, Initial(l), steps) && IsRun(l, Initial(l), steps) && Narrow(steps, 2)
            && var w := End(l, Initial(l), steps);
               && At(w, q, i) && w.requests[q].phase.Finished? && w.requests[q].phase.response.status == 200
               && w.requests[q].deliveries[i].sends == 0
  {
    steps, q, i := TooFewPermits(Limits(1, 1, 10, Always, false), 2);
  }

  /** In every urgent run, each target of each finished request was sent it exactly
      once, if and only if there are at least as many delivery permits as requests
      in flight times leases in the registry. */
  lemma EveryTargetAttempted(l: Limits, n: nat)
    requires 0 < l.targetTimeout
    ensures AlwaysAttempts(l, n) <==> l.maxInflight * n <= l.maxDeliveries
  {
    if l.maxInflight * n <= l.maxDeliveries {
      CapacitySuffices(l, n);
    } else {
      var steps, q, i := TooFewPermits(l, n);
    }
  }
}
