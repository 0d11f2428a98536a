/** Dispatch on an idle machine: time passes only while nothing is left to do at
    the present instant. Tasks then resolve by their timeout, whether they wait
    for a permit or for the target, and a fan-out takes one timeout in all. */
module Urgency {
  import opened Dispatch
  import opened Deadlines
  import Sets

  /** What the ingress does by itself. Requests, bodies, answers and disconnects
      come from outside, at any time. */
  predicate IsOwn(step: Step) {
    step.Start? || step.Acquire? || step.Expire? || step.Join? || step.Finish? || step.Cancel?
  }

  /** Nothing is left to do: no task can start, get a permit, time out, be joined
      or be dropped, and no request can be answered. */
  ghost predicate Settled(l: Limits, w: World) {
    forall step :: IsOwn(step) ==> !Enabled(l, w, step)
  }

  /** Time passes only through settled worlds. Within one instant, steps come in
      any order. */
  ghost predicate Urgent(l: Limits, w: World, step: Step) {
    && Enabled(l, w, step)
    && (step.Tick? ==> forall t: nat :: t < step.elapsed ==> Settled(l, Apply(l, w, Tick(t))))
  }

  ghost predicate UrgentRun(l: Limits, w: World, steps: seq<Step>)
    decreases |steps|
  {
    steps == [] || (Urgent(l, w, steps[0]) && UrgentRun(l, Apply(l, w, steps[0]), steps[1..]))
  }

  lemma {:induction false} UrgentRunIsRun(l: Limits, w: World, steps: seq<Step>)
    requires UrgentRun(l, w, steps)
    ensures IsRun(l, w, steps)
    decreases |steps|
  {
    if steps != [] {
      UrgentRunIsRun(l, Apply(l, w, steps[0]), steps[1..]);
    }
  }

  lemma {:induction false} Then(l: Limits, w: World, first: seq<Step>, second: seq<Step>)
    requires UrgentRun(l, w, first) && IsRun(l, w, first) && UrgentRun(l, End(l, w, first), second)
    ensures UrgentRun(l, w, first + second) && IsRun(l, w, first + second)
    ensures IsRun(l, End(l, w, first), second)
    ensures End(l, w, first + second) == End(l, End(l, w, first), second)
    decreases |first|
  {
    if first == [] {
      assert first + second == second;
      UrgentRunIsRun(l, w, second);
    } else {
      assert (first + second)[1..] == first[1..] + second;
      Then(l, Apply(l, w, first[0]), first[1..], second);
    }
  }

  /** The timer of a task that waits or sends has not gone off in the past. */
  ghost predicate OnTime(l: Limits, w: World) {
    forall q: nat, i: nat :: At(w, q, i) && (StageOf(w, q, i).Waiting? || StageOf(w, q, i).Sending?) ==>
      w.clock <= StageOf(w, q, i).start + l.targetTimeout
  }

  /** Every result came within the timeout of its task. */
  ghost predicate ResolvedInTime(l: Limits, w: World) {
    forall q: nat, i: nat :: At(w, q, i) && (StageOf(w, q, i).Resolved? || StageOf(w, q, i).Joined?) ==>
      StageOf(w, q, i).end <= StageOf(w, q, i).start + l.targetTimeout
  }

  lemma SettledTimers(l: Limits, w: World, q: nat, i: nat)
    requires Settled(l, w) && At(w, q, i) && (StageOf(w, q, i).Waiting? || StageOf(w, q, i).Sending?)
    ensures w.clock < StageOf(w, q, i).start + l.targetTimeout
  {
    assert !Enabled(l, w, Expire(q, i));
  }

  /** Time does not pass a timer, because at the timer's instant the timeout is
      still to be dealt with. */
  lemma StepKeepsOnTime(l: Limits, w: World, step: Step)
    requires OnTime(l, w) && Urgent(l, w, step)
    ensures OnTime(l, Apply(l, w, step))
  {
    var w' := Apply(l, w, step);
    forall q: nat, i: nat | At(w', q, i) && (StageOf(w', q, i).Waiting? || StageOf(w', q, i).Sending?)
      ensures w'.clock <= StageOf(w', q, i).start + l.targetTimeout
    {
      if step.Tick? {
        assert At(w, q, i);
        if step.elapsed > 0 {
          SettledTimers(l, Apply(l, w, Tick(step.elapsed - 1)), q, i);
        }
      } else {
        if step.q != q {
          StepIsLocal(l, w, step, q);
        }
        assert At(w, q, i) || !At(w, q, i);
      }
    }
  }

  lemma StepKeepsResolved(l: Limits, w: World, step: Step)
    requires ResolvedInTime(l, w) && OnTime(l, w) && Enabled(l, w, step)
    ensures ResolvedInTime(l, Apply(l, w, step))
  {
    var w' := Apply(l, w, step);
    forall q: nat, i: nat | At(w', q, i) && (StageOf(w', q, i).Resolved? || StageOf(w', q, i).Joined?)
      ensures StageOf(w', q, i).end <= StageOf(w', q, i).start + l.targetTimeout
    {
      if step.Tick? || step.q != q {
        StepIsLocal(l, w, step, q);
      }
      assert At(w, q, i);
    }
  }

  lemma {:induction false} RunKeepsTimes(l: Limits, w: World, steps: seq<Step>)
    requires ResolvedInTime(l, w) && OnTime(l, w) && UrgentRun(l, w, steps) && IsRun(l, w, steps)
    ensures ResolvedInTime(l, End(l, w, steps)) && OnTime(l, End(l, w, steps))
    decreases |steps|
  {
    if steps != [] {
      StepKeepsOnTime(l, w, steps[0]);
      StepKeepsResolved(l, w, steps[0]);
      RunKeepsTimes(l, Apply(l, w, steps[0]), steps[1..]);
    }
  }

  /** In every urgent run, each delivery has a result within the timeout of its
      start, counting the time it waited for a permit, no matter how many other
      requests compete for permits. */
  lemma DeliveriesResolveInTime(l: Limits, steps: seq<Step>, q: nat, i: nat)
    requires UrgentRun(l, Initial(l), steps)
    ensures IsRun(l, Initial(l), steps)
    ensures var w := End(l, Initial(l), steps);
            At(w, q, i) ==>
              match StageOf(w, q, i)
              case Waiting(start) => w.clock <= start + l.targetTimeout
              case Sending(start) => w.clock <= start + l.targetTimeout
              case Resolved(_, start, end) => start <= end <= start + l.targetTimeout
              case Joined(_, start, end) => start <= end <= start + l.targetTimeout
              case _ => true
  {
    UrgentRunIsRun(l, Initial(l), steps);
    RunKeepsTimes(l, Initial(l), steps);
    InitialInv(l);
    RunKeepsInv(l, Initial(l), steps);
    var w := End(l, Initial(l), steps);
    if At(w, q, i) {
      assert RequestInv(l, w.requests[q]);
      assert DeliveryOk(w.requests[q].deliveries[i], w.requests[q].phase.Aborted?);
    }
  }

  /** What is left to do for a delivery, and at the end for its request. */
  function Left(r: Request, i: nat): nat {
    if i < |r.deliveries| then Rank(r.deliveries[i].stage) else if r.phase.Joining? then 1 else 0
  }

  ghost function Todo(w: World): set<(nat, nat, nat)> {
    set q: nat, i: nat, k: nat |
      q in w.requests && i <= |w.requests[q].deliveries| && k < Left(w.requests[q], i)
      :: (q, i, k)
  }

  /** A step of the ingress's own does one thing and leaves nothing new to do. */
  lemma OwnStepTakesTodo(l: Limits, w: World, step: Step)
    requires Enabled(l, w, step) && IsOwn(step)
    ensures Todo(Apply(l, w, step)) < Todo(w) && Apply(l, w, step).clock == w.clock
  {
    var w' := Apply(l, w, step);
    var r, r' := w.requests[step.q], w'.requests[step.q];
    var i := if step.Finish? then |r.deliveries| else step.i;
    if !step.Finish? {
      MoveLowersRank(l, w, step);
    }
    assert forall k: nat :: Left(r', k) <= Left(r, k);
    assert Left(r', i) < Left(r, i) && i <= |r.deliveries|;
    assert forall t :: t in Todo(w') ==> t in Todo(w);
    assert (step.q, i, Left(r', i)) in Todo(w) && (step.q, i, Left(r', i)) !in Todo(w');
  }

  lemma First(l: Limits, w: World, step: Step, rest: seq<Step>)
    requires Urgent(l, w, step) && UrgentRun(l, Apply(l, w, step), rest) && IsRun(l, Apply(l, w, step), rest)
    ensures UrgentRun(l, w, [step] + rest) && IsRun(l, w, [step] + rest)
    ensures End(l, w, [step] + rest) == End(l, Apply(l, w, step), rest)
  {
    assert ([step] + rest)[1..] == rest;
  }

  /** An urgent run from one world to another. */
  ghost predicate Leads(l: Limits, w: World, steps: seq<Step>, last: World) {
    UrgentRun(l, w, steps) && IsRun(l, w, steps) && End(l, w, steps) == last
  }

  lemma LeadsOn(l: Limits, w: World, first: seq<Step>, mid: World, second: seq<Step>, last: World)
    requires Leads(l, w, first, mid) && Leads(l, mid, second, last)
    ensures Leads(l, w, first + second, last)
  {
    Then(l, w, first, second);
  }

  lemma LeadsTwice(l: Limits, w: World, a: Step, b: Step)
    requires Urgent(l, w, a) && Urgent(l, Apply(l, w, a), b)
    ensures Leads(l, w, [a, b], Apply(l, Apply(l, w, a), b))
  {
    First(l, Apply(l, w, a), b, []);
    First(l, w, a, [b] + []);
    assert [a] + ([b] + []) == [a, b];
  }

  /** A run in which nothing comes from outside. */
  predicate Undisturbed(steps: seq<Step>) {
    forall s :: s in steps ==> IsOwn(s) || s.Tick?
  }

  /** Every world settles at its own instant. */
  lemma {:induction false} Settles(l: Limits, w: World) returns (steps: seq<Step>)
    ensures UrgentRun(l, w, steps) && IsRun(l, w, steps) && Undisturbed(steps)
    ensures Settled(l, End(l, w, steps)) && End(l, w, steps).clock == w.clock
    decreases |Todo(w)|
  {
    if Settled(l, w) {
      return [];
    }
    var step :| IsOwn(step) && Enabled(l, w, step);
    OwnStepTakesTodo(l, w, step);
    Sets.CardinalityStrict(Todo(Apply(l, w, step)), Todo(w));
    var rest := Settles(l, Apply(l, w, step));
    First(l, w, step, rest);
    steps := [step] + rest;
  }

  /** Urgency never stops the clock: from every world, the ingress on its own gets
      to a settled world at any later time. */
  lemma {:induction false} TimeIsNotBlocked(l: Limits, w: World, t: nat) returns (steps: seq<Step>)
    requires w.clock <= t
    ensures UrgentRun(l, w, steps) && IsRun(l, w, steps) && Undisturbed(steps)
    ensures Settled(l, End(l, w, steps)) && End(l, w, steps).clock == t
    decreases t - w.clock
  {
    steps := Settles(l, w);
    if w.clock < t {
      var settled := End(l, w, steps);
      var next := OneInstant(l, settled);
      var rest := TimeIsNotBlocked(l, next, t);
      var last := End(l, next, rest);
      LeadsOn(l, settled, [Tick(1)], next, rest, last);
      LeadsOn(l, w, steps, settled, [Tick(1)] + rest, last);
      steps := steps + ([Tick(1)] + rest);
    }
  }

  lemma OneInstant(l: Limits, w: World) returns (next: World)
    requires Settled(l, w)
    ensures Leads(l, w, [Tick(1)], next) && next.clock == w.clock + 1
  {
    next := Apply(l, w, Tick(1));
    assert Apply(l, w, Tick(0)) == w;
    First(l, w, Tick(1), []);
    assert [Tick(1)] + [] == [Tick(1)];
  }

  /** A task has started by `b`, is about to, or is done. */
  predicate StartsBy(stage: Stage, clock: nat, b: nat) {
    match stage
    case Spawned => clock <= b
    case Waiting(start) => start <= b
    case Sending(start) => start <= b
    case _ => true
  }

  /** The tasks of a joining request have started by `b`, or are about to. */
  ghost predicate EndsBy(l: Limits, w: World, q: nat, b: nat) {
    && q in w.requests && !w.requests[q].phase.Matching? && !w.requests[q].phase.Reading?
    && (w.requests[q].phase.Joining? ==>
          && w.clock <= b + l.targetTimeout
          && forall i: nat :: At(w, q, i) ==> StartsBy(StageOf(w, q, i), w.clock, b))
  }

  lemma SettledHasNoSpawned(l: Limits, w: World, q: nat, i: nat)
    requires Settled(l, w) && At(w, q, i)
    ensures !StageOf(w, q, i).Spawned?
    ensures w.requests[q].phase.Joining? ==> !StageOf(w, q, i).Resolved?
  {
    assert !Enabled(l, w, Start(q, i)) && !Enabled(l, w, Join(q, i));
  }

  lemma SettledHasUnjoined(l: Limits, w: World, q: nat) returns (i: nat)
    requires Settled(l, w) && q in w.requests && w.requests[q].phase.Joining?
    ensures At(w, q, i) && !StageOf(w, q, i).Joined?
  {
    assert !Enabled(l, w, Finish(q));
    i :| i < |w.requests[q].deliveries| && !w.requests[q].deliveries[i].stage.Joined?;
  }

  /** In a settled world, a joining request has a task whose timer is still to go
      off. */
  lemma SettledJoiningWaits(l: Limits, w: World, q: nat) returns (i: nat)
    requires Settled(l, w) && RequestsInv(l, w) && q in w.requests && w.requests[q].phase.Joining?
    ensures At(w, q, i) && (StageOf(w, q, i).Waiting? || StageOf(w, q, i).Sending?)
    ensures w.clock < StageOf(w, q, i).start + l.targetTimeout
  {
    i := SettledHasUnjoined(l, w, q);
    SettledHasNoSpawned(l, w, q, i);
    var r := w.requests[q];
    assert RequestInv(l, r);
    assert DeliveryOk(r.deliveries[i], r.phase.Aborted?);
    SettledTimers(l, w, q, i);
  }

  lemma TickKeepsEnd(l: Limits, w: World, elapsed: nat, q: nat, b: nat)
    requires EndsBy(l, w, q, b) && RequestsInv(l, w) && Urgent(l, w, Tick(elapsed))
    ensures EndsBy(l, Apply(l, w, Tick(elapsed)), q, b)
  {
    var w' := Apply(l, w, Tick(elapsed));
    assert forall i: nat :: At(w', q, i) ==> At(w, q, i) && StageOf(w', q, i) == StageOf(w, q, i);
    if elapsed > 0 && w.requests[q].phase.Joining? {
      var before := Apply(l, w, Tick(elapsed - 1));
      var i := SettledJoiningWaits(l, before, q);
      assert At(w, q, i);
      forall k: nat | At(w', q, k)
        ensures !StageOf(w', q, k).Spawned?
      {
        SettledHasNoSpawned(l, before, q, k);
      }
    }
  }

  lemma MoveStartsBy(l: Limits, w: World, step: Step, b: nat)
    requires Enabled(l, w, step) && (MovesDelivery(step) || step.Join?)
    requires At(w, step.q, step.i) && StartsBy(StageOf(w, step.q, step.i), w.clock, b)
    ensures At(Apply(l, w, step), step.q, step.i)
    ensures StartsBy(StageOf(Apply(l, w, step), step.q, step.i), w.clock, b)
  {
  }

  lemma PhaseAfter(l: Limits, w: World, step: Step, q: nat)
    requires Enabled(l, w, step) && !step.Tick? && q in w.requests
    requires !w.requests[q].phase.Matching? && !w.requests[q].phase.Reading?
    ensures var w' := Apply(l, w, step);
            && q in w'.requests && !w'.requests[q].phase.Matching? && !w'.requests[q].phase.Reading?
            && (w'.requests[q].phase.Joining? ==> w.requests[q].phase.Joining?)
            && |w'.requests[q].deliveries| == |w.requests[q].deliveries| && w'.clock == w.clock
  {
    if step.q != q {
      StepIsLocal(l, w, step, q);
    }
  }

  lemma DeliveryStartsBy(l: Limits, w: World, step: Step, q: nat, i: nat, b: nat)
    requires RequestsInv(l, w) && Enabled(l, w, step) && !step.Tick?
    requires At(w, q, i) && At(Apply(l, w, step), q, i) && StartsBy(StageOf(w, q, i), w.clock, b)
    ensures StartsBy(StageOf(Apply(l, w, step), q, i), w.clock, b)
            || StageOf(Apply(l, w, step), q, i).Spawned?
    ensures StageOf(w, q, i).Spawned? ==> w.clock <= b
  {
    if (MovesDelivery(step) || step.Join?) && step.q == q && step.i == i {
      MoveStartsBy(l, w, step, b);
    } else {
      DeliveryChanges(l, w, step, q, i);
    }
  }

  /** No task of a joining request is started anew. */
  lemma StaysUnspawned(l: Limits, w: World, step: Step, q: nat, i: nat)
    requires Enabled(l, w, step) && !step.Tick? && At(w, q, i) && At(Apply(l, w, step), q, i)
    requires w.requests[q].phase.Joining? && StageOf(Apply(l, w, step), q, i).Spawned?
    ensures StageOf(w, q, i).Spawned?
  {
    if step.q != q {
      StepIsLocal(l, w, step, q);
    } else if MovesDelivery(step) || step.Join? {
      MoveLowersRank(l, w, step);
    }
  }

  lemma StepKeepsEnd(l: Limits, w: World, step: Step, q: nat, b: nat)
    requires EndsBy(l, w, q, b) && RequestsInv(l, w) && Enabled(l, w, step) && !step.Tick?
    ensures EndsBy(l, Apply(l, w, step), q, b)
  {
    var w' := Apply(l, w, step);
    PhaseAfter(l, w, step, q);
    forall i: nat | At(w', q, i) && w'.requests[q].phase.Joining?
      ensures StartsBy(StageOf(w', q, i), w'.clock, b)
    {
      assert At(w, q, i);
      DeliveryStartsBy(l, w, step, q, i, b);
      if StageOf(w', q, i).Spawned? {
        StaysUnspawned(l, w, step, q, i);
      }
    }
  }

  lemma {:induction false} RunKeepsEnd(l: Limits, w: World, steps: seq<Step>, q: nat, b: nat)
    requires EndsBy(l, w, q, b) && Inv(l, w) && StartsInv(w) && UrgentRun(l, w, steps) && IsRun(l, w, steps)
    ensures EndsBy(l, End(l, w, steps), q, b)
    decreases |steps|
  {
    if steps != [] {
      if steps[0].Tick? {
        TickKeepsEnd(l, w, steps[0].elapsed, q, b);
      } else {
        StepKeepsEnd(l, w, steps[0], q, b);
      }
      StepKeepsInv(l, w, steps[0]);
      RunKeepsEnd(l, Apply(l, w, steps[0]), steps[1..], q, b);
    }
  }

  /** In every urgent run from whatever reachable world: a joining request has been
      answered, or its client has left, one timeout from now at the latest. */
  lemma FanOutEndsInTime(l: Limits, past: seq<Step>, steps: seq<Step>, q: nat)
    requires IsRun(l, Initial(l), past)
    requires var w := End(l, Initial(l), past);
             q in w.requests && w.requests[q].phase.Joining? && UrgentRun(l, w, steps)
    ensures var w := End(l, Initial(l), past);
            && IsRun(l, w, steps)
            && var last := End(l, w, steps);
               && q in last.requests
               && (last.requests[q].phase.Joining? ==> last.clock <= w.clock + l.targetTimeout)
               && (Settled(l, last) && w.clock + l.targetTimeout <= last.clock ==>
                     last.requests[q].phase.Finished? || last.requests[q].phase.Aborted?)
  {
    InitialInv(l);
    RunKeepsInv(l, Initial(l), past);
    var w := End(l, Initial(l), past);
    UrgentRunIsRun(l, w, steps);
    RunKeepsInv(l, w, steps);
    RunKeepsEnd(l, w, steps, q, w.clock);
    var last := End(l, w, steps);
    if Settled(l, last) && last.requests[q].phase.Joining? {
      var i := SettledJoiningWaits(l, last, q);
      assert At(last, q, i);
    }
  }

  /** Nobody aborts a request in an undisturbed run. */
  lemma {:induction false} UndisturbedKeepsClient(l: Limits, w: World, steps: seq<Step>, q: nat)
    requires IsRun(l, w, steps) && Undisturbed(steps)
    requires q in w.requests && (w.requests[q].phase.Joining? || w.requests[q].phase.Finished?)
    ensures var r := End(l, w, steps).requests; q in r && (r[q].phase.Joining? || r[q].phase.Finished?)
    decreases |steps|
  {
    if steps != [] {
      assert steps[0] in steps && forall s :: s in steps[1..] ==> s in steps;
      if !steps[0].Tick? && steps[0].q != q {
        StepIsLocal(l, w, steps[0], q);
      }
      UndisturbedKeepsClient(l, Apply(l, w, steps[0]), steps[1..], q);
    }
  }

  /** And there is such a run: from whatever reachable world, the ingress on its
      own answers a joining request one timeout from now at the latest, whatever
      other requests hold or want, and even if no target answers. */
  lemma JoiningFinishes(l: Limits, past: seq<Step>, q: nat) returns (steps: seq<Step>)
    requires IsRun(l, Initial(l), past)
    requires var w := End(l, Initial(l), past); q in w.requests && w.requests[q].phase.Joining?
    ensures var w := End(l, Initial(l), past);
            && UrgentRun(l, w, steps) && IsRun(l, w, steps) && Undisturbed(steps)
            && End(l, w, steps).clock == w.clock + l.targetTimeout
            && q in End(l, w, steps).requests && End(l, w, steps).requests[q].phase.Finished?
  {
    var w := End(l, Initial(l), past);
    steps := TimeIsNotBlocked(l, w, w.clock + l.targetTimeout);
    FanOutEndsInTime(l, past, steps, q);
    UndisturbedKeepsClient(l, w, steps, q);
  }
}
