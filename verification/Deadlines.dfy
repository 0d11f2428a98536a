/** What holds of dispatch however its steps are timed: every join loop runs out
    of work, and permits do not lie idle. */
module Deadlines {
  import opened Dispatch

  /** How many steps a delivery still takes at most. */
  function Rank(s: Stage): nat {
    match s
    case Spawned => 4
    case Waiting(_) => 3
    case Sending(_) => 2
    case Resolved(_, _, _) => 1
    case Joined(_, _, _) => 0
    case Cancelled => 0
  }

  function Work(ds: seq<Delivery>): nat {
    if ds == [] then 0 else Rank(ds[0].stage) + Work(ds[1..])
  }

  lemma {:induction false} WorkAfter(ds: seq<Delivery>, i: nat, d: Delivery)
    requires i < |ds|
    ensures Work(ds[i := d]) + Rank(ds[i].stage) == Work(ds) + Rank(d.stage)
  {
    if i > 0 {
      assert ds[i := d][1..] == ds[1..][i - 1 := d];
      WorkAfter(ds[1..], i - 1, d);
    } else {
      assert ds[i := d][1..] == ds[1..];
    }
  }

  predicate Moves(step: Step, q: nat) {
    (MovesDelivery(step) || step.Join?) && step.q == q
  }

  function MovesOf(steps: seq<Step>, q: nat): nat {
    if steps == [] then 0 else (if Moves(steps[0], q) then 1 else 0) + MovesOf(steps[1..], q)
  }

  /** A step of one delivery changes nothing else, and lowers its rank. */
  lemma MoveLowersRank(l: Limits, w: World, step: Step)
    requires Enabled(l, w, step) && (MovesDelivery(step) || step.Join?)
    ensures At(Apply(l, w, step), step.q, step.i)
    ensures var d := Apply(l, w, step).requests[step.q].deliveries[step.i];
            && Apply(l, w, step).requests[step.q].deliveries == w.requests[step.q].deliveries[step.i := d]
            && Rank(d.stage) < Rank(w.requests[step.q].deliveries[step.i].stage)
  {
  }

  /** A delivery is as it was, is new, or is the one that moves. */
  lemma DeliveryChanges(l: Limits, w: World, step: Step, q: nat, i: nat)
    requires RequestsInv(l, w) && Enabled(l, w, step) && !step.Tick? && At(Apply(l, w, step), q, i)
    ensures var d := Apply(l, w, step).requests[q].deliveries[i];
            || d.stage.Spawned?
            || (At(w, q, i) && d == w.requests[q].deliveries[i])
            || (At(w, q, i) && (MovesDelivery(step) || step.Join?) && step.q == q && step.i == i)
  {
    if step.q != q {
      StepIsLocal(l, w, step, q);
    } else if MovesDelivery(step) || step.Join? {
      MoveLowersRank(l, w, step);
    }
  }

  lemma MoveTakesWork(l: Limits, w: World, step: Step, q: nat)
    requires q in w.requests && w.requests[q].deliveries != [] && RequestInv(l, w.requests[q])
    requires Enabled(l, w, step)
    ensures q in Apply(l, w, step).requests
    ensures |Apply(l, w, step).requests[q].deliveries| == |w.requests[q].deliveries|
    ensures Work(Apply(l, w, step).requests[q].deliveries) + (if Moves(step, q) then 1 else 0)
         <= Work(w.requests[q].deliveries)
  {
    if step.Tick? || step.q != q {
      StepIsLocal(l, w, step, q);
    } else if Moves(step, q) {
      MoveLowersRank(l, w, step);
      WorkAfter(w.requests[q].deliveries, step.i, Apply(l, w, step).requests[q].deliveries[step.i]);
    } else {
      assert Apply(l, w, step).requests[q].deliveries == w.requests[q].deliveries;
    }
  }

  lemma {:induction false} MovesAreBounded(l: Limits, w: World, steps: seq<Step>, q: nat)
    requires Inv(l, w) && StartsInv(w) && IsRun(l, w, steps)
    requires q in w.requests && w.requests[q].deliveries != []
    ensures q in End(l, w, steps).requests
    ensures MovesOf(steps, q) + Work(End(l, w, steps).requests[q].deliveries) <= Work(w.requests[q].deliveries)
    decreases |steps|
  {
    if steps != [] {
      MoveTakesWork(l, w, steps[0], q);
      StepKeepsInv(l, w, steps[0]);
      MovesAreBounded(l, Apply(l, w, steps[0]), steps[1..], q);
    }
  }

  lemma {:induction false} WorkIsSmall(ds: seq<Delivery>)
    ensures Work(ds) <= 4 * |ds|
  {
    if ds != [] {
      WorkIsSmall(ds[1..]);
    }
  }

  /** From any reachable world on, a fan-out to n targets takes at most 4n more
      steps, whatever the other requests do. */
  lemma FanOutTerminates(l: Limits, past: seq<Step>, steps: seq<Step>, q: nat)
    requires IsRun(l, Initial(l), past)
    requires var w := End(l, Initial(l), past);
             q in w.requests && w.requests[q].deliveries != [] && IsRun(l, w, steps)
    ensures MovesOf(steps, q) <= 4 * |End(l, Initial(l), past).requests[q].deliveries|
  {
    InitialInv(l);
    RunKeepsInv(l, Initial(l), past);
    var w := End(l, Initial(l), past);
    MovesAreBounded(l, w, steps, q);
    WorkIsSmall(w.requests[q].deliveries);
  }

  /** No permit lies idle while a task waits for one, and with at least one permit
      configured a waiting task means that some task holds one. */
  lemma WaitersHaveSenders(l: Limits, past: seq<Step>, q: nat, i: nat)
    requires IsRun(l, Initial(l), past) && 0 < l.maxDeliveries
    requires var w := End(l, Initial(l), past); At(w, q, i) && StageOf(w, q, i).Waiting?
    ensures var w := End(l, Initial(l), past);
            Enabled(l, w, Acquire(q, i)) || exists p: nat, k: nat :: At(w, p, k) && StageOf(w, p, k).Sending?
  {
    PermitsAreConserved(l, past);
    var w := End(l, Initial(l), past);
    if w.deliveryFree == 0 {
      var holder :| holder in DeliveryHolders(w);
      assert At(w, holder.0, holder.1) && StageOf(w, holder.0, holder.1).Sending?;
    }
  }

  /** A joined delivery that has another result than a timeout was sent, exactly
      once. */
  lemma SentUnlessTimedOut(l: Limits, steps: seq<Step>, q: nat, i: nat)
    requires IsRun(l, Initial(l), steps) && At(End(l, Initial(l), steps), q, i)
    requires var stage := StageOf(End(l, Initial(l), steps), q, i); stage.Joined? && !stage.outcome.TimedOut?
    ensures End(l, Initial(l), steps).requests[q].deliveries[i].sends == 1
  {
    InitialInv(l);
    RunKeepsInv(l, Initial(l), steps);
    var r := End(l, Initial(l), steps).requests[q];
    assert RequestInv(l, r);
    assert DeliveryOk(r.deliveries[i], r.phase.Aborted?);
  }
}
