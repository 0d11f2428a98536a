/** The ingress: any number of requests, each fanned out to any number of
    delivery tasks, over one semaphore for requests and one for deliveries.
    Disconnects may come at any time, and aborted tasks stop at some later
    time. */
module Dispatch {
  import opened Domain
  import opened Leases
  import opened Aggregation

  datatype Limits = Limits(
    maxInflight: nat,
    maxDeliveries: nat,
    targetTimeout: nat,
    policy: ResponsePolicy,
    acceptWhenEmpty: bool)

  /** A delivery task. Its timeout runs from `start`, when the task first runs,
      and covers the wait for a permit. */
  datatype Stage =
    | Spawned
    | Waiting(start: nat)
    | Sending(start: nat)
    | Resolved(outcome: Outcome, start: nat, end: nat)
    | Joined(outcome: Outcome, start: nat, end: nat)
    | Cancelled

  /** `sends` counts how often the request was sent to the target. */
  datatype Delivery = Delivery(leaseId: LeaseId, stage: Stage, sends: nat)

  datatype Response = Response(status: nat, matched: nat, succeeded: nat, failed: int, reason: string)

  datatype Phase = Matching | Reading | Joining | Finished(response: Response) | Aborted

  /** `table` and `sample` record what the request was matched against. */
  datatype Request = Request(
    phase: Phase,
    route: Route,
    table: Table,
    sample: nat,
    targets: seq<DispatchTarget>,
    deliveries: seq<Delivery>,
    succeeded: nat,
    timedOut: bool)

  datatype World = World(clock: nat, ingressFree: nat, deliveryFree: nat, requests: map<nat, Request>)

  datatype Step =
    | Tick(elapsed: nat)
    | Arrive(q: nat, route: Route)
    | Match(q: nat, table: Table, sample: nat, targets: seq<DispatchTarget>)
    | BodyFails(q: nat, tooLarge: bool)
    | BodyRead(q: nat)
    | Start(q: nat, i: nat)
    | Acquire(q: nat, i: nat)
    | Complete(q: nat, i: nat, outcome: Outcome)
    | Expire(q: nat, i: nat)
    | Join(q: nat, i: nat)
    | Finish(q: nat)
    | Disconnect(q: nat)
    | Cancel(q: nat, i: nat)

  function Initial(l: Limits): World {
    World(0, l.maxInflight, l.maxDeliveries, map[])
  }

  predicate At(w: World, q: nat, i: nat) {
    q in w.requests && i < |w.requests[q].deliveries|
  }

  function StageOf(w: World, q: nat, i: nat): Stage
    requires At(w, q, i)
  {
    w.requests[q].deliveries[i].stage
  }

  ghost predicate Enabled(l: Limits, w: World, step: Step) {
    match step
    case Tick(_) => true
    case Arrive(q, _) => q !in w.requests
    case Match(q, table, sample, targets) =>
      && q in w.requests && w.requests[q].phase.Matching? && sample <= w.clock
      && IsMatching(table, sample, w.requests[q].route, targets)
    case BodyFails(q, _) => q in w.requests && w.requests[q].phase.Reading?
    case BodyRead(q) => q in w.requests && w.requests[q].phase.Reading?
    case Start(q, i) => At(w, q, i) && StageOf(w, q, i).Spawned?
    case Acquire(q, i) => At(w, q, i) && StageOf(w, q, i).Waiting? && 0 < w.deliveryFree
    case Complete(q, i, outcome) => At(w, q, i) && StageOf(w, q, i).Sending? && !outcome.TimedOut?
    case Expire(q, i) =>
      && At(w, q, i) && (StageOf(w, q, i).Waiting? || StageOf(w, q, i).Sending?)
      && StageOf(w, q, i).start + l.targetTimeout <= w.clock
    case Join(q, i) => At(w, q, i) && w.requests[q].phase.Joining? && StageOf(w, q, i).Resolved?
    case Finish(q) =>
      && q in w.requests && w.requests[q].phase.Joining?
      && forall i :: 0 <= i < |w.requests[q].deliveries| ==> w.requests[q].deliveries[i].stage.Joined?
    case Disconnect(q) => q in w.requests && HoldsIngress(w.requests[q])
    case Cancel(q, i) =>
      && At(w, q, i) && w.requests[q].phase.Aborted?
      && !StageOf(w, q, i).Joined? && !StageOf(w, q, i).Cancelled?
  }

  predicate HoldsIngress(r: Request) {
    r.phase.Matching? || r.phase.Reading? || r.phase.Joining?
  }

  function ShortCircuit(status: nat, matched: nat, reason: string): Response {
    Response(status, matched, 0, 0, reason)
  }

  function Aggregate(l: Limits, s: Summary): Response {
    Response(StatusOf(l.policy, s), s.total, s.succeeded, s.total - s.succeeded, "")
  }

  /** The request ends and gives up its ingress permit. */
  function Ended(w: World, q: nat, r: Request): World {
    w.(requests := w.requests[q := r], ingressFree := w.ingressFree + 1)
  }

  function Put(w: World, q: nat, i: nat, d: Delivery): World
    requires At(w, q, i)
  {
    w.(requests := w.requests[q := w.requests[q].(deliveries := w.requests[q].deliveries[i := d])])
  }

  function Moved(w: World, q: nat, i: nat, stage: Stage): World
    requires At(w, q, i)
  {
    Put(w, q, i, w.requests[q].deliveries[i].(stage := stage))
  }

  function Released(w: World, stage: Stage): nat {
    w.deliveryFree + if stage.Sending? then 1 else 0
  }

  function Apply(l: Limits, w: World, step: Step): World
    requires Enabled(l, w, step)
  {
    match step
    case Tick(elapsed) => w.(clock := w.clock + elapsed)
    case Arrive(q, route) =>
      if w.ingressFree == 0 then
        w.(requests := w.requests[q :=
             Request(Finished(ShortCircuit(503, 0, "ingress-capacity")), route, map[], 0, [], [], 0, false)])
      else
        w.(requests := w.requests[q := Request(Matching, route, map[], 0, [], [], 0, false)],
           ingressFree := w.ingressFree - 1)
    case Match(q, table, sample, targets) =>
      var r := w.requests[q].(table := table, sample := sample, targets := targets);
      if targets == [] then
        Ended(w, q, r.(phase := Finished(ShortCircuit(if l.acceptWhenEmpty then 200 else 503, 0, "no-targets"))))
      else w.(requests := w.requests[q := r.(phase := Reading)])
    case BodyFails(q, tooLarge) =>
      var r := w.requests[q];
      Ended(w, q, r.(phase := Finished(
        if tooLarge then ShortCircuit(413, |r.targets|, "body-too-large")
        else ShortCircuit(400, |r.targets|, "body-read-failed"))))
    case BodyRead(q) =>
      var r := w.requests[q];
      w.(requests := w.requests[q := r.(phase := Joining, deliveries := Spawn(r.targets))])
    case Start(q, i) => Moved(w, q, i, Waiting(w.clock))
    case Acquire(q, i) =>
      var d := w.requests[q].deliveries[i];
      Put(w, q, i, Delivery(d.leaseId, Sending(d.stage.start), d.sends + 1)).(deliveryFree := w.deliveryFree - 1)
    case Complete(q, i, outcome) =>
      Moved(w, q, i, Resolved(outcome, StageOf(w, q, i).start, w.clock)).(
        deliveryFree := Released(w, StageOf(w, q, i)))
    case Expire(q, i) =>
      Moved(w, q, i, Resolved(TimedOut, StageOf(w, q, i).start, w.clock)).(
        deliveryFree := Released(w, StageOf(w, q, i)))
    case Join(q, i) =>
      var stage := StageOf(w, q, i);
      var w' := Moved(w, q, i, Joined(stage.outcome, stage.start, stage.end));
      var r := w'.requests[q];
      w'.(requests := w'.requests[q := r.(
        succeeded := r.succeeded + (if IsSuccess(stage.outcome) then 1 else 0),
        timedOut := r.timedOut || stage.outcome.TimedOut?)])
    case Finish(q) =>
      var r := w.requests[q];
      Ended(w, q, r.(phase := Finished(Aggregate(l, Summary(|r.deliveries|, r.succeeded, r.timedOut)))))
    case Disconnect(q) => Ended(w, q, w.requests[q].(phase := Aborted))
    case Cancel(q, i) => Moved(w, q, i, Cancelled).(deliveryFree := Released(w, StageOf(w, q, i)))
  }

  /** One task for each target. */
  function Spawn(targets: seq<DispatchTarget>): (deliveries: seq<Delivery>)
    ensures |deliveries| == |targets|
    ensures forall i :: 0 <= i < |targets| ==> deliveries[i] == Delivery(targets[i].leaseId, Spawned, 0)
  {
    seq(|targets|, i requires 0 <= i < |targets| => Delivery(targets[i].leaseId, Spawned, 0))
  }

  function JoinedSuccesses(ds: seq<Delivery>): nat {
    if ds == [] then 0
    else
      (if ds[0].stage.Joined? && IsSuccess(ds[0].stage.outcome) then 1 else 0) + JoinedSuccesses(ds[1..])
  }

  /** What holds of each delivery of a request. */
  predicate DeliveryOk(d: Delivery, aborted: bool) {
    match d.stage
    case Spawned => d.sends == 0
    case Waiting(_) => d.sends == 0
    case Sending(_) => d.sends == 1
    case Resolved(outcome, start, end) => start <= end && d.sends <= 1 && (d.sends == 0 ==> outcome.TimedOut?)
    case Joined(outcome, start, end) => start <= end && d.sends <= 1 && (d.sends == 0 ==> outcome.TimedOut?)
    case Cancelled => aborted && d.sends <= 1
  }

  /** How a request ends without a task. */
  ghost predicate ShortCircuited(l: Limits, r: Request, response: Response) {
    || response == ShortCircuit(503, 0, "ingress-capacity")
    || (response == ShortCircuit(if l.acceptWhenEmpty then 200 else 503, 0, "no-targets")
        && MatchingIds(r.table, r.sample, r.route) == {})
    || (r.targets != [] && IsMatching(r.table, r.sample, r.route, r.targets)
        && (response == ShortCircuit(413, |r.targets|, "body-too-large")
            || response == ShortCircuit(400, |r.targets|, "body-read-failed")))
  }

  ghost predicate RequestInv(l: Limits, r: Request) {
    && (forall i :: 0 <= i < |r.deliveries| ==> DeliveryOk(r.deliveries[i], r.phase.Aborted?))
    && (r.deliveries != [] ==>
          && IsMatching(r.table, r.sample, r.route, r.targets)
          && |r.deliveries| == |r.targets|
          && forall i :: 0 <= i < |r.targets| ==> r.deliveries[i].leaseId == r.targets[i].leaseId)
    && r.succeeded == JoinedSuccesses(r.deliveries)
    && (r.timedOut <==>
          exists i :: 0 <= i < |r.deliveries| && IsTimeout(r.deliveries[i]))
    && match r.phase
       case Matching => r.deliveries == []
       case Reading => r.deliveries == [] && r.targets != [] && IsMatching(r.table, r.sample, r.route, r.targets)
       case Joining => r.deliveries != []
       case Finished(response) =>
         && (forall i :: 0 <= i < |r.deliveries| ==> r.deliveries[i].stage.Joined?)
         && (response.reason != "" ==> r.deliveries == [])
         && (r.deliveries == [] ==> ShortCircuited(l, r, response))
         && (r.deliveries != [] ==> response == Aggregate(l, Summary(|r.deliveries|, r.succeeded, r.timedOut)))
       case Aborted => true
  }

  ghost function IngressHolders(w: World): set<nat> {
    set q | q in w.requests && HoldsIngress(w.requests[q])
  }

  ghost function DeliveryHolders(w: World): set<(nat, nat)> {
    set q: nat, i: nat |
      q in w.requests && i < |w.requests[q].deliveries| && w.requests[q].deliveries[i].stage.Sending?
      :: (q, i)
  }

  ghost predicate RequestsInv(l: Limits, w: World) {
    forall q :: q in w.requests ==> RequestInv(l, w.requests[q])
  }

  ghost predicate PermitsInv(l: Limits, w: World) {
    && w.ingressFree + |IngressHolders(w)| == l.maxInflight
    && w.deliveryFree + |DeliveryHolders(w)| == l.maxDeliveries
  }

  ghost predicate Inv(l: Limits, w: World) {
    RequestsInv(l, w) && PermitsInv(l, w)
  }

  lemma {:induction false} SuccessesAfter(ds: seq<Delivery>, i: nat, d: Delivery)
    requires i < |ds| && !ds[i].stage.Joined?
    ensures JoinedSuccesses(ds[i := d])
         == JoinedSuccesses(ds) + if d.stage.Joined? && IsSuccess(d.stage.outcome) then 1 else 0
  {
    if i > 0 {
      assert ds[i := d][1..] == ds[1..][i - 1 := d];
      SuccessesAfter(ds[1..], i - 1, d);
    } else {
      assert ds[i := d][1..] == ds[1..];
    }
  }

  lemma {:induction false} NothingJoined(ds: seq<Delivery>)
    requires forall i :: 0 <= i < |ds| ==> !ds[i].stage.Joined?
    ensures JoinedSuccesses(ds) == 0
  {
    if ds != [] {
      NothingJoined(ds[1..]);
    }
  }

  /** A delivery moves on without being joined. */
  lemma DeliveryMoveKeeps(l: Limits, r: Request, i: nat, d: Delivery)
    requires RequestInv(l, r) && i < |r.deliveries|
    requires !r.deliveries[i].stage.Joined? && !d.stage.Joined?
    requires DeliveryOk(d, r.phase.Aborted?) && d.leaseId == r.deliveries[i].leaseId
    ensures RequestInv(l, r.(deliveries := r.deliveries[i := d]))
  {
    SuccessesAfter(r.deliveries, i, d);
    var r' := r.(deliveries := r.deliveries[i := d]);
    if r.timedOut {
      var k :| 0 <= k < |r.deliveries| && IsTimeout(r.deliveries[k]);
      assert r'.deliveries[k] == r.deliveries[k];
    }
  }

  predicate IsTimeout(d: Delivery) {
    d.stage.Joined? && d.stage.outcome.TimedOut?
  }

  lemma TimeoutsAfterJoin(ds: seq<Delivery>, i: nat, d: Delivery, ds': seq<Delivery>)
    requires i < |ds| && !ds[i].stage.Joined? && ds' == ds[i := d]
    ensures (exists k :: 0 <= k < |ds'| && IsTimeout(ds'[k]))
       <==> IsTimeout(d) || exists k :: 0 <= k < |ds| && IsTimeout(ds[k])
  {
    assert ds'[i] == d;
    if k :| 0 <= k < |ds| && IsTimeout(ds[k]) {
      assert ds'[k] == ds[k];
    }
  }

  lemma JoinKeeps(l: Limits, w: World, q: nat, i: nat)
    requires Enabled(l, w, Join(q, i)) && RequestInv(l, w.requests[q])
    ensures RequestInv(l, Apply(l, w, Join(q, i)).requests[q])
  {
    var r := w.requests[q];
    var stage := r.deliveries[i].stage;
    var d := r.deliveries[i].(stage := Joined(stage.outcome, stage.start, stage.end));
    SuccessesAfter(r.deliveries, i, d);
    TimeoutsAfterJoin(r.deliveries, i, d, r.deliveries[i := d]);
  }

  lemma SpawnKeeps(l: Limits, w: World, q: nat)
    requires Enabled(l, w, BodyRead(q)) && RequestInv(l, w.requests[q])
    ensures RequestInv(l, Apply(l, w, BodyRead(q)).requests[q])
  {
    NothingJoined(Spawn(w.requests[q].targets));
  }

  predicate MovesDelivery(step: Step) {
    step.Start? || step.Acquire? || step.Complete? || step.Expire? || step.Cancel?
  }

  /** Clock readings on a delivery lie in the past. */
  ghost predicate StartsInv(w: World) {
    forall q, i :: At(w, q, i) ==>
      match StageOf(w, q, i)
      case Waiting(start) => start <= w.clock
      case Sending(start) => start <= w.clock
      case _ => true
  }

  lemma DeliveryStepKeeps(l: Limits, w: World, step: Step)
    requires RequestsInv(l, w) && StartsInv(w) && Enabled(l, w, step) && MovesDelivery(step)
    ensures RequestInv(l, Apply(l, w, step).requests[step.q])
  {
    var r := w.requests[step.q];
    assert At(w, step.q, step.i);
    var d := Apply(l, w, step).requests[step.q].deliveries[step.i];
    DeliveryMoveKeeps(l, r, step.i, d);
    assert Apply(l, w, step).requests[step.q] == r.(deliveries := r.deliveries[step.i := d]);
  }

  lemma EntryKeeps(l: Limits, w: World, step: Step)
    requires RequestsInv(l, w) && Enabled(l, w, step)
    requires step.Arrive? || step.Match?
    ensures RequestInv(l, Apply(l, w, step).requests[step.q])
  {
  }

  lemma ExitKeeps(l: Limits, w: World, step: Step)
    requires RequestsInv(l, w) && Enabled(l, w, step)
    requires step.BodyFails? || step.Finish? || step.Disconnect?
    ensures RequestInv(l, Apply(l, w, step).requests[step.q])
  {
  }

  /** A step changes the request it names, if any, and no other. */
  lemma StepIsLocal(l: Limits, w: World, step: Step, p: nat)
    requires Enabled(l, w, step) && (step.Tick? || step.q != p)
    ensures var w' := Apply(l, w, step);
            (p in w'.requests <==> p in w.requests) && (p in w.requests ==> w'.requests[p] == w.requests[p])
  {
  }

  lemma StepKeepsRequests(l: Limits, w: World, step: Step)
    requires RequestsInv(l, w) && StartsInv(w) && Enabled(l, w, step)
    ensures RequestsInv(l, Apply(l, w, step))
  {
    var w' := Apply(l, w, step);
    forall p | p in w'.requests
      ensures RequestInv(l, w'.requests[p])
    {
      if step.Tick? || p != step.q {
        StepIsLocal(l, w, step, p);
      } else if MovesDelivery(step) {
        DeliveryStepKeeps(l, w, step);
      } else if step.Join? {
        JoinKeeps(l, w, step.q, step.i);
      } else if step.BodyRead? {
        SpawnKeeps(l, w, step.q);
      } else if step.Arrive? || step.Match? {
        EntryKeeps(l, w, step);
      } else {
        ExitKeeps(l, w, step);
      }
    }
  }

  lemma StepKeepsStarts(l: Limits, w: World, step: Step)
    requires StartsInv(w) && Enabled(l, w, step)
    ensures StartsInv(Apply(l, w, step))
  {
    var w' := Apply(l, w, step);
    forall q, i | At(w', q, i)
      ensures match StageOf(w', q, i)
              case Waiting(start) => start <= w'.clock
              case Sending(start) => start <= w'.clock
              case _ => true
    {
      if At(w, q, i) && StageOf(w', q, i) == StageOf(w, q, i) {
        assert At(w, q, i);
      }
    }
  }

  lemma HoldersAfterPut(w: World, q: nat, i: nat, d: Delivery)
    requires At(w, q, i)
    ensures IngressHolders(Put(w, q, i, d)) == IngressHolders(w)
    ensures DeliveryHolders(Put(w, q, i, d))
         == DeliveryHolders(w) - {(q, i)} + if d.stage.Sending? then {(q, i)} else {}
  {
    var w' := Put(w, q, i, d);
    assert forall p: nat, k: nat :: At(w', p, k) <==> At(w, p, k);
    assert forall p: nat, k: nat :: At(w, p, k) && (p, k) != (q, i) ==> StageOf(w', p, k) == StageOf(w, p, k);
  }

  /** A request changes its phase; its tasks, if it gets any, are not sending. */
  lemma HoldersAfterPhase(w: World, q: nat, r: Request)
    requires if q in w.requests && w.requests[q].deliveries != [] then r.deliveries == w.requests[q].deliveries
             else forall i :: 0 <= i < |r.deliveries| ==> !r.deliveries[i].stage.Sending?
    ensures var w' := w.(requests := w.requests[q := r]);
            && DeliveryHolders(w') == DeliveryHolders(w)
            && IngressHolders(w') == IngressHolders(w) - {q} + if HoldsIngress(r) then {q} else {}
  {
  }

  /** A step of one delivery is that delivery's change, and the matching change in
      the free permits. */
  lemma DeliveryStepForm(l: Limits, w: World, step: Step)
    requires Enabled(l, w, step) && (MovesDelivery(step) || step.Join?)
    ensures var w' := Apply(l, w, step);
            && At(w, step.q, step.i) && At(w', step.q, step.i)
            && w'.ingressFree == w.ingressFree
            && w'.deliveryFree + PermitsOf(StageOf(w', step.q, step.i))
               == w.deliveryFree + PermitsOf(StageOf(w, step.q, step.i))
  {
  }

  function PermitsOf(s: Stage): nat {
    if s.Sending? then 1 else 0
  }

  lemma DeliveryStepHolders(l: Limits, w: World, step: Step)
    requires Enabled(l, w, step) && (MovesDelivery(step) || step.Join?)
    ensures var w' := Apply(l, w, step);
            && step.q in w'.requests && step.i < |w'.requests[step.q].deliveries|
            && var put := Put(w, step.q, step.i, w'.requests[step.q].deliveries[step.i]);
               DeliveryHolders(w') == DeliveryHolders(put) && IngressHolders(w') == IngressHolders(put)
  {
  }

  lemma DeliveryStepKeepsPermits(l: Limits, w: World, step: Step)
    requires PermitsInv(l, w) && Enabled(l, w, step) && (MovesDelivery(step) || step.Join?)
    ensures PermitsInv(l, Apply(l, w, step))
  {
    DeliveryStepForm(l, w, step);
    DeliveryStepHolders(l, w, step);
    HoldersAfterPut(w, step.q, step.i, Apply(l, w, step).requests[step.q].deliveries[step.i]);
    assert (step.q, step.i) in DeliveryHolders(w) <==> StageOf(w, step.q, step.i).Sending?;
  }

  function Permit(w: World, q: nat): nat {
    if q in w.requests && HoldsIngress(w.requests[q]) then 1 else 0
  }

  /** A request gets or gives up its ingress permit exactly as it enters or leaves
      the phases that hold one. */
  lemma PhaseStepMovesPermit(l: Limits, w: World, step: Step)
    requires Enabled(l, w, step)
    requires !MovesDelivery(step) && !step.Join? && !step.Tick?
    ensures var w' := Apply(l, w, step);
            && step.q in w'.requests && w'.requests == w.requests[step.q := w'.requests[step.q]]
            && w'.deliveryFree == w.deliveryFree
            && w'.ingressFree + Permit(w', step.q) == w.ingressFree + Permit(w, step.q)
  {
  }

  /** No task starts out sending. */
  predicate KeepsTasks(w: World, q: nat, w': World)
    requires q in w'.requests
  {
    if q in w.requests && w.requests[q].deliveries != [] then
      w'.requests[q].deliveries == w.requests[q].deliveries
    else
      forall i :: 0 <= i < |w'.requests[q].deliveries| ==> !w'.requests[q].deliveries[i].stage.Sending?
  }

  lemma PhaseStepKeepsTasks(l: Limits, w: World, step: Step)
    requires RequestsInv(l, w) && Enabled(l, w, step)
    requires !MovesDelivery(step) && !step.Join? && !step.Tick?
    ensures step.q in Apply(l, w, step).requests && KeepsTasks(w, step.q, Apply(l, w, step))
  {
  }

  lemma PhaseStepKeepsPermits(l: Limits, w: World, step: Step)
    requires RequestsInv(l, w) && PermitsInv(l, w) && Enabled(l, w, step)
    requires !MovesDelivery(step) && !step.Join? && !step.Tick?
    ensures PermitsInv(l, Apply(l, w, step))
  {
    var w' := Apply(l, w, step);
    PhaseStepMovesPermit(l, w, step);
    PhaseStepKeepsTasks(l, w, step);
    SamePermits(l, w, step.q, w');
  }

  lemma SamePermits(l: Limits, w: World, q: nat, w': World)
    requires PermitsInv(l, w)
    requires q in w'.requests && w'.requests == w.requests[q := w'.requests[q]]
    requires w'.deliveryFree == w.deliveryFree
    requires w'.ingressFree + Permit(w', q) == w.ingressFree + Permit(w, q)
    requires KeepsTasks(w, q, w')
    ensures PermitsInv(l, w')
  {
    HoldersAfterPhase(w, q, w'.requests[q]);
    var w'' := w.(requests := w.requests[q := w'.requests[q]]);
    assert DeliveryHolders(w') == DeliveryHolders(w'');
    assert IngressHolders(w') == IngressHolders(w'');
    assert q in IngressHolders(w) <==> Permit(w, q) == 1;
  }

  lemma StepKeepsInv(l: Limits, w: World, step: Step)
    requires Inv(l, w) && StartsInv(w) && Enabled(l, w, step)
    ensures Inv(l, Apply(l, w, step)) && StartsInv(Apply(l, w, step))
  {
    StepKeepsRequests(l, w, step);
    StepKeepsStarts(l, w, step);
    if MovesDelivery(step) || step.Join? {
      DeliveryStepKeepsPermits(l, w, step);
    } else if step.Tick? {
      var w' := Apply(l, w, step);
      assert DeliveryHolders(w') == DeliveryHolders(w) && IngressHolders(w') == IngressHolders(w);
    } else {
      PhaseStepKeepsPermits(l, w, step);
    }
  }

  ghost predicate IsRun(l: Limits, w: World, steps: seq<Step>)
    decreases |steps|
  {
    steps == [] || (Enabled(l, w, steps[0]) && IsRun(l, Apply(l, w, steps[0]), steps[1..]))
  }

  ghost function End(l: Limits, w: World, steps: seq<Step>): World
    requires IsRun(l, w, steps)
    decreases |steps|
  {
    if steps == [] then w else End(l, Apply(l, w, steps[0]), steps[1..])
  }

  lemma {:induction false} RunKeepsInv(l: Limits, w: World, steps: seq<Step>)
    requires Inv(l, w) && StartsInv(w) && IsRun(l, w, steps)
    ensures Inv(l, End(l, w, steps)) && StartsInv(End(l, w, steps))
    decreases |steps|
  {
    if steps != [] {
      StepKeepsInv(l, w, steps[0]);
      RunKeepsInv(l, Apply(l, w, steps[0]), steps[1..]);
    }
  }

  lemma InitialInv(l: Limits)
    ensures Inv(l, Initial(l)) && StartsInv(Initial(l))
  {
  }

  /** In every run, each semaphore's free permits and its holders add up to its
      limit, whatever arrives, fails, times out or disconnects. */
  lemma PermitsAreConserved(l: Limits, steps: seq<Step>)
    requires IsRun(l, Initial(l), steps)
    ensures var w := End(l, Initial(l), steps);
            && w.ingressFree + |IngressHolders(w)| == l.maxInflight
            && w.deliveryFree + |DeliveryHolders(w)| == l.maxDeliveries
  {
    InitialInv(l);
    RunKeepsInv(l, Initial(l), steps);
  }

  /** A request whose client stayed gives up its ingress permit only when none of
      its deliveries holds a permit any more. */
  lemma IngressPermitOutlivesDeliveries(l: Limits, steps: seq<Step>, q: nat, i: nat)
    requires IsRun(l, Initial(l), steps)
    requires At(End(l, Initial(l), steps), q, i)
    ensures var w := End(l, Initial(l), steps);
            !HoldsIngress(w.requests[q]) && !w.requests[q].phase.Aborted? ==> (q, i) !in DeliveryHolders(w)
  {
    InitialInv(l);
    RunKeepsInv(l, Initial(l), steps);
    var r := End(l, Initial(l), steps).requests[q];
    assert RequestInv(l, r);
  }

  /** Each request that gets as far as dispatch has exactly one task for each
      lease that was live and on its route at its match, sends to each at most
      once, and sends to none before that. A request that is refused, matches
      nothing or has an unreadable body has no task at all. */
  lemma FanOutIsExact(l: Limits, steps: seq<Step>, q: nat)
    requires IsRun(l, Initial(l), steps)
    requires q in End(l, Initial(l), steps).requests
    ensures var r := End(l, Initial(l), steps).requests[q];
            && (r.deliveries != [] ==>
                  && (forall id ::
                        id in r.table && r.table[id].expiresAt > r.sample && Takes(r.table[id].request, r.route)
                        <==> exists i :: 0 <= i < |r.deliveries| && r.deliveries[i].leaseId == id)
                  && (forall i, j :: 0 <= i < j < |r.deliveries| ==>
                        r.deliveries[i].leaseId != r.deliveries[j].leaseId))
            && (forall i :: 0 <= i < |r.deliveries| ==> r.deliveries[i].sends <= 1)
            && (r.phase.Matching? || r.phase.Reading? ==> r.deliveries == [])
            && (r.phase.Finished? && r.phase.response.reason != "" ==> r.deliveries == [])
  {
    InitialInv(l);
    RunKeepsInv(l, Initial(l), steps);
    var r := End(l, Initial(l), steps).requests[q];
    assert RequestInv(l, r);
    if r.deliveries != [] {
      MatchingSpelledOut(r.table, r.sample, r.route, r.targets);
      forall id
        ensures id in r.table && r.table[id].expiresAt > r.sample && Takes(r.table[id].request, r.route)
           <==> exists i :: 0 <= i < |r.deliveries| && r.deliveries[i].leaseId == id
      {
        SameLeases(r, id);
      }
    }
  }

  lemma SameLeases(r: Request, id: LeaseId)
    requires |r.deliveries| == |r.targets|
    requires forall i :: 0 <= i < |r.targets| ==> r.deliveries[i].leaseId == r.targets[i].leaseId
    ensures (exists i :: 0 <= i < |r.targets| && r.targets[i].leaseId == id)
       <==> exists i :: 0 <= i < |r.deliveries| && r.deliveries[i].leaseId == id
  {
    if i :| 0 <= i < |r.targets| && r.targets[i].leaseId == id {
      assert r.deliveries[i].leaseId == id;
    }
  }

  function Outcomes(ds: seq<Delivery>): (outcomes: seq<Outcome>)
    requires forall i :: 0 <= i < |ds| ==> ds[i].stage.Joined?
    ensures |outcomes| == |ds|
    ensures forall i :: 0 <= i < |ds| ==> outcomes[i] == ds[i].stage.outcome
  {
    if ds == [] then [] else [ds[0].stage.outcome] + Outcomes(ds[1..])
  }

  lemma {:induction false} CountsAgree(ds: seq<Delivery>)
    requires forall i :: 0 <= i < |ds| ==> ds[i].stage.Joined?
    ensures JoinedSuccesses(ds) == CountSuccesses(Outcomes(ds))
  {
    if ds != [] {
      CountsAgree(ds[1..]);
      assert Outcomes(ds)[1..] == Outcomes(ds[1..]);
    }
  }

  /** The answer to a fan-out with these outcomes: how many targets there were, how
      many answered with a 2xx status and how many did not, and the status that the
      policy makes of it. */
  ghost predicate IsAnswer(p: ResponsePolicy, outcomes: seq<Outcome>, response: Response) {
    && response.matched == |outcomes|
    && response.succeeded == |set i | 0 <= i < |outcomes| && outcomes[i].Status? && outcomes[i].code / 100 == 2|
    && response.failed == |set i | 0 <= i < |outcomes| && !(outcomes[i].Status? && outcomes[i].code / 100 == 2)|
    && response.reason == ""
    && response.status
       == if Satisfied(p, outcomes) then 200
          else if exists i :: 0 <= i < |outcomes| && outcomes[i] == TimedOut then 504 else 502
  }

  lemma AggregateIsAnswer(l: Limits, outcomes: seq<Outcome>)
    ensures IsAnswer(l.policy, outcomes, Aggregate(l, Summarize(outcomes)))
  {
    ResponseMeaning(l.policy, outcomes);
    SuccessesSpelledOut(outcomes);
    FailuresSpelledOut(outcomes);
    assert TimedOut in outcomes <==> exists i :: 0 <= i < |outcomes| && outcomes[i] == TimedOut;
  }

  /** Whatever order tasks finish in and however requests interleave, a finished
      fan-out has one result per target and answers with their aggregate. */
  lemma ResponseIsAggregate(l: Limits, steps: seq<Step>, q: nat)
    requires IsRun(l, Initial(l), steps)
    requires q in End(l, Initial(l), steps).requests
    requires var r := End(l, Initial(l), steps).requests[q];
             r.phase.Finished? && r.deliveries != []
    ensures var r := End(l, Initial(l), steps).requests[q];
            && (forall i :: 0 <= i < |r.deliveries| ==> r.deliveries[i].stage.Joined?)
            && r.phase.response == Aggregate(l, Summarize(Outcomes(r.deliveries)))
            && IsAnswer(l.policy, Outcomes(r.deliveries), r.phase.response)
            && r.phase.response.matched == |r.targets|
  {
    InitialInv(l);
    RunKeepsInv(l, Initial(l), steps);
    var r := End(l, Initial(l), steps).requests[q];
    assert RequestInv(l, r);
    CountsAgree(r.deliveries);
    AggregateIsAnswer(l, Outcomes(r.deliveries));
    TimeoutsAgree(r);
  }

  /** In every run, a request is answered with 200 exactly when its targets met the
      policy, or when nothing on its route was live at its match and the server is
      told to accept that. */
  lemma AcceptedMeaning(l: Limits, steps: seq<Step>, q: nat)
    requires IsRun(l, Initial(l), steps)
    requires q in End(l, Initial(l), steps).requests && End(l, Initial(l), steps).requests[q].phase.Finished?
    ensures var r := End(l, Initial(l), steps).requests[q];
            var response := r.phase.response;
            && (forall i :: 0 <= i < |r.deliveries| ==> r.deliveries[i].stage.Joined?)
            && (response.status == 200 <==>
                  if r.deliveries != [] then Satisfied(l.policy, Outcomes(r.deliveries))
                  else l.acceptWhenEmpty && response.reason == "no-targets")
            && (response.reason == "no-targets" ==> MatchingIds(r.table, r.sample, r.route) == {})
            && (r.deliveries == [] ==>
                  || response == Response(503, 0, 0, 0, "ingress-capacity")
                  || response == Response(if l.acceptWhenEmpty then 200 else 503, 0, 0, 0, "no-targets")
                  || response == Response(413, |r.targets|, 0, 0, "body-too-large")
                  || response == Response(400, |r.targets|, 0, 0, "body-read-failed"))
  {
    InitialInv(l);
    RunKeepsInv(l, Initial(l), steps);
    var r := End(l, Initial(l), steps).requests[q];
    assert RequestInv(l, r);
    if r.deliveries != [] {
      ResponseIsAggregate(l, steps, q);
      ResponseMeaning(l.policy, Outcomes(r.deliveries));
    }
  }

  lemma TimeoutsAgree(r: Request)
    requires forall i :: 0 <= i < |r.deliveries| ==> r.deliveries[i].stage.Joined?
    requires r.timedOut <==>
               exists i :: 0 <= i < |r.deliveries| && r.deliveries[i].stage.Joined? && r.deliveries[i].stage.outcome.TimedOut?
    ensures r.timedOut <==> TimedOut in Outcomes(r.deliveries)
  {
  }
}
