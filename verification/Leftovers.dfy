/** All the leases that a client leaves behind, over any alternation of successes
    and failures. Every attempt that fails costs the client time: a pause that
    doubles, and after a success at least a second before the next attempt. */
module Leftovers {
  import opened Wrappers
  import opened Protocol
  import opened Domain
  import opened Leases
  import opened Registration
  import opened LeaseProtocol
  import opened Orphans
  import Sets

  const COST: nat := 1700 * NANOS_PER_MILLI
  const CREDIT: nat := 4700 * NANOS_PER_MILLI

  /** At most so many attempts of a client fail in a window of time, among any
      number of attempts that succeed. */
  function FailuresWithin(window: nat): nat {
    (3 * window + CREDIT) / COST
  }

  /** The client makes another attempt to register. */
  predicate Registers(w: World, w': World) {
    w'.client.phase.Connecting? && w'.key == w.key + 1
  }

  /** The client hears of the lease that its attempt has created. */
  predicate Announces(w: World, step: Step)
    requires Enabled(w, step)
  {
    w.client.phase.Connecting? && step.Hear? && w.reply.value.Accepted?
  }

  /** The attempts since `from` that the client has heard no lease for. */
  function Mark(q: CreateLeaseRequest, w: World, step: Step, from: int, failed: set<nat>): set<nat>
    requires Enabled(w, step)
  {
    if Registers(w, Apply(q, w, step)) && from < w.clock then failed + {w.key + 1}
    else if Announces(w, step) then failed - {w.key}
    else failed
  }

  function FailedOf(q: CreateLeaseRequest, w: World, steps: seq<Step>, from: int, failed: set<nat>): set<nat>
    requires IsRun(q, w, steps)
    decreases |steps|
  {
    if steps == [] then failed
    else FailedOf(q, Apply(q, w, steps[0]), steps[1..], from, Mark(q, w, steps[0], from, failed))
  }

  /** What `a` attempts without a success can be ahead of their time. */
  function Credit(a: nat): nat {
    if a <= 1 then 1700 * NANOS_PER_MILLI
    else if a == 2 then 3100 * NANOS_PER_MILLI
    else if a == 3 then 4200 * NANOS_PER_MILLI
    else CREDIT
  }

  function PhaseCredit(w: World): nat {
    match w.client.phase
    case Connecting => Credit(|w.attempts|)
    case BackingOff => Credit(|w.attempts|)
    case Holding(_) => 3000 * NANOS_PER_MILLI
    case Renewing(_) => 0
    case _ => CREDIT
  }

  /** The failed attempts are paid for by the time since `from`, up to a credit. */
  ghost predicate Paid(w: World, from: int, failed: set<nat>) {
    && (failed != {} ==> from < w.since && COST * |failed| <= 3 * (w.since - from) + PhaseCredit(w))
    && (w.client.phase.Connecting? && failed != {} ==> w.key in failed)
  }

  /** Renewal intervals are at least a second. */
  ghost predicate RatesInv(w: World) {
    && (w.server.Up? ==> MIN_LEASE_TTL <= w.server.config.leaseTtl)
    && (Waits(w) && w.reply.Some? && w.reply.value.Accepted? ==> SECOND <= w.reply.value.lease.renewAfter)
    && (w.client.phase.Holding? || w.client.phase.Renewing? ==> SECOND <= w.client.phase.lease.renewAfter)
  }

  lemma ServeKeepsRates(q: CreateLeaseRequest, w: World, step: Step)
    requires RatesInv(w) && Enabled(w, step) && step.Serve?
    ensures RatesInv(Apply(q, w, step))
  {
    TwoIntervalsFit(w.server.config.leaseTtl);
  }

  lemma StepKeepsRates(q: CreateLeaseRequest, w: World, step: Step)
    requires RatesInv(w) && Enabled(w, step)
    ensures RatesInv(Apply(q, w, step))
  {
    if step.Serve? {
      ServeKeepsRates(q, w, step);
    }
  }

  lemma CreditGrows(a: nat)
    requires 0 < a
    ensures Credit(a) + COST <= Credit(a + 1) + 3 * DelayAfter(a - 1)
  {
    if a > 4 {
      DelayGrows(3, a - 1);
    }
    assert Pow2(2) == 4 && Pow2(3) == 8;
  }

  lemma OneMoreFailed(failed: set<nat>, key: nat)
    ensures COST * |failed + {key}| <= COST * |failed| + COST
    ensures key in failed ==> COST * |failed - {key}| + COST == COST * |failed|
  {
    assert |failed + {key}| <= |failed| + 1;
    if key in failed {
      assert |failed| == |failed - {key}| + 1;
    }
  }

  /** From one moment to a later one, with one more failed attempt or one fewer. */
  lemma Charge(failed: set<nat>, key: nat, since: nat, now: nat, from: int, credit: nat, credit': nat, pause: nat)
    requires failed != {} ==> from < since && COST * |failed| <= 3 * (since - from) + credit
    requires since + pause <= now && credit + COST <= credit' + 3 * pause && COST <= credit'
    ensures from < now ==> COST * |failed + {key}| <= 3 * (now - from) + credit'
  {
    OneMoreFailed(failed, key);
  }

  lemma Refund(failed: set<nat>, key: nat, since: nat, now: nat, from: int, credit: nat, credit': nat)
    requires failed != {} ==> from < since && COST * |failed| <= 3 * (since - from) + credit && key in failed
    requires since <= now && credit <= credit' + COST
    ensures failed - {key} != {} ==> from < now && COST * |failed - {key}| <= 3 * (now - from) + credit'
  {
    OneMoreFailed(failed, key);
  }

  /** What a step of the client does to the fields that count here. */
  lemma ConnectingStep(q: CreateLeaseRequest, w: World, step: Step)
    requires Enabled(w, step) && ClientMoves(step) && w.client.phase.Connecting?
    ensures var w' := Apply(q, w, step);
            && w'.since == w.clock && w'.key == w.key
            && (if Announces(w, step) then w'.client.phase.Holding? || w'.client.phase.Leaving?
                else w'.client.phase.Stopped? || (w'.client.phase.BackingOff? && w'.attempts == w.attempts))
  {
  }

  lemma RetryStep(q: CreateLeaseRequest, w: World, step: Step)
    requires Enabled(w, step) && ClientMoves(step) && w.client.phase.BackingOff?
    ensures var w' := Apply(q, w, step);
            && w'.since == w.clock
            && (if step.Shutdown? then w'.client.phase.Stopped?
                else w.since + w.client.reconnectDelay <= w.clock && w'.client.phase.Connecting?
                     && w'.key == w.key + 1 && |w'.attempts| == |w.attempts| + 1)
  {
  }

  lemma RenewingStep(q: CreateLeaseRequest, w: World, step: Step, from: int, failed: set<nat>)
    requires Enabled(w, step) && ClientMoves(step) && w.client.phase.Renewing?
    ensures var w' := Apply(q, w, step);
            && w'.since == w.clock
            && (w'.client.phase.Holding?
                || (w'.client.phase.Connecting? && w'.key == w.key + 1 && |w'.attempts| == |w.attempts| + 1))
            && Mark(q, w, step, from, failed)
               == if w'.client.phase.Connecting? && from < w'.since then failed + {w.key + 1} else failed
  {
  }

  lemma ConnectingPays(w: World, w': World, from: int, failed: set<nat>, announces: bool)
    requires w.since <= w'.since && w.client.phase.Connecting? && Paid(w, from, failed)
    requires if announces then w'.client.phase.Holding? || w'.client.phase.Leaving?
             else w'.client.phase.Stopped? || (w'.client.phase.BackingOff? && w'.attempts == w.attempts)
    ensures Paid(w', from, if announces then failed - {w.key} else failed)
  {
    if announces {
      Refund(failed, w.key, w.since, w'.since, from, PhaseCredit(w), 3000 * NANOS_PER_MILLI);
    }
  }

  lemma ConnectingKeepsPaid(q: CreateLeaseRequest, w: World, step: Step, from: int, failed: set<nat>)
    requires w.since <= w.clock && Paid(w, from, failed) && Enabled(w, step) && ClientMoves(step)
    requires w.client.phase.Connecting?
    ensures Paid(Apply(q, w, step), from, Mark(q, w, step, from, failed))
  {
    ConnectingStep(q, w, step);
    ConnectingPays(w, Apply(q, w, step), from, failed, Announces(w, step));
  }

  lemma BackingOffKeepsPaid(q: CreateLeaseRequest, w: World, step: Step, from: int, failed: set<nat>)
    requires w.since <= w.clock && PausesInv(w) && Paid(w, from, failed) && Enabled(w, step) && ClientMoves(step)
    requires w.client.phase.BackingOff?
    ensures Paid(Apply(q, w, step), from, Mark(q, w, step, from, failed))
  {
    var a := |w.attempts|;
    RetryStep(q, w, step);
    CreditGrows(a);
    if !step.Shutdown? {
      Charge(failed, w.key + 1, w.since, w.clock, from, Credit(a), Credit(a + 1), w.client.reconnectDelay);
    }
  }

  lemma HoldingKeepsPaid(q: CreateLeaseRequest, w: World, step: Step, from: int, failed: set<nat>)
    requires w.since <= w.clock && RatesInv(w) && Paid(w, from, failed) && Enabled(w, step) && ClientMoves(step)
    requires w.client.phase.Holding? || w.client.phase.Leaving?
    ensures Paid(Apply(q, w, step), from, Mark(q, w, step, from, failed))
  {
  }

  lemma RenewingPays(w: World, w': World, from: int, failed: set<nat>)
    requires w.since <= w'.since && w.client.phase.Renewing? && w.attempts == [] && Paid(w, from, failed)
    requires w'.client.phase.Holding?
             || (w'.client.phase.Connecting? && w'.key == w.key + 1 && |w'.attempts| == 1)
    ensures Paid(w', from, if w'.client.phase.Connecting? && from < w'.since then failed + {w.key + 1} else failed)
  {
    if w'.client.phase.Connecting? {
      Charge(failed, w.key + 1, w.since, w'.since, from, 0, Credit(1), 0);
    }
  }

  lemma RenewingKeepsPaid(q: CreateLeaseRequest, w: World, step: Step, from: int, failed: set<nat>)
    requires w.since <= w.clock && w.attempts == [] && Paid(w, from, failed) && Enabled(w, step) && ClientMoves(step)
    requires w.client.phase.Renewing?
    ensures Paid(Apply(q, w, step), from, Mark(q, w, step, from, failed))
  {
    RenewingStep(q, w, step, from, failed);
    RenewingPays(w, Apply(q, w, step), from, failed);
  }

  lemma OthersKeepPaid(q: CreateLeaseRequest, w: World, step: Step, from: int, failed: set<nat>)
    requires Paid(w, from, failed) && Enabled(w, step) && !ClientMoves(step)
    ensures Paid(Apply(q, w, step), from, Mark(q, w, step, from, failed))
  {
  }

  lemma StepKeepsPaid(q: CreateLeaseRequest, w: World, step: Step, from: int, failed: set<nat>)
    requires w.since <= w.clock && PausesInv(w) && RatesInv(w) && Paid(w, from, failed) && Enabled(w, step)
    ensures Paid(Apply(q, w, step), from, Mark(q, w, step, from, failed))
  {
    if !ClientMoves(step) {
      OthersKeepPaid(q, w, step, from, failed);
    } else if w.client.phase.Connecting? {
      ConnectingKeepsPaid(q, w, step, from, failed);
    } else if w.client.phase.BackingOff? {
      BackingOffKeepsPaid(q, w, step, from, failed);
    } else if w.client.phase.Renewing? {
      RenewingKeepsPaid(q, w, step, from, failed);
    } else {
      HoldingKeepsPaid(q, w, step, from, failed);
    }
  }

  /** Every attempt since `from` whose lease, if any, the client does not know has
      failed, or is under way. */
  ghost predicate CoversInv(w: World, births: Births, from: int, failed: set<nat>) {
    && (forall id :: id in births && id !in w.returned && from < births[id].sentAt ==> births[id].key in failed)
    && (forall r :: r in w.requests && r.call.CreateCall? && from < r.sentAt ==> r.key in failed)
    && (w.client.phase.Connecting? && w.reply.Some? && w.reply.value.Accepted? ==>
          w.reply.value.lease.leaseId in births && births[w.reply.value.lease.leaseId].key == w.key)
  }

  lemma ServeKeepsCovers(
    q: CreateLeaseRequest, w: World, step: Step, births: Births, from: int, failed: set<nat>)
    requires Inv(w) && BirthsInv(w, births) && CoversInv(w, births, from, failed)
    requires Enabled(w, step) && step.Serve?
    ensures CoversInv(Apply(q, w, step), Bear(q, w, step, births), from, Mark(q, w, step, from, failed))
  {
    ServeForm(q, w, step);
  }

  lemma OthersKeepCovers(
    q: CreateLeaseRequest, w: World, step: Step, births: Births, from: int, failed: set<nat>)
    requires CoversInv(w, births, from, failed) && Enabled(w, step) && !ClientMoves(step) && !step.Serve?
    ensures CoversInv(Apply(q, w, step), births, from, Mark(q, w, step, from, failed))
  {
  }

  /** A step of the client: it hears of its lease, or makes an attempt, or changes
      nothing that counts here. */
  lemma HearingForm(q: CreateLeaseRequest, w: World, step: Step)
    requires Enabled(w, step) && ClientMoves(step) && Announces(w, step)
    ensures var w' := Apply(q, w, step);
            && !w'.client.phase.Connecting? && NoNewCreation(w, w')
            && w'.returned == w.returned + {w.reply.value.lease.leaseId}
  {
  }

  lemma SilentForm(q: CreateLeaseRequest, w: World, step: Step)
    requires Enabled(w, step) && ClientMoves(step) && !Announces(w, step)
    ensures var w' := Apply(q, w, step);
            && w'.returned == w.returned
            && (w'.client.phase.Connecting? ==> w'.key == w.key + 1 && w'.reply == None)
            && (forall r :: r in w'.requests && r.call.CreateCall? && r !in w.requests ==>
                  w'.client.phase.Connecting? && r.key == w.key + 1)
  {
  }

  lemma HearingKeepsCovers(
    q: CreateLeaseRequest, w: World, step: Step, births: Births, from: int, failed: set<nat>)
    requires CallsInv(w) && BirthsInv(w, births) && CoversInv(w, births, from, failed)
    requires Enabled(w, step) && ClientMoves(step) && Announces(w, step)
    ensures CoversInv(Apply(q, w, step), births, from, Mark(q, w, step, from, failed))
  {
    HearingForm(q, w, step);
    var w' := Apply(q, w, step);
    forall id | id in births && id !in w'.returned && from < births[id].sentAt
      ensures births[id].key in failed - {w.key}
    {
      assert births[id].key != births[w.reply.value.lease.leaseId].key;
    }
  }

  lemma SilentKeepsCovers(
    q: CreateLeaseRequest, w: World, step: Step, births: Births, from: int, failed: set<nat>)
    requires CallsInv(w) && CoversInv(w, births, from, failed)
    requires Enabled(w, step) && ClientMoves(step) && !Announces(w, step)
    requires forall r :: r in Apply(q, w, step).requests ==> r.sentAt <= w.clock
    ensures CoversInv(Apply(q, w, step), births, from, Mark(q, w, step, from, failed))
  {
    SilentForm(q, w, step);
  }

  lemma StepKeepsCovers(
    q: CreateLeaseRequest, w: World, step: Step, births: Births, from: int, failed: set<nat>)
    requires Inv(w) && BirthsInv(w, births) && CoversInv(w, births, from, failed) && Enabled(w, step)
    ensures CoversInv(Apply(q, w, step), Bear(q, w, step, births), from, Mark(q, w, step, from, failed))
  {
    if step.Serve? {
      ServeKeepsCovers(q, w, step, births, from, failed);
    } else if !ClientMoves(step) {
      OthersKeepCovers(q, w, step, births, from, failed);
    } else if Announces(w, step) {
      HearingKeepsCovers(q, w, step, births, from, failed);
    } else {
      StepKeepsInv(q, w, step);
      SilentKeepsCovers(q, w, step, births, from, failed);
    }
  }

  ghost predicate AllInv(w: World, births: Births, delay: nat, from: int, failed: set<nat>) {
    && Inv(w) && PausesInv(w) && RatesInv(w)
    && BirthsInv(w, births) && ExpiryInv(w, births, delay)
    && Paid(w, from, failed) && CoversInv(w, births, from, failed)
  }

  lemma StepKeepsAll(
    q: CreateLeaseRequest, w: World, step: Step, births: Births, delay: nat, from: int, failed: set<nat>)
    requires AllInv(w, births, delay, from, failed) && Enabled(w, step) && Delivered(step, delay)
    ensures AllInv(Apply(q, w, step), Bear(q, w, step, births), delay, from, Mark(q, w, step, from, failed))
  {
    StepKeepsInv(q, w, step);
    StepKeepsPauses(q, w, step);
    StepKeepsRates(q, w, step);
    StepKeepsBirths(q, w, step, births);
    Orphans.StepKeepsExpiry(q, w, step, births, delay);
    StepKeepsPaid(q, w, step, from, failed);
    StepKeepsCovers(q, w, step, births, from, failed);
  }

  lemma {:induction false} RunKeepsAll(
    q: CreateLeaseRequest, w: World, steps: seq<Step>, births: Births, delay: nat, from: int, failed: set<nat>)
    requires AllInv(w, births, delay, from, failed)
    requires IsRun(q, w, steps) && forall s :: s in steps ==> Delivered(s, delay)
    ensures AllInv(End(q, w, steps), BirthsOf(q, w, steps, births), delay, from, FailedOf(q, w, steps, from, failed))
    decreases |steps|
  {
    if steps != [] {
      assert steps[0] in steps && forall s :: s in steps[1..] ==> s in steps;
      StepKeepsAll(q, w, steps[0], births, delay, from, failed);
      RunKeepsAll(q, Apply(q, w, steps[0]), steps[1..], Bear(q, w, steps[0], births), delay, from,
                  Mark(q, w, steps[0], from, failed));
    }
  }

  /** The live leases of the client that it does not know. */
  function Unclaimed(w: World, births: Births): set<LeaseId> {
    if w.server.Down? then {} else set id | id in Prune(w.server.table, w.clock) && id in births && id !in w.returned
  }

  lemma {:induction false} KeysDiffer(w: World, births: Births, ids: set<LeaseId>)
    requires BirthsInv(w, births) && ids <= births.Keys
    ensures |set id | id in ids :: births[id].key| == |ids|
  {
    var keys := set id | id in ids :: births[id].key;
    if ids != {} {
      var id :| id in ids;
      KeysDiffer(w, births, ids - {id});
      var others := set other | other in ids - {id} :: births[other].key;
      assert keys == others + {births[id].key};
    }
  }

  lemma UnclaimedHaveFailed(w: World, births: Births, delay: nat, failed: set<nat>, window: nat, id: LeaseId)
    requires ExpiryInv(w, births, delay) && CoversInv(w, births, w.clock - window, failed)
    requires w.server.Up? && window == w.server.config.leaseTtl + delay && id in Unclaimed(w, births)
    ensures births[id].key in failed
  {
    assert w.server.table[id].expiresAt <= births[id].sentAt + delay + w.server.config.leaseTtl;
  }

  lemma UnclaimedFit(w: World, births: Births, delay: nat, failed: set<nat>, window: nat)
    requires AllInv(w, births, delay, w.clock - window, failed)
    requires w.server.Up? && window == w.server.config.leaseTtl + delay
    ensures |Unclaimed(w, births)| <= FailuresWithin(window)
  {
    var ids := Unclaimed(w, births);
    var keys := set id | id in ids :: births[id].key;
    KeysDiffer(w, births, ids);
    forall id | id in ids
      ensures births[id].key in failed
    {
      UnclaimedHaveFailed(w, births, delay, failed, window, id);
    }
    assert keys <= failed;
    Sets.CardinalityMonotone(keys, failed);
    PaidIsFew(w, failed, window);
  }

  lemma PaidIsFew(w: World, failed: set<nat>, window: nat)
    requires w.since <= w.clock && Paid(w, w.clock - window, failed)
    ensures |failed| <= FailuresWithin(window)
  {
    if failed != {} {
      assert COST * |failed| <= 3 * window + CREDIT;
    }
  }

  /** The client makes its first attempt at the time 0. */
  function AtStart(from: int): set<nat> {
    if from < 0 then {1} else {}
  }

  lemma InitialPaid(server: LeaseProtocol.Server, from: int)
    requires FreshServer(server)
    ensures RatesInv(Initial(server)) && Paid(Initial(server), from, AtStart(from))
  {
  }

  lemma InitialCovers(server: LeaseProtocol.Server, from: int)
    ensures CoversInv(Initial(server), map[], from, AtStart(from))
  {
  }

  lemma InitialAll(server: LeaseProtocol.Server, delay: nat, from: int)
    requires FreshServer(server)
    ensures AllInv(Initial(server), map[], delay, from, AtStart(from))
  {
    InitialBirths(server, delay);
    InitialPaid(server, from);
    InitialCovers(server, from);
  }

  /** Few leases are left if `from` is as long ago as a lease can last. */
  ghost predicate LeavesFew(w: World, births: Births, delay: nat, from: int) {
    w.server.Up? && from == w.clock - (w.server.config.leaseTtl + delay) ==>
      |Unclaimed(w, births)| <= FailuresWithin(w.server.config.leaseTtl + delay)
  }

  lemma InvLeavesFew(w: World, births: Births, delay: nat, from: int, failed: set<nat>)
    requires AllInv(w, births, delay, from, failed)
    ensures LeavesFew(w, births, delay, from)
  {
    if w.server.Up? && from == w.clock - (w.server.config.leaseTtl + delay) {
      UnclaimedFit(w, births, delay, failed, w.server.config.leaseTtl + delay);
    }
  }

  lemma RunLeavesFew(q: CreateLeaseRequest, w: World, steps: seq<Step>, delay: nat, from: int)
    requires IsRun(q, w, steps) && forall s :: s in steps ==> Delivered(s, delay)
    requires AllInv(w, map[], delay, from, AtStart(from))
    ensures LeavesFew(End(q, w, steps), BirthsOf(q, w, steps, map[]), delay, from)
  {
    RunKeepsAll(q, w, steps, map[], delay, from, AtStart(from));
    InvLeavesFew(End(q, w, steps), BirthsOf(q, w, steps, map[]), delay, from, FailedOf(q, w, steps, from, AtStart(from)));
  }

  lemma LeftoversOfRun(q: CreateLeaseRequest, w: World, steps: seq<Step>, delay: nat)
    requires IsRun(q, w, steps) && forall s :: s in steps ==> Delivered(s, delay)
    requires forall from: int :: AllInv(w, map[], delay, from, AtStart(from))
    ensures forall from: int :: LeavesFew(End(q, w, steps), BirthsOf(q, w, steps, map[]), delay, from)
  {
    forall from: int
      ensures LeavesFew(End(q, w, steps), BirthsOf(q, w, steps, map[]), delay, from)
    {
      RunLeavesFew(q, w, steps, delay, from);
    }
  }

  /** In every run, with any alternation of successes, failures, crashes and losses
      in which creations are sampled within a delay: the live leases that the
      client does not know number at most (3 T + 4.7 s) / 1.7 s, where T is one
      lifetime and that delay together. */
  lemma LeftoversAreFew(q: CreateLeaseRequest, server: LeaseProtocol.Server, steps: seq<Step>, delay: nat)
    requires FreshServer(server) && IsRun(q, Initial(server), steps)
    requires forall s :: s in steps ==> Delivered(s, delay)
    ensures var w := End(q, Initial(server), steps);
            w.server.Up? ==>
              |Unclaimed(w, BirthsOf(q, Initial(server), steps, map[]))|
              <= FailuresWithin(w.server.config.leaseTtl + delay)
  {
    forall from: int
      ensures AllInv(Initial(server), map[], delay, from, AtStart(from))
    {
      InitialAll(server, delay, from);
    }
    LeftoversOfRun(q, Initial(server), steps, delay);
    var w := End(q, Initial(server), steps);
    if w.server.Up? {
      assert LeavesFew(w, BirthsOf(q, Initial(server), steps, map[]), delay,
                       w.clock - (w.server.config.leaseTtl + delay));
    }
  }
}
