/** The registration client: connect, create a lease, renew it until a renewal
    fails, then start over, with a growing pause after each failed attempt. */
module Registration {
  import opened Wrappers
  import opened Domain
  import opened Protocol

  const INITIAL_RECONNECT_DELAY: nat := 100 * NANOS_PER_MILLI
  const MAX_RECONNECT_DELAY: nat := 5 * SECOND

  /** A lease as the client holds it: the server it was created at, its
      identifier and the renewal interval from the last response. */
  datatype Held = Held(server: nat, leaseId: LeaseId, renewAfter: nat)

  datatype Phase =
    | Connecting
    | BackingOff
    | Holding(lease: Held)
    | Renewing(lease: Held)
    | Leaving(lease: Held, callbackFailed: bool)
    | Stopped(callbackFailed: bool)

  datatype Client = Client(reconnectDelay: nat, phase: Phase)

  /** What the client does to the outside. `BackOff` is the pause after a failed
      attempt, `Await` the pause before a renewal. A removal is detached when the
      client does not wait for it. */
  datatype Effect =
    | Register
    | BackOff(duration: nat)
    | Await(duration: nat)
    | Announce(lease: Held)
    | Renew(lease: Held)
    | RemoveLease(lease: Held, detached: bool)

  /** What the outside answers at an await point. `shutdown` matters only where
      the client also listens for it; `reply` is a lease response, or none when
      the call failed for whatever reason. */
  datatype Answer = Answer(shutdown: bool, reply: Option<Held>, callbackOk: bool)

  const START := Client(INITIAL_RECONNECT_DELAY, Connecting)

  function Doubled(delay: nat): nat {
    if delay * 2 <= MAX_RECONNECT_DELAY then delay * 2 else MAX_RECONNECT_DELAY
  }

  /** One await point: the next phase, and the effects on the way to it. */
  function Respond(c: Client, a: Answer): (r: (Client, seq<Effect>))
    ensures |r.1| <= 2
  {
    match c.phase
    case Connecting =>
      if a.shutdown then (c.(phase := Stopped(false)), [])
      else if a.reply.None? then (c.(phase := BackingOff), [BackOff(c.reconnectDelay)])
      else
        var lease := a.reply.value;
        if a.callbackOk then
          (Client(INITIAL_RECONNECT_DELAY, Holding(lease)), [Announce(lease), Await(lease.renewAfter)])
        else
          (Client(INITIAL_RECONNECT_DELAY, Leaving(lease, true)), [Announce(lease), RemoveLease(lease, false)])
    case BackingOff =>
      if a.shutdown then (c.(phase := Stopped(false)), [])
      else (Client(Doubled(c.reconnectDelay), Connecting), [Register])
    case Holding(lease) =>
      if a.shutdown then (c.(phase := Leaving(lease, false)), [RemoveLease(lease, false)])
      else (c.(phase := Renewing(lease)), [Renew(lease)])
    case Renewing(lease) =>
      if a.reply.Some? then
        var renewed := a.reply.value.(server := lease.server);
        (c.(phase := Holding(renewed)), [Await(renewed.renewAfter)])
      else (c.(phase := Connecting), [RemoveLease(lease, true), Register])
    case Leaving(_, callbackFailed) => (c.(phase := Stopped(callbackFailed)), [])
    case Stopped(_) => (c, [])
  }

  function Follow(c: Client, script: seq<Answer>): (r: (Client, seq<Effect>))
    decreases |script|
  {
    if script == [] then (c, [])
    else
      var (next, effects) := Respond(c, script[0]);
      var (last, more) := Follow(next, script[1..]);
      (last, effects + more)
  }

  /** The client itself, run against a script of answers and cut off when the
      script ends. Its effects and where it stands are what the phases say. */
  method RegisterUntilShutdown(script: seq<Answer>) returns (client: Client, log: seq<Effect>)
    ensures client == Follow(START, script).0
    ensures log == [Register] + Follow(START, script).1
  {
    ghost var last := Follow(START, script).0;
    ghost var all := [Register] + Follow(START, script).1;
    var reconnectDelay: nat := INITIAL_RECONNECT_DELAY;
    var i := 0;
    log := [Register];
    assert script[0..] == script;
    while true
      invariant i <= |script|
      invariant Remaining(Client(reconnectDelay, Connecting), script[i..], log, last, all)
      decreases |script| - i
    {
      if i == |script| {
        return Client(reconnectDelay, Connecting), log;
      }
      Advance(Client(reconnectDelay, Connecting), script, i, log, last, all);
      var a := script[i];
      i := i + 1;
      if a.shutdown {
        Finished(Client(reconnectDelay, Stopped(false)), script[i..], log, last, all);
        return Client(reconnectDelay, Stopped(false)), log;
      }
      if a.reply.None? {
        log := log + [BackOff(reconnectDelay)];
        if i == |script| {
          return Client(reconnectDelay, BackingOff), log;
        }
        Advance(Client(reconnectDelay, BackingOff), script, i, log, last, all);
        var woken := script[i];
        i := i + 1;
        if woken.shutdown {
          Finished(Client(reconnectDelay, Stopped(false)), script[i..], log, last, all);
          return Client(reconnectDelay, Stopped(false)), log;
        }
        reconnectDelay := if reconnectDelay * 2 <= MAX_RECONNECT_DELAY then reconnectDelay * 2 else MAX_RECONNECT_DELAY;
        log := log + [Register];
        continue;
      }
      reconnectDelay := INITIAL_RECONNECT_DELAY;
      var lease := a.reply.value;
      if !a.callbackOk {
        log := log + [Announce(lease), RemoveLease(lease, false)];
        if i == |script| {
          return Client(reconnectDelay, Leaving(lease, true)), log;
        }
        Advance(Client(reconnectDelay, Leaving(lease, true)), script, i, log, last, all);
        i := i + 1;
        Finished(Client(reconnectDelay, Stopped(true)), script[i..], log, last, all);
        return Client(reconnectDelay, Stopped(true)), log;
      }
      log := log + [Announce(lease), Await(lease.renewAfter)];
      while true
        invariant i <= |script|
        invariant Remaining(Client(reconnectDelay, Holding(lease)), script[i..], log, last, all)
        decreases |script| - i
      {
        if i == |script| {
          return Client(reconnectDelay, Holding(lease)), log;
        }
        Advance(Client(reconnectDelay, Holding(lease)), script, i, log, last, all);
        var woken := script[i];
        i := i + 1;
        if woken.shutdown {
          log := log + [RemoveLease(lease, false)];
          if i == |script| {
            return Client(reconnectDelay, Leaving(lease, false)), log;
          }
          Advance(Client(reconnectDelay, Leaving(lease, false)), script, i, log, last, all);
          i := i + 1;
          Finished(Client(reconnectDelay, Stopped(false)), script[i..], log, last, all);
          return Client(reconnectDelay, Stopped(false)), log;
        }
        log := log + [Renew(lease)];
        if i == |script| {
          return Client(reconnectDelay, Renewing(lease)), log;
        }
        Advance(Client(reconnectDelay, Renewing(lease)), script, i, log, last, all);
        var answer := script[i];
        i := i + 1;
        if answer.reply.None? {
          log := log + [RemoveLease(lease, true), Register];
          break;
        }
        lease := answer.reply.value.(server := lease.server);
        log := log + [Await(lease.renewAfter)];
      }
    }
  }

  /** The rest of the script, followed from here, gives the rest of the log. */
  ghost predicate Remaining(c: Client, rest: seq<Answer>, log: seq<Effect>, last: Client, all: seq<Effect>) {
    Follow(c, rest).0 == last && log + Follow(c, rest).1 == all
  }

  lemma Advance(c: Client, script: seq<Answer>, i: nat, log: seq<Effect>, last: Client, all: seq<Effect>)
    requires i < |script| && Remaining(c, script[i..], log, last, all)
    ensures Remaining(Respond(c, script[i]).0, script[i + 1..], log + Respond(c, script[i]).1, last, all)
    ensures i + 1 == |script| ==>
              Respond(c, script[i]).0 == last && log + Respond(c, script[i]).1 == all
    ensures log + [] == log
  {
  }

  lemma {:induction false} Finished(c: Client, rest: seq<Answer>, log: seq<Effect>, last: Client, all: seq<Effect>)
    requires c.phase.Stopped? && Remaining(c, rest, log, last, all)
    ensures c == last && log == all
    decreases |rest|
  {
    if rest != [] {
      assert [] + Follow(c, rest[1..]).1 == Follow(c, rest[1..]).1;
      Finished(c, rest[1..], log, last, all);
    }
  }

  function Pow2(k: nat): nat {
    if k == 0 then 1 else 2 * Pow2(k - 1)
  }

  /** The pause after a failed attempt that `k` failed attempts precede. */
  function DelayAfter(k: nat): nat {
    if INITIAL_RECONNECT_DELAY * Pow2(k) <= MAX_RECONNECT_DELAY then INITIAL_RECONNECT_DELAY * Pow2(k)
    else MAX_RECONNECT_DELAY
  }

  /** How many failed attempts a log ends with since the last registration. */
  function Failures(log: seq<Effect>): nat {
    if log == [] then 0
    else
      match log[|log| - 1]
      case Announce(_) => 0
      case BackOff(_) => 1 + Failures(log[..|log| - 1])
      case _ => Failures(log[..|log| - 1])
  }

  ghost predicate DelaysAreClosedForm(log: seq<Effect>) {
    forall j :: 0 <= j < |log| && log[j].BackOff? ==> log[j].duration == DelayAfter(Failures(log[..j]))
  }

  lemma FailuresAfter(log: seq<Effect>, e: Effect)
    ensures Failures(log + [e]) ==
              match e case Announce(_) => 0 case BackOff(_) => 1 + Failures(log) case _ => Failures(log)
  {
    assert (log + [e])[..|log|] == log;
  }

  lemma ClosedFormAfter(log: seq<Effect>, e: Effect)
    requires DelaysAreClosedForm(log)
    requires e.BackOff? ==> e.duration == DelayAfter(Failures(log))
    ensures DelaysAreClosedForm(log + [e])
  {
    var longer := log + [e];
    forall j | 0 <= j < |longer| && longer[j].BackOff?
      ensures longer[j].duration == DelayAfter(Failures(longer[..j]))
    {
      assert longer[..j] == log[..j];
      assert j == |log| ==> log[..j] == log;
    }
  }

  /** Doubling up to the limit is the closed form. */
  lemma DoublingIsClosedForm(k: nat)
    ensures Doubled(DelayAfter(k)) == DelayAfter(k + 1)
    ensures DelayAfter(k) <= DelayAfter(k + 1) <= MAX_RECONNECT_DELAY
  {
  }

  /** The delay that the client remembers, from the log so far. */
  ghost predicate DelayMatches(c: Client, log: seq<Effect>) {
    && DelaysAreClosedForm(log)
    && match c.phase
       case BackingOff => 0 < Failures(log) && c.reconnectDelay == DelayAfter(Failures(log) - 1)
       case Leaving(_, _) => true
       case Stopped(_) => true
       case _ => c.reconnectDelay == DelayAfter(Failures(log))
  }

  /** One or two effects, added one by one. */
  lemma EffectsKeepClosedForm(log: seq<Effect>, effects: seq<Effect>)
    requires DelaysAreClosedForm(log) && |effects| <= 2
    requires |effects| > 0 && effects[0].BackOff? ==> effects[0].duration == DelayAfter(Failures(log))
    requires |effects| == 2 ==> !effects[1].BackOff?
    ensures DelaysAreClosedForm(log + effects)
    ensures Failures(log + effects) ==
              if |effects| == 0 then Failures(log)
              else if |effects| == 1 then Failures(log + [effects[0]])
              else if effects[1].Announce? then 0 else Failures(log + [effects[0]])
  {
    if |effects| == 0 {
      assert log + effects == log;
    } else {
      var longer := log + [effects[0]];
      ClosedFormAfter(log, effects[0]);
      if |effects| == 1 {
        assert log + effects == longer;
      } else {
        ClosedFormAfter(longer, effects[1]);
        FailuresAfter(longer, effects[1]);
        assert log + effects == longer + [effects[1]];
      }
    }
  }

  lemma ConnectingKeepsDelay(c: Client, log: seq<Effect>, a: Answer)
    requires DelayMatches(c, log) && c.phase.Connecting?
    ensures DelayMatches(Respond(c, a).0, log + Respond(c, a).1)
  {
    var effects := Respond(c, a).1;
    EffectsKeepClosedForm(log, effects);
    if |effects| > 0 {
      FailuresAfter(log, effects[0]);
    }
  }

  lemma BackingOffKeepsDelay(c: Client, log: seq<Effect>, a: Answer)
    requires DelayMatches(c, log) && c.phase.BackingOff?
    ensures DelayMatches(Respond(c, a).0, log + Respond(c, a).1)
  {
    EffectsKeepClosedForm(log, Respond(c, a).1);
    FailuresAfter(log, Register);
    DoublingIsClosedForm(Failures(log) - 1);
  }

  lemma LeaseKeepsDelay(c: Client, log: seq<Effect>, a: Answer)
    requires DelayMatches(c, log) && !c.phase.Connecting? && !c.phase.BackingOff?
    ensures DelayMatches(Respond(c, a).0, log + Respond(c, a).1)
  {
    var effects := Respond(c, a).1;
    EffectsKeepClosedForm(log, effects);
    if |effects| > 0 {
      FailuresAfter(log, effects[0]);
    }
  }

  lemma RespondKeepsDelay(c: Client, log: seq<Effect>, a: Answer)
    requires DelayMatches(c, log)
    ensures DelayMatches(Respond(c, a).0, log + Respond(c, a).1)
  {
    if c.phase.Connecting? {
      ConnectingKeepsDelay(c, log, a);
    } else if c.phase.BackingOff? {
      BackingOffKeepsDelay(c, log, a);
    } else {
      LeaseKeepsDelay(c, log, a);
    }
  }

  /** The log after one answer, and after the rest of the script. */
  lemma LogsJoin(c: Client, log: seq<Effect>, script: seq<Answer>)
    ensures script == [] ==> log + Follow(c, script).1 == log
    ensures script != [] ==>
              var (next, effects) := Respond(c, script[0]);
              && Follow(c, script).0 == Follow(next, script[1..]).0
              && log + Follow(c, script).1 == log + effects + Follow(next, script[1..]).1
  {
  }

  lemma {:induction false} FollowKeepsDelay(c: Client, log: seq<Effect>, script: seq<Answer>)
    requires DelayMatches(c, log)
    ensures DelayMatches(Follow(c, script).0, log + Follow(c, script).1)
    decreases |script|
  {
    LogsJoin(c, log, script);
    if script != [] {
      RespondKeepsDelay(c, log, script[0]);
      var (next, effects) := Respond(c, script[0]);
      FollowKeepsDelay(next, log + effects, script[1..]);
    }
  }

  /** In every run, each pause after a failed attempt is 100 ms doubled once for
      every failure since the last registration, and at most 5 s. */
  lemma BackoffClosedForm(script: seq<Answer>)
    ensures DelaysAreClosedForm([Register] + Follow(START, script).1)
  {
    FailuresAfter([], Register);
    assert [] + [Register] == [Register];
    FollowKeepsDelay(START, [Register], script);
  }

  function AnnouncedIds(log: seq<Effect>): set<LeaseId> {
    set e | e in log && e.Announce? :: e.lease.leaseId
  }

  function RemovalStarted(log: seq<Effect>): set<LeaseId> {
    set e | e in log && e.RemoveLease? :: e.lease.leaseId
  }

  /** The lease the client keeps alive, if any. */
  function Current(c: Client): Option<Held> {
    match c.phase
    case Holding(lease) => Some(lease)
    case Renewing(lease) => Some(lease)
    case _ => None
  }

  /** A response to a renewal names the lease that was renewed. */
  predicate Echoes(c: Client, a: Answer) {
    c.phase.Renewing? && a.reply.Some? ==> a.reply.value.leaseId == c.phase.lease.leaseId
  }

  predicate AllEcho(c: Client, script: seq<Answer>)
    decreases |script|
  {
    script == [] || (Echoes(c, script[0]) && AllEcho(Respond(c, script[0]).0, script[1..]))
  }

  ghost predicate Owned(c: Client, log: seq<Effect>) {
    forall id :: id in AnnouncedIds(log) ==>
      id in RemovalStarted(log) || (Current(c).Some? && Current(c).value.leaseId == id)
  }

  lemma IdsOfConcat(a: seq<Effect>, b: seq<Effect>)
    ensures AnnouncedIds(a + b) == AnnouncedIds(a) + AnnouncedIds(b)
    ensures RemovalStarted(a + b) == RemovalStarted(a) + RemovalStarted(b)
  {
  }

  lemma RespondKeepsOwnership(c: Client, log: seq<Effect>, a: Answer)
    requires Owned(c, log) && Echoes(c, a)
    ensures Owned(Respond(c, a).0, log + Respond(c, a).1)
  {
    var (next, effects) := Respond(c, a);
    IdsOfConcat(log, effects);
    assert |effects| > 0 ==> effects[0] in effects;
    assert |effects| > 1 ==> effects[1] in effects;
    assert forall e :: e in effects ==> e == effects[0] || e == effects[|effects| - 1];
    if Current(c).Some? {
      assert Current(next).Some? || Current(c).value.leaseId in RemovalStarted(effects);
    }
  }

  lemma {:induction false} FollowKeepsOwnership(c: Client, log: seq<Effect>, script: seq<Answer>)
    requires Owned(c, log) && AllEcho(c, script)
    ensures Owned(Follow(c, script).0, log + Follow(c, script).1)
    decreases |script|
  {
    if script == [] {
      assert log + [] == log;
    } else {
      var (next, effects) := Respond(c, script[0]);
      var longer := log + effects;
      RespondKeepsOwnership(c, log, script[0]);
      FollowKeepsOwnership(next, longer, script[1..]);
      assert longer + Follow(next, script[1..]).1 == log + Follow(c, script).1;
    }
  }

  /** Every lease that was ever returned to the client is the one it keeps alive,
      or its removal has been started: on shutdown, after a failed callback and
      after a failed renewal alike. */
  lemma NoLeaseIsForgotten(script: seq<Answer>)
    requires AllEcho(START, script)
    ensures Owned(Follow(START, script).0, [Register] + Follow(START, script).1)
  {
    FollowKeepsOwnership(START, [Register], script);
  }
}
