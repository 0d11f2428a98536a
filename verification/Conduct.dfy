/** What the client does, read off its log: which effect follows which, for how
    long it waits, which lease each call names, and which answers lead where. The
    phases of the client play no part here but for how it ends. */
module Conduct {
  import opened Wrappers
  import opened Registration
  import LeaseProtocol
  import Domain

  /** The log that `RegisterUntilShutdown` returns, and the client. */
  function Log(script: seq<Answer>): (log: seq<Effect>)
    ensures |log| > 0
  {
    [Register] + Follow(START, script).1
  }

  function ClientAfter(script: seq<Answer>): Client {
    Follow(START, script).0
  }

  function Last(log: seq<Effect>): Effect
    requires |log| > 0
  {
    log[|log| - 1]
  }

  /** Which effect may come after which. The wait before a call lasts the interval
      of the lease that the call is about. */
  predicate MayFollow(e: Effect, f: Effect) {
    match e
    case Register => f.BackOff? || f.Announce?
    case BackOff(_) => f == Register
    case Announce(lease) => f == Await(lease.renewAfter) || f == RemoveLease(lease, false)
    case Await(duration) =>
      (f.Renew? || (f.RemoveLease? && !f.detached)) && f.lease.renewAfter == duration
    case Renew(lease) => f.Await? || f == RemoveLease(lease, true)
    case RemoveLease(_, detached) => detached && f == Register
  }

  /** What the effect after a wait is about: the lease announced before the wait, or
      the one renewed, at the server that created it. */
  predicate IsSameLease(e: Effect, g: Effect) {
    match e
    case Announce(lease) => (g.Renew? || g.RemoveLease?) && g.lease == lease
    case Renew(lease) => (g.Renew? || g.RemoveLease?) && g.lease.server == lease.server
    case _ => true
  }

  ghost predicate IsOrderly(log: seq<Effect>) {
    && |log| > 0 && log[0] == Register
    && (forall i :: 0 <= i < |log| - 1 ==> MayFollow(log[i], log[i + 1]))
    && (forall i :: 0 <= i < |log| - 2 && log[i + 1].Await? ==> IsSameLease(log[i], log[i + 2]))
  }

  /** Where the client stands by its log. */
  ghost predicate Fits(c: Client, log: seq<Effect>) {
    && IsOrderly(log)
    && match c.phase
       case Connecting => Last(log) == Register
       case BackingOff => Last(log) == BackOff(c.reconnectDelay)
       case Holding(lease) =>
         && |log| > 1 && Last(log) == Await(lease.renewAfter)
         && (log[|log| - 2] == Announce(lease)
             || (log[|log| - 2].Renew? && log[|log| - 2].lease.server == lease.server))
       case Renewing(lease) => Last(log) == Renew(lease)
       case Leaving(lease, callbackFailed) => Last(log) == RemoveLease(lease, false) && Ends(log, callbackFailed)
       case Stopped(callbackFailed) =>
         && Ends(log, callbackFailed)
         && (Last(log) == Register || Last(log).BackOff? || (Last(log).RemoveLease? && !Last(log).detached))
  }

  /** The client ends with an error exactly if it gave a lease back right after its
      announcement. */
  predicate Ends(log: seq<Effect>, callbackFailed: bool) {
    callbackFailed <==> |log| > 1 && log[|log| - 2].Announce? && log[|log| - 1].RemoveLease?
  }

  lemma OrderlyAfter(log: seq<Effect>, e: Effect)
    requires IsOrderly(log) && MayFollow(Last(log), e)
    requires |log| > 1 && Last(log).Await? ==> IsSameLease(log[|log| - 2], e)
    ensures IsOrderly(log + [e])
  {
    var longer := log + [e];
    forall i | 0 <= i < |longer| - 1
      ensures MayFollow(longer[i], longer[i + 1])
    {
      assert i < |log| - 1 ==> MayFollow(log[i], log[i + 1]);
    }
    forall i | 0 <= i < |longer| - 2 && longer[i + 1].Await?
      ensures IsSameLease(longer[i], longer[i + 2])
    {
      assert i < |log| - 2 ==> IsSameLease(log[i], log[i + 2]);
    }
  }

  lemma RespondFits(c: Client, log: seq<Effect>, a: Answer)
    requires Fits(c, log)
    ensures Fits(Respond(c, a).0, log + Respond(c, a).1)
  {
    var effects := Respond(c, a).1;
    if |effects| == 0 {
      assert log + effects == log;
    } else {
      OrderlyAfter(log, effects[0]);
      if |effects| == 1 {
        assert log + effects == log + [effects[0]];
      } else {
        OrderlyAfter(log + [effects[0]], effects[1]);
        assert log + effects == log + [effects[0]] + [effects[1]];
      }
    }
  }

  lemma {:induction false} FollowAppends(c: Client, script: seq<Answer>, a: Answer)
    ensures var (now, effects) := Follow(c, script);
            Follow(c, script + [a]) == (Respond(now, a).0, effects + Respond(now, a).1)
    decreases |script|
  {
    if script == [] {
      assert [a][1..] == [];
      assert Follow(Respond(c, a).0, []) == (Respond(c, a).0, []);
      assert [] + Respond(c, a).1 == Respond(c, a).1 + [];
    } else {
      assert (script + [a])[1..] == script[1..] + [a] && (script + [a])[0] == script[0];
      var (next, first) := Respond(c, script[0]);
      var (now, rest) := Follow(next, script[1..]);
      FollowAppends(next, script[1..], a);
      assert first + (rest + Respond(now, a).1) == first + rest + Respond(now, a).1;
    }
  }

  lemma LogAppends(script: seq<Answer>, a: Answer)
    ensures ClientAfter(script + [a]) == Respond(ClientAfter(script), a).0
    ensures Log(script + [a]) == Log(script) + Respond(ClientAfter(script), a).1
  {
    FollowAppends(START, script, a);
  }

  lemma {:induction false} LogFits(script: seq<Answer>)
    ensures Fits(ClientAfter(script), Log(script))
    decreases |script|
  {
    if script != [] {
      var n := |script| - 1;
      LogFits(script[..n]);
      RespondFits(ClientAfter(script[..n]), Log(script[..n]), script[n]);
      LogAppends(script[..n], script[n]);
      assert script[..n] + [script[n]] == script;
    }
  }

  /** In every run: each wait before a renewal lasts the interval of the lease that
      is renewed or given back after it, each call names the lease announced or
      renewed before it, a failed renewal starts the removal of the same lease, and
      nothing follows a removal that the client waits for. */
  lemma LogIsOrderly(script: seq<Answer>)
    ensures IsOrderly(Log(script))
  {
    LogFits(script);
  }

  /** When the client waits for its next renewal, the answer it got last is a lease
      response, and the wait is the interval of that response. */
  lemma {:induction false} WaitIsTheAnswersInterval(script: seq<Answer>)
    requires Last(Log(script)).Await?
    ensures script != [] && script[|script| - 1].reply.Some?
    ensures var heard := script[|script| - 1].reply.value;
            && Last(Log(script)) == Await(heard.renewAfter)
            && ClientAfter(script).phase.Holding?
            && ClientAfter(script).phase.lease.leaseId == heard.leaseId
            && ClientAfter(script).phase.lease.renewAfter == heard.renewAfter
  {
    if script != [] {
      var n := |script| - 1;
      LogFits(script[..n]);
      LogAppends(script[..n], script[n]);
      assert script[..n] + [script[n]] == script;
    }
  }

  /** What each answer leads to, from what the client did last. */
  ghost predicate ActsOn(log: seq<Effect>, heard: Option<Held>, a: Answer, next: seq<Effect>) {
    && |log| > 0 && |next| > 0
    && match Last(log)
       case Register =>
         if a.shutdown then next == log
         else if a.reply.None? then next == log + [Last(next)] && Last(next).BackOff?
         else
           next == log + [Announce(a.reply.value),
                          if a.callbackOk then Await(a.reply.value.renewAfter)
                          else RemoveLease(a.reply.value, false)]
       case BackOff(_) => next == if a.shutdown then log else log + [Register]
       case Await(_) =>
         && heard.Some? && |next| == |log| + 1 && next[..|log|] == log
         && (if a.shutdown then Last(next).RemoveLease? && !Last(next).detached else Last(next).Renew?)
         && Last(next).lease.leaseId == heard.value.leaseId
       case Renew(lease) =>
         next == log + if a.reply.Some? then [Await(a.reply.value.renewAfter)]
                       else [RemoveLease(lease, true), Register]
       case _ => false
  }

  /** In every run, a client that has not begun to leave acts on each answer as it
      should, and one that has does nothing more. */
  lemma EachAnswerIsActedOn(script: seq<Answer>, a: Answer)
    ensures var c := ClientAfter(script);
            if c.phase.Leaving? || c.phase.Stopped? then
              Log(script + [a]) == Log(script) && ClientAfter(script + [a]).phase.Stopped?
            else
              ActsOn(Log(script), if script == [] then None else script[|script| - 1].reply, a, Log(script + [a]))
              && (ClientAfter(script + [a]).phase.Stopped? <==>
                    a.shutdown && (Last(Log(script)) == Register || Last(Log(script)).BackOff?))
  {
    LogFits(script);
    LogAppends(script, a);
    if Last(Log(script)).Await? {
      WaitIsTheAnswersInterval(script);
    }
  }

  /** The client's result: an error exactly if it gave a lease back because its
      announcement failed. */
  lemma ResultIsTheCallbacks(script: seq<Answer>)
    ensures var phase := ClientAfter(script).phase;
            && (phase.Stopped? ==> Ends(Log(script), phase.callbackFailed))
            && (phase.Leaving? ==>
                  Ends(Log(script), phase.callbackFailed) && Last(Log(script)) == RemoveLease(phase.lease, false))
  {
    LogFits(script);
  }

  /** The log of the client in a run of the lease protocol. */
  function LogOf(q: Domain.CreateLeaseRequest, w: LeaseProtocol.World, steps: seq<LeaseProtocol.Step>, log: seq<Effect>)
    : seq<Effect>
    requires LeaseProtocol.IsRun(q, w, steps)
    decreases |steps|
  {
    if steps == [] then log
    else
      var more :=
        if LeaseProtocol.ClientMoves(steps[0]) then Respond(w.client, LeaseProtocol.AnswerTo(w, steps[0])).1 else [];
      LogOf(q, LeaseProtocol.Apply(q, w, steps[0]), steps[1..], log + more)
  }

  lemma StepFits(q: Domain.CreateLeaseRequest, w: LeaseProtocol.World, step: LeaseProtocol.Step, log: seq<Effect>)
    requires LeaseProtocol.Enabled(w, step) && Fits(w.client, log)
    ensures LeaseProtocol.ClientMoves(step) ==>
              Fits(LeaseProtocol.Apply(q, w, step).client, log + Respond(w.client, LeaseProtocol.AnswerTo(w, step)).1)
    ensures !LeaseProtocol.ClientMoves(step) ==>
              LeaseProtocol.Apply(q, w, step).client == w.client && log + [] == log
  {
    if LeaseProtocol.ClientMoves(step) {
      RespondFits(w.client, log, LeaseProtocol.AnswerTo(w, step));
      ClientReacts(q, w, step);
    }
  }

  lemma ClientReacts(q: Domain.CreateLeaseRequest, w: LeaseProtocol.World, step: LeaseProtocol.Step)
    requires LeaseProtocol.Enabled(w, step) && LeaseProtocol.ClientMoves(step)
    ensures LeaseProtocol.Apply(q, w, step).client == Respond(w.client, LeaseProtocol.AnswerTo(w, step)).0
  {
  }

  lemma {:induction false} RunFits(
    q: Domain.CreateLeaseRequest, w: LeaseProtocol.World, steps: seq<LeaseProtocol.Step>, log: seq<Effect>)
    requires LeaseProtocol.IsRun(q, w, steps) && Fits(w.client, log)
    ensures Fits(LeaseProtocol.End(q, w, steps).client, LogOf(q, w, steps, log))
    decreases |steps|
  {
    if steps != [] {
      StepFits(q, w, steps[0], log);
      var more :=
        if LeaseProtocol.ClientMoves(steps[0]) then Respond(w.client, LeaseProtocol.AnswerTo(w, steps[0])).1 else [];
      RunFits(q, LeaseProtocol.Apply(q, w, steps[0]), steps[1..], log + more);
    }
  }

  /** In every run of the lease protocol the log is orderly, and the timer that the
      client sleeps on goes off exactly as long after it began to wait as the last
      pause in its log says. */
  lemma TimerIsTheLoggedPause(
    q: Domain.CreateLeaseRequest, server: LeaseProtocol.Server, steps: seq<LeaseProtocol.Step>)
    requires LeaseProtocol.IsRun(q, LeaseProtocol.Initial(server), steps)
    ensures var w, log := LeaseProtocol.End(q, LeaseProtocol.Initial(server), steps),
                          LogOf(q, LeaseProtocol.Initial(server), steps, [Register]);
            && IsOrderly(log)
            && (w.client.phase.Holding? ==>
                  Last(log).Await? && LeaseProtocol.WakeTime(w) == w.since + Last(log).duration)
            && (w.client.phase.BackingOff? ==>
                  Last(log).BackOff? && LeaseProtocol.WakeTime(w) == w.since + Last(log).duration)
  {
    RunFits(q, LeaseProtocol.Initial(server), steps, [Register]);
  }
}
