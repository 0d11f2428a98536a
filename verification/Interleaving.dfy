/** Concurrent registry operations. Each one reads the clock first and gets the
    lock later, so between the two any number of others may execute, with newer
    readings. A world steps through arbitrary interleavings of the two halves. */
module Interleaving {
  import opened Domain
  import opened Protocol
  import opened Leases
  import opened History
  import opened Remains

  /** An operation that has read the clock and waits for the lock. A removal
      reads no clock. */
  datatype Task =
    | Creating(request: CreateLeaseRequest, sample: nat)
    | Renewing(id: LeaseId, sample: nat)
    | Removing(id: LeaseId)

  datatype World = World(clock: nat, table: Table, pending: map<nat, Task>, history: seq<Event>)

  datatype Step =
    | Tick(elapsed: nat)
    | Begin(key: nat, task: Task)
    | Execute(key: nat, newId: LeaseId)

  const START := World(0, map[], map[], [])

  predicate Enabled(c: Config, w: World, step: Step) {
    match step
    case Tick(_) => true
    case Begin(key, task) =>
      && key !in w.pending
      && (task.Removing? || task.sample == w.clock)
      && (task.Creating? ==> Allowed(c, task.request))
    case Execute(key, _) => key in w.pending
  }

  /** What the table becomes, and the event to record, when a task gets the
      lock. */
  function Effect(c: Config, table: Table, task: Task, newId: LeaseId): (Table, seq<Event>) {
    match task
    case Creating(request, sample) =>
      var (table', r) := Create(c, table, request, sample, newId);
      (table', CreateEvent(request, sample, r))
    case Renewing(id, sample) =>
      var (table', r) := Renew(c, table, id, sample);
      (table', RenewEvent(id, sample, r))
    case Removing(id) =>
      var (table', r) := Remove(table, id);
      (table', RemoveEvent(id, r))
  }

  function Apply(c: Config, w: World, step: Step): World
    requires Enabled(c, w, step)
  {
    match step
    case Tick(elapsed) => w.(clock := w.clock + elapsed)
    case Begin(key, task) => w.(pending := w.pending[key := task])
    case Execute(key, newId) =>
      var (table', added) := Effect(c, w.table, w.pending[key], newId);
      w.(table := table', pending := w.pending - {key}, history := w.history + added)
  }

  /** Each step is possible where the previous ones lead. */
  predicate IsRun(c: Config, w: World, steps: seq<Step>)
    decreases |steps|
  {
    steps == [] || (Enabled(c, w, steps[0]) && IsRun(c, Apply(c, w, steps[0]), steps[1..]))
  }

  function End(c: Config, w: World, steps: seq<Step>): World
    requires IsRun(c, w, steps)
    decreases |steps|
  {
    if steps == [] then w else End(c, Apply(c, w, steps[0]), steps[1..])
  }

  ghost predicate Inv(c: Config, w: World) {
    && |w.table| <= c.maxTargets
    && Explains(w.history, c.leaseTtl, w.table)
    && Stores(w.history, c.leaseTtl, w.table)
    && LatestSample(w.history) <= w.clock
    && (forall key :: key in w.pending && !w.pending[key].Removing? ==> w.pending[key].sample <= w.clock)
  }

  lemma EffectKeepsSize(c: Config, table: Table, task: Task, newId: LeaseId)
    requires |table| <= c.maxTargets
    ensures |Effect(c, table, task, newId).0| <= c.maxTargets
  {
    match task
    case Creating(request, sample) => CreateKeepsSize(c, table, request, sample, newId);
    case Renewing(id, sample) => RenewKeepsSize(c, table, id, sample);
    case Removing(id) => RemoveKeepsSize(c, table, id);
  }

  lemma EffectIsExplained(c: Config, h: seq<Event>, table: Table, task: Task, newId: LeaseId)
    requires Explains(h, c.leaseTtl, table)
    ensures var (table', added) := Effect(c, table, task, newId);
            Explains(h + added, c.leaseTtl, table')
  {
    match task
    case Creating(request, sample) => CreateExplained(c, h, table, request, sample, newId);
    case Renewing(id, sample) => RenewExplained(c, h, table, id, sample);
    case Removing(id) => RemoveExplained(h, c.leaseTtl, table, id);
  }

  lemma EffectStores(c: Config, h: seq<Event>, table: Table, task: Task, newId: LeaseId)
    requires Stores(h, c.leaseTtl, table)
    ensures var (table', added) := Effect(c, table, task, newId);
            Stores(h + added, c.leaseTtl, table')
  {
    match task
    case Creating(request, sample) => CreateStores(c, h, table, request, sample, newId);
    case Renewing(id, sample) => RenewStores(c, h, table, id, sample);
    case Removing(id) => RemoveStores(h, c.leaseTtl, table, id);
  }

  lemma EffectSamples(c: Config, h: seq<Event>, table: Table, task: Task, newId: LeaseId, clock: nat)
    requires LatestSample(h) <= clock && (task.Removing? || task.sample <= clock)
    ensures LatestSample(h + Effect(c, table, task, newId).1) <= clock
  {
    var added := Effect(c, table, task, newId).1;
    if added == [] {
      assert h + added == h;
    } else {
      assert added == [added[0]];
      Append(h, added[0], 0);
    }
  }

  /** What holds in every world that any interleaving reaches. */
  lemma {:induction false} RunsKeepInv(c: Config, w: World, steps: seq<Step>)
    requires Inv(c, w) && IsRun(c, w, steps)
    ensures Inv(c, End(c, w, steps))
    decreases |steps|
  {
    if steps != [] {
      if steps[0].Execute? {
        var task := w.pending[steps[0].key];
        EffectKeepsSize(c, w.table, task, steps[0].newId);
        EffectIsExplained(c, w.history, w.table, task, steps[0].newId);
        EffectStores(c, w.history, w.table, task, steps[0].newId);
        EffectSamples(c, w.history, w.table, task, steps[0].newId, w.clock);
      }
      RunsKeepInv(c, Apply(c, w, steps[0]), steps[1..]);
    }
  }

  /** In every run: the table stays within its limit, and a stored lease expires
      exactly one lifetime after the clock reading of the last creation or
      renewal of it that executed, so at most one lifetime from now. */
  lemma StoredExpiryIsExact(c: Config, steps: seq<Step>, id: LeaseId)
    requires IsRun(c, START, steps)
    ensures |End(c, START, steps).table| <= c.maxTargets
    ensures id in End(c, START, steps).table ==>
              var w := End(c, START, steps);
              && LastGrant(w.history, id).Some?
              && w.table[id].expiresAt == LastGrant(w.history, id).value.at + c.leaseTtl
              && w.table[id].expiresAt <= w.clock + c.leaseTtl
  {
    RunsKeepInv(c, START, steps);
    GrantsComeFromCreations(End(c, START, steps).history, id);
  }

  /** A lease that is not expired at the real clock leaves the table only through
      a removal that names it, however old the clock readings are. */
  lemma OnlyRemovalDropsLive(c: Config, w: World, step: Step, id: LeaseId)
    requires Inv(c, w) && Enabled(c, w, step)
    requires id in w.table && w.table[id].expiresAt > w.clock
    ensures id !in Apply(c, w, step).table
       <==> step.Execute? && w.pending[step.key] == Removing(id)
  {
  }

  /** In every run, a removal answers with success exactly if the lease was created
      or renewed, not removed since, and no creation or renewal of any lease has
      executed since with a clock reading at or after its expiry. */
  lemma RemovalFindsWhatRemains(c: Config, steps: seq<Step>, step: Step)
    requires IsRun(c, START, steps) && Enabled(c, End(c, START, steps), step)
    requires step.Execute? && End(c, START, steps).pending[step.key].Removing?
    ensures var w := End(c, START, steps);
            var id := w.pending[step.key].id;
            Apply(c, w, step).history == w.history + [Removed(id)] <==> Remains.Remains(w.history, c.leaseTtl, id)
  {
    RunsKeepInv(c, START, steps);
    var w := End(c, START, steps);
    var added := Effect(c, w.table, w.pending[step.key], step.newId).1;
    assert |w.history + added| == |w.history| + |added|;
  }

  /** A renewal that succeeds read the clock before the expiry it replaces. */
  lemma RenewalSampledInTime(c: Config, w: World, step: Step)
    requires Enabled(c, w, step) && step.Execute? && w.pending[step.key].Renewing?
    ensures var task := w.pending[step.key];
            (Apply(c, w, step).history == w.history + [Renewed(task.id, task.sample)]
             <==> task.id in w.table && task.sample < w.table[task.id].expiresAt)
  {
    var task := w.pending[step.key];
    var added := Effect(c, w.table, task, step.newId).1;
    assert (w.history + added)[|w.history|] == added[0];
  }

  /** A renewal with an old clock reading can bring back a lease that is already
      expired at the real clock: exactly when it read the clock before the
      expiry, and less than one lifetime ago. */
  lemma StaleRenewalRevives(c: Config, w: World, step: Step, id: LeaseId)
    requires Inv(c, w) && Enabled(c, w, step) && step.Execute?
    requires w.pending[step.key].Renewing? && w.pending[step.key].id == id
    requires id !in Prune(w.table, w.clock)
    ensures id in Prune(Apply(c, w, step).table, w.clock)
       <==> id in w.table && w.pending[step.key].sample < w.table[id].expiresAt
            && w.clock < w.pending[step.key].sample + c.leaseTtl
  {
  }

  /** It can also move an expiry backwards: exactly when a later reading already
      renewed the lease. */
  lemma StaleRenewalShortens(c: Config, w: World, step: Step, id: LeaseId)
    requires Inv(c, w) && Enabled(c, w, step) && step.Execute?
    requires w.pending[step.key].Renewing? && w.pending[step.key].id == id
    requires id in w.table && w.pending[step.key].sample < w.table[id].expiresAt
    ensures id in Apply(c, w, step).table
    ensures Apply(c, w, step).table[id].expiresAt < w.table[id].expiresAt
       <==> w.pending[step.key].sample < LastGrant(w.history, id).value.at
  {
  }

  /** The first does happen: a renewal that read the clock at 5 gets the lock at
      12, after the lease expired at 10, and a request at 12 is sent to it. */
  lemma StaleRenewalRevivesWitness(request: CreateLeaseRequest)
    requires request.target.isLoopback
    ensures var c := Config(10, 1, false);
            var early := [Begin(0, Creating(request, 0)), Execute(0, 7), Tick(5), Begin(1, Renewing(7, 5)), Tick(7)];
            && IsRun(c, START, early) && 7 !in Prune(End(c, START, early).table, 12)
            && Enabled(c, End(c, START, early), Execute(1, 0))
            && 7 in Prune(Apply(c, End(c, START, early), Execute(1, 0)).table, 12)
  {
    var c := Config(10, 1, false);
    var steps := [Begin(0, Creating(request, 0)), Execute(0, 7), Tick(5), Begin(1, Renewing(7, 5)), Tick(7)];
    var w1 := Apply(c, START, steps[0]);
    assert Prune(map[], 0) == map[];
    var w2 := Apply(c, w1, steps[1]);
    assert w2.table == map[7 := Lease(request, 10)];
    var w3 := Apply(c, w2, steps[2]);
    var w4 := Apply(c, w3, steps[3]);
    FromStep(c, w4, steps, 4);
    FromStep(c, w3, steps, 3);
    FromStep(c, w2, steps, 2);
    FromStep(c, w1, steps, 1);
    FromStep(c, START, steps, 0);
  }

  /** And so does the second: a renewal that read the clock at 0 gets the lock after
      one that read it at 5, and moves the expiry from 15 back to 10. */
  lemma StaleRenewalShortensWitness(request: CreateLeaseRequest)
    requires request.target.isLoopback
    ensures var c := Config(10, 1, false);
            var early := [Begin(0, Creating(request, 0)), Execute(0, 7)] + OVERTAKEN;
            && IsRun(c, START, early) && End(c, START, early).table == map[7 := Lease(request, 15)]
            && Enabled(c, End(c, START, early), Execute(1, 0))
            && Apply(c, End(c, START, early), Execute(1, 0)).table == map[7 := Lease(request, 10)]
  {
    var c := Config(10, 1, false);
    var steps := [Begin(0, Creating(request, 0)), Execute(0, 7)] + OVERTAKEN;
    var w1 := Apply(c, START, steps[0]);
    assert Prune(map[], 0) == map[];
    var w2 := Apply(c, w1, steps[1]);
    assert w2.table == map[7 := Lease(request, 10)];
    Overtakes(w2, request);
    assert steps[2..] == OVERTAKEN;
    FromStep(c, w1, steps, 1);
    FromStep(c, START, steps, 0);
  }

  const OVERTAKEN := [Begin(1, Renewing(7, 0)), Tick(5), Begin(2, Renewing(7, 5)), Execute(2, 0)]

  /** The earlier of two renewals is still waiting for the lock. */
  lemma Overtakes(w: World, request: CreateLeaseRequest)
    requires w.clock == 0 && w.table == map[7 := Lease(request, 10)] && w.pending == map[]
    ensures var c := Config(10, 1, false);
            && IsRun(c, w, OVERTAKEN)
            && var last := End(c, w, OVERTAKEN);
               && last.table == map[7 := Lease(request, 15)]
               && Enabled(c, last, Execute(1, 0))
               && Apply(c, last, Execute(1, 0)).table == map[7 := Lease(request, 10)]
  {
    var c := Config(10, 1, false);
    var w1 := Apply(c, w, OVERTAKEN[0]);
    var w2 := Apply(c, w1, OVERTAKEN[1]);
    var w3 := Apply(c, w2, OVERTAKEN[2]);
    RenewsTo(c, w3, 2, request, 5, 10);
    var w4 := Apply(c, w3, OVERTAKEN[3]);
    RenewsTo(c, w4, 1, request, 0, 15);
    FromStep(c, w3, OVERTAKEN, 3);
    FromStep(c, w2, OVERTAKEN, 2);
    FromStep(c, w1, OVERTAKEN, 1);
    FromStep(c, w, OVERTAKEN, 0);
  }

  lemma RenewsTo(c: Config, w: World, key: nat, request: CreateLeaseRequest, at: nat, expiry: nat)
    requires w.table == map[7 := Lease(request, expiry)] && at < expiry
    requires key in w.pending && w.pending[key] == Renewing(7, at)
    ensures Apply(c, w, Execute(key, 0)).table == map[7 := Lease(request, at + c.leaseTtl)]
  {
    assert Prune(w.table, at) == w.table;
  }

  lemma FromStep(c: Config, w: World, steps: seq<Step>, i: nat)
    requires i < |steps| && Enabled(c, w, steps[i]) && IsRun(c, Apply(c, w, steps[i]), steps[i + 1..])
    ensures IsRun(c, w, steps[i..])
    ensures End(c, w, steps[i..]) == End(c, Apply(c, w, steps[i]), steps[i + 1..])
    ensures steps[0..] == steps
  {
    assert steps[i..][1..] == steps[i + 1..];
  }

  /** A request matched with any clock reading up to the real clock is sent only
      to leases that were live at that reading, and to all that fit and are live
      at the real clock. */
  lemma MatchesAreBracketed(c: Config, steps: seq<Step>, sample: nat, route: Route)
    requires IsRun(c, START, steps) && sample <= End(c, START, steps).clock
    ensures var w := End(c, START, steps);
            var atSample := LiveView(w.history, c.leaseTtl, sample);
            var atClock := LiveView(w.history, c.leaseTtl, w.clock);
            && MatchingIds(w.table, sample, route)
               <= (set id | id in atSample && RouteMatches(atSample[id].request, route))
            && MatchingIds(w.table, sample, route)
               >= (set id | id in atClock && RouteMatches(atClock[id].request, route))
  {
    RunsKeepInv(c, START, steps);
    var w := End(c, START, steps);
    StaleReadIsBracketed(w.history, c.leaseTtl, w.table, sample, w.clock, route);
  }

  /** The remaining time of a lease exceeds the lifetime exactly when the listing
      read the clock before the lease's own last reading. The listing shows whole
      milliseconds, so it shows more than the lifetime exactly when the reading is
      too old by at least what the lifetime's own fraction of a millisecond leaves
      of one, unless the lifetime saturates. */
  lemma ListedTimeWithinTtl(c: Config, w: World, id: LeaseId, sample: nat)
    requires Inv(c, w) && id in w.table
    requires w.table[id].expiresAt > sample
    ensures w.table[id].expiresAt - sample <= c.leaseTtl <==> LastGrant(w.history, id).value.at <= sample
    ensures ViewOf(id, w.table[id], sample).expiresInMs <= LeaseTtlMillis(c.leaseTtl)
       <==> LastGrant(w.history, id).value.at + c.leaseTtl % NANOS_PER_MILLI < sample + NANOS_PER_MILLI
            || U64_MAX <= c.leaseTtl / NANOS_PER_MILLI
  {
    WholeMillis(LastGrant(w.history, id).value.at, c.leaseTtl, sample);
  }

  lemma WholeMillis(at: nat, ttl: nat, sample: nat)
    requires sample < at + ttl
    ensures (at + ttl - sample) / NANOS_PER_MILLI <= ttl / NANOS_PER_MILLI
       <==> at + ttl % NANOS_PER_MILLI < sample + NANOS_PER_MILLI
  {
  }

  /** A listing that read the clock at 0 shows 3001 ms of a lifetime of 3000 ms: it
      gets the lock after a renewal that read the clock 1 ms later. */
  lemma ListedTimeExceedsTtlWitness(request: CreateLeaseRequest)
    requires request.target.isLoopback
    ensures var c := Config(3 * SECOND, 1, false);
            var steps := [Begin(0, Creating(request, 0)), Execute(0, 7), Tick(NANOS_PER_MILLI),
                          Begin(1, Renewing(7, NANOS_PER_MILLI)), Execute(1, 0)];
            && IsRun(c, START, steps)
            && var w := End(c, START, steps);
               && w.clock == NANOS_PER_MILLI && 7 in w.table
               && ViewOf(7, w.table[7], 0).expiresInMs == 3001 && LeaseTtlMillis(c.leaseTtl) == 3000
  {
    var c := Config(3 * SECOND, 1, false);
    var steps := [Begin(0, Creating(request, 0)), Execute(0, 7), Tick(NANOS_PER_MILLI),
                  Begin(1, Renewing(7, NANOS_PER_MILLI)), Execute(1, 0)];
    var w1 := Apply(c, START, steps[0]);
    assert Prune(map[], 0) == map[];
    var w2 := Apply(c, w1, steps[1]);
    assert w2.table == map[7 := Lease(request, 3 * SECOND)];
    var w3 := Apply(c, w2, steps[2]);
    var w4 := Apply(c, w3, steps[3]);
    RenewsTo(c, w4, 1, request, NANOS_PER_MILLI, 3 * SECOND);
    FromStep(c, w4, steps, 4);
    FromStep(c, w3, steps, 3);
    FromStep(c, w2, steps, 2);
    FromStep(c, w1, steps, 1);
    FromStep(c, START, steps, 0);
  }
}
