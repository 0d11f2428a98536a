/** Runs of the registry in which every operation reads the clock and executes
    in one step, so clock readings never decrease. The lazy registry of the
    program is compared with an eager one that drops each lease at the tick on
    which it expires and never looks at an expiry again. */
module Pruning {
  import opened Wrappers
  import opened Domain
  import opened Leases

  datatype Op =
    | DoCreate(now: nat, request: CreateLeaseRequest, id: LeaseId)
    | DoRenew(now: nat, id: LeaseId)
    | DoRemove(now: nat, id: LeaseId)
    | DoMatch(now: nat, route: Route)
    | DoList(now: nat)

  datatype Reply =
    | Created(result: Result<LeaseId, RegistryError>)
    | Done(outcome: Result<(), RegistryError>)
    | Matched(ids: set<LeaseId>)
    | Listed(leases: Table)

  function Lazy(c: Config, table: Table, op: Op): (Table, Reply) {
    match op
    case DoCreate(now, request, id) =>
      var (table', r) := Create(c, table, request, now, id);
      (table', Created(r))
    case DoRenew(now, id) =>
      var (table', r) := Renew(c, table, id, now);
      (table', Done(r))
    case DoRemove(_, id) =>
      var (table', r) := Remove(table, id);
      (table', Done(r))
    case DoMatch(now, route) => (table, Matched(MatchingIds(table, now, route)))
    case DoList(now) => (table, Listed(Prune(table, now)))
  }

  /** The operation on a table that holds live leases only. */
  function OnLive(c: Config, live: Table, op: Op): (Table, Reply) {
    match op
    case DoCreate(now, request, id) =>
      if !Allowed(c, request) then (live, Created(Failure(NonLoopbackTarget)))
      else if |live| >= c.maxTargets then (live, Created(Failure(Capacity(c.maxTargets))))
      else (live[id := Lease(request, now + c.leaseTtl)], Created(Success(id)))
    case DoRenew(now, id) =>
      if id !in live then (live, Done(Failure(NotFound)))
      else (live[id := Lease(live[id].request, now + c.leaseTtl)], Done(Success(())))
    case DoRemove(_, id) =>
      if id !in live then (live, Done(Failure(NotFound))) else (live - {id}, Done(Success(())))
    case DoMatch(_, route) => (live, Matched(set id | id in live && RouteMatches(live[id].request, route)))
    case DoList(_) => (live, Listed(live))
  }

  function Eager(c: Config, table: Table, op: Op): (Table, Reply) {
    OnLive(c, Prune(table, op.now), op)
  }

  function LazyRun(c: Config, table: Table, ops: seq<Op>): (r: (Table, seq<Reply>))
    ensures |r.1| == |ops|
    decreases |ops|
  {
    if ops == [] then (table, [])
    else
      var (next, reply) := Lazy(c, table, ops[0]);
      var (last, replies) := LazyRun(c, next, ops[1..]);
      (last, [reply] + replies)
  }

  function EagerRun(c: Config, table: Table, ops: seq<Op>): (r: (Table, seq<Reply>))
    ensures |r.1| == |ops|
    decreases |ops|
  {
    if ops == [] then (table, [])
    else
      var (next, reply) := Eager(c, table, ops[0]);
      var (last, replies) := EagerRun(c, next, ops[1..]);
      (last, [reply] + replies)
  }

  ghost predicate InOrder(start: nat, ops: seq<Op>) {
    && (forall i :: 0 <= i < |ops| ==> start <= ops[i].now)
    && (forall i, j :: 0 <= i < j < |ops| ==> ops[i].now <= ops[j].now)
  }

  lemma PruneTwice(table: Table, now: nat, later: nat)
    requires now <= later
    ensures Prune(Prune(table, now), later) == Prune(table, later)
  {
  }

  /** The removal finds a lease that has expired and that nothing has pruned. */
  predicate TakesExpired(table: Table, op: Op) {
    op.DoRemove? && op.id in table && table[op.id].expiresAt <= op.now
  }

  predicate SameBut(c: Config, table: Table, op: Op) {
    var (lazy, answer) := Lazy(c, table, op);
    var (live, expected) := OnLive(c, Prune(table, op.now), op);
    && Prune(lazy, op.now) == Prune(live, op.now)
    && (answer == expected <==> !TakesExpired(table, op))
  }

  lemma GrantOnLive(c: Config, table: Table, op: Op)
    requires op.DoCreate? || op.DoRenew?
    ensures SameBut(c, table, op)
  {
    PruneTwice(table, op.now, op.now);
  }

  lemma RemoveOnLive(c: Config, table: Table, op: Op)
    requires op.DoRemove?
    ensures SameBut(c, table, op)
  {
    PruneTwice(table, op.now, op.now);
    PruneWithout(table, op.id, op.now);
    PruneWithout(Prune(table, op.now), op.id, op.now);
    if op.id !in table {
      assert table - {op.id} == table;
    }
    if op.id !in Prune(table, op.now) {
      assert Prune(table, op.now) - {op.id} == Prune(table, op.now);
    }
  }

  lemma PruneWithout(table: Table, id: LeaseId, now: nat)
    ensures Prune(table - {id}, now) == Prune(table, now) - {id}
  {
  }

  /** One operation of the lazy registry, against the same operation on the live
      part of its table: the same live part afterwards, and the same reply,
      except, exactly, for a removal that finds an expired lease still stored. */
  lemma LazyIsOnLive(c: Config, table: Table, op: Op)
    ensures var (lazy, answer) := Lazy(c, table, op);
            var (live, expected) := OnLive(c, Prune(table, op.now), op);
            && Prune(lazy, op.now) == Prune(live, op.now)
            && (answer == expected <==> !TakesExpired(table, op))
  {
    if op.DoRemove? {
      RemoveOnLive(c, table, op);
    } else if op.DoMatch? {
      PruneTwice(table, op.now, op.now);
      MatchOnLive(table, op.now, op.route);
    } else if op.DoList? {
      PruneTwice(table, op.now, op.now);
    } else {
      GrantOnLive(c, table, op);
    }
  }

  lemma MatchOnLive(table: Table, now: nat, route: Route)
    ensures MatchingIds(table, now, route)
         == set id | id in Prune(table, now) && RouteMatches(Prune(table, now)[id].request, route)
  {
  }

  /** Each reply is the same, except, exactly, to the removals that find an
      expired lease still stored. */
  ghost predicate RepliesAgree(c: Config, lazy: Table, eager: Table, ops: seq<Op>) {
    forall i :: 0 <= i < |ops| ==>
      (LazyRun(c, lazy, ops).1[i] == EagerRun(c, eager, ops).1[i]
       <==> !TakesExpired(LazyRun(c, lazy, ops[..i]).0, ops[i]))
  }

  lemma FirstAndRest(c: Config, lazy: Table, eager: Table, ops: seq<Op>)
    requires ops != []
    requires Lazy(c, lazy, ops[0]).1 == Eager(c, eager, ops[0]).1 <==> !TakesExpired(lazy, ops[0])
    requires RepliesAgree(c, Lazy(c, lazy, ops[0]).0, Eager(c, eager, ops[0]).0, ops[1..])
    ensures RepliesAgree(c, lazy, eager, ops)
  {
    var op, rest := ops[0], ops[1..];
    var lazy', eager' := Lazy(c, lazy, op).0, Eager(c, eager, op).0;
    forall i | 0 <= i < |ops|
      ensures LazyRun(c, lazy, ops).1[i] == EagerRun(c, eager, ops).1[i]
         <==> !TakesExpired(LazyRun(c, lazy, ops[..i]).0, ops[i])
    {
      if i > 0 {
        assert LazyRun(c, lazy, ops).1[i] == LazyRun(c, lazy', rest).1[i - 1];
        assert EagerRun(c, eager, ops).1[i] == EagerRun(c, eager', rest).1[i - 1];
        assert ops[..i][0] == op && ops[..i][1..] == rest[..i - 1];
        assert LazyRun(c, lazy, ops[..i]).0 == LazyRun(c, lazy', rest[..i - 1]).0;
        assert rest[i - 1] == ops[i];
      }
    }
  }

  /** Over every run, the lazy registry has the live part of the registry that
      prunes at every tick, and gives the same replies but for removals of leases
      that have expired unpruned. */
  lemma {:induction false} LazyRefinesEager(c: Config, lazy: Table, eager: Table, ops: seq<Op>, start: nat, end: nat)
    requires InOrder(start, ops) && start <= end
    requires ops != [] ==> ops[|ops| - 1].now <= end
    requires Prune(lazy, start) == Prune(eager, start)
    ensures Prune(LazyRun(c, lazy, ops).0, end) == Prune(EagerRun(c, eager, ops).0, end)
    ensures RepliesAgree(c, lazy, eager, ops)
    decreases |ops|
  {
    if ops == [] {
      PruneTwice(lazy, start, end);
      PruneTwice(eager, start, end);
    } else {
      var op, rest := ops[0], ops[1..];
      PruneTwice(lazy, start, op.now);
      PruneTwice(eager, start, op.now);
      LazyIsOnLive(c, lazy, op);
      var lazy', eager' := Lazy(c, lazy, op).0, Eager(c, eager, op).0;
      assert forall i :: 0 <= i < |rest| ==> rest[i] == ops[i + 1];
      LazyRefinesEager(c, lazy', eager', rest, op.now, end);
      FirstAndRest(c, lazy, eager, ops);
    }
  }

  /** A removal can answer differently: it reports success for a lease that has
      expired and that nothing has pruned yet. */
  lemma RemovalOfExpiredLeaseSucceeds(request: CreateLeaseRequest)
    requires request.target.isLoopback
    ensures var c := Config(20, 1, false);
            var ops := [DoCreate(0, request, 7), DoRemove(20, 7)];
            && LazyRun(c, map[], ops).1[1] == Done(Success(()))
            && EagerRun(c, map[], ops).1[1] == Done(Failure(NotFound))
  {
  }

  /** A lease that is not live now is never live again, as long as no later
      creation is given its identifier. */
  lemma {:induction false} ExpiredStaysExpired(c: Config, table: Table, ops: seq<Op>, start: nat, end: nat, id: LeaseId)
    requires InOrder(start, ops) && start <= end
    requires ops != [] ==> ops[|ops| - 1].now <= end
    requires id !in Prune(table, start)
    requires forall i :: 0 <= i < |ops| && ops[i].DoCreate? ==> ops[i].id != id
    ensures id !in Prune(LazyRun(c, table, ops).0, end)
    decreases |ops|
  {
    if ops != [] {
      var op, rest := ops[0], ops[1..];
      assert forall i :: 0 <= i < |rest| ==> rest[i] == ops[i + 1];
      PruneTwice(table, start, op.now);
      assert id !in Prune(table, op.now);
      ExpiredStaysExpired(c, Lazy(c, table, op).0, rest, op.now, end, id);
    } else {
      PruneTwice(table, start, end);
    }
  }
}
