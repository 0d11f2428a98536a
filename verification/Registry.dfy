/** The registry object: one table behind a lock. A method is one critical
    section, and `now` is the clock reading its caller took before entering it,
    so nothing is assumed about the order of the readings. */
module Registry {
  import opened Wrappers
  import opened Domain
  import opened Leases
  import opened History
  import opened Remains

  ghost predicate IsRegistry(c: Config, h: seq<Event>, table: Table) {
    |table| <= c.maxTargets && Explains(h, c.leaseTtl, table) && Stores(h, c.leaseTtl, table)
  }

  /** What a creation means to the history. */
  lemma CreateMeaning(
    c: Config, h: seq<Event>, table: Table, request: CreateLeaseRequest, now: nat, id: LeaseId)
    requires IsRegistry(c, h, table)
    ensures var (table', r) := Leases.Create(c, table, request, now, id);
            && IsRegistry(c, h + CreateEvent(request, now, r), table')
            && IsCreation(c, table, request, now, id, table', r)
            && (r != Failure(NonLoopbackTarget) && LatestSample(h) <= now ==>
                  (r.Failure? <==> |LiveView(h, c.leaseTtl, now)| >= c.maxTargets))
  {
    CreateExplained(c, h, table, request, now, id);
    CreateStores(c, h, table, request, now, id);
    CreateKeepsSize(c, table, request, now, id);
    CreateSpelledOut(c, table, request, now, id);
    PruneIsHistory(h, c.leaseTtl, table, now);
  }

  /** What a renewal means to the history. */
  lemma RenewMeaning(c: Config, h: seq<Event>, table: Table, id: LeaseId, now: nat)
    requires IsRegistry(c, h, table)
    ensures var (table', r) := Leases.Renew(c, table, id, now);
            && IsRegistry(c, h + RenewEvent(id, now, r), table')
            && IsRenewal(c, table, id, now, table', r)
            && (LatestSample(h) <= now ==> (r.Success? <==> id in LiveView(h, c.leaseTtl, now)))
  {
    RenewExplained(c, h, table, id, now);
    RenewStores(c, h, table, id, now);
    RenewKeepsSize(c, table, id, now);
    RenewSpelledOut(c, table, id, now);
    PruneIsHistory(h, c.leaseTtl, table, now);
  }

  /** What a removal means to the history. */
  lemma RemoveMeaning(c: Config, h: seq<Event>, table: Table, id: LeaseId)
    requires IsRegistry(c, h, table)
    ensures var (table', r) := Leases.Remove(table, id);
            && IsRegistry(c, h + RemoveEvent(id, r), table')
            && (r.Success? <==> Remains.Remains(h, c.leaseTtl, id))
  {
    RemoveExplained(h, c.leaseTtl, table, id);
    RemoveStores(h, c.leaseTtl, table, id);
    RemoveKeepsSize(c, table, id);
  }

  class Registry {
    const config: Config
    var leases: Table
    ghost var history: seq<Event>

    ghost predicate Valid()
      reads this
    {
      IsRegistry(config, history, leases)
    }

    /** The registry that the history defines, at time `t`. */
    ghost function Live(t: nat): Table
      reads this
    {
      LiveView(history, config.leaseTtl, t)
    }

    constructor (config: Config)
      ensures Valid() && this.config == config && history == [] && leases == map[]
    {
      this.config := config;
      leases := map[];
      history := [];
    }

    method Create(request: CreateLeaseRequest, now: nat, id: LeaseId) returns (r: Result<LeaseId, RegistryError>)
      requires Valid()
      modifies this
      ensures Valid()
      ensures (leases, r) == Leases.Create(config, old(leases), request, now, id)
      ensures history == old(history) + CreateEvent(request, now, r)
      ensures IsCreation(config, old(leases), request, now, id, leases, r)
      ensures r != Failure(NonLoopbackTarget) && old(LatestSample(history)) <= now ==>
        (r.Failure? <==> |old(Live(now))| >= config.maxTargets)
    {
      CreateMeaning(config, history, leases, request, now, id);
      r := Admit(request, now, id);
      history := history + CreateEvent(request, now, r);
    }

    /** The program's part of a creation. */
    method Admit(request: CreateLeaseRequest, now: nat, id: LeaseId) returns (r: Result<LeaseId, RegistryError>)
      modifies this`leases
      ensures (leases, r) == Leases.Create(config, old(leases), request, now, id)
    {
      if !config.allowNonLoopbackTargets && !request.target.isLoopback {
        return Failure(NonLoopbackTarget);
      }
      leases := Prune(leases, now);
      if |leases| >= config.maxTargets {
        return Failure(Capacity(config.maxTargets));
      }
      leases := leases[id := Lease(request, now + config.leaseTtl)];
      return Success(id);
    }

    method Renew(id: LeaseId, now: nat) returns (r: Result<(), RegistryError>)
      requires Valid()
      modifies this
      ensures Valid()
      ensures (leases, r) == Leases.Renew(config, old(leases), id, now)
      ensures history == old(history) + RenewEvent(id, now, r)
      ensures IsRenewal(config, old(leases), id, now, leases, r)
      ensures old(LatestSample(history)) <= now ==> (r.Success? <==> id in old(Live(now)))
    {
      RenewMeaning(config, history, leases, id, now);
      r := Prolong(id, now);
      history := history + RenewEvent(id, now, r);
    }

    /** The program's part of a renewal. */
    method Prolong(id: LeaseId, now: nat) returns (r: Result<(), RegistryError>)
      modifies this`leases
      ensures (leases, r) == Leases.Renew(config, old(leases), id, now)
    {
      leases := Prune(leases, now);
      if id !in leases {
        return Failure(NotFound);
      }
      leases := leases[id := leases[id].(expiresAt := now + config.leaseTtl)];
      return Success(());
    }

    method Remove(id: LeaseId) returns (r: Result<(), RegistryError>)
      requires Valid()
      modifies this
      ensures Valid()
      ensures (leases, r) == Leases.Remove(old(leases), id)
      ensures r.Success? <==> Remains.Remains(old(history), config.leaseTtl, id)
      ensures r.Failure? ==> r.error == NotFound
      ensures id !in leases
      ensures forall other :: other != id ==>
                (other in leases <==> other in old(leases))
                && (other in leases ==> leases[other] == old(leases)[other])
      ensures history == old(history) + RemoveEvent(id, r)
      ensures forall t: nat :: old(LatestSample(history)) <= t ==> Live(t) == old(Live(t)) - {id}
    {
      RemoveMeaning(config, history, leases, id);
      forall t: nat | LatestSample(history) <= t
        ensures LiveView(history + RemoveEvent(id, Leases.Remove(leases, id).1), config.leaseTtl, t)
             == LiveView(history, config.leaseTtl, t) - {id}
      {
        RemovedFromView(history, config.leaseTtl, leases, id, t);
      }
      var removed := id in leases;
      leases := if removed then leases - {id} else leases;
      if !removed {
        history := history + RemoveEvent(id, Failure(NotFound));
        return Failure(NotFound);
      }
      history := history + RemoveEvent(id, Success(()));
      return Success(());
    }

    /** Filters the leases, in whatever order the table yields them. */
    method Select(route: Route, now: nat) returns (targets: seq<DispatchTarget>)
      ensures IsMatching(leases, now, route, targets)
    {
      targets := [];
      var rest := leases.Keys;
      while rest != {}
        invariant rest <= leases.Keys
        invariant forall i :: 0 <= i < |targets| ==>
          targets[i].leaseId in MatchingIds(leases, now, route) - rest
          && targets[i] == TargetOf(targets[i].leaseId, leases[targets[i].leaseId])
        invariant forall id :: id in MatchingIds(leases, now, route) - rest ==> Targets(targets, id)
        invariant forall i, j :: 0 <= i < j < |targets| ==> targets[i].leaseId != targets[j].leaseId
        decreases rest
      {
        var id :| id in rest;
        rest := rest - {id};
        if leases[id].expiresAt > now && RouteMatches(leases[id].request, route) {
          TargetsAfterAppend(targets, TargetOf(id, leases[id]));
          targets := targets + [TargetOf(id, leases[id])];
        }
      }
    }

    /** The targets of a route. */
    method Matching(route: Route, now: nat) returns (targets: seq<DispatchTarget>)
      requires Valid()
      ensures IsMatching(leases, now, route, targets)
      ensures forall i :: 0 <= i < |targets| ==>
                && targets[i].leaseId in leases
                && targets[i].target == leases[targets[i].leaseId].request.target
                && targets[i].preserveHost == leases[targets[i].leaseId].request.preserveHost
      ensures forall id ::
                (exists i :: 0 <= i < |targets| && targets[i].leaseId == id)
                <==> id in leases && leases[id].expiresAt > now && Takes(leases[id].request, route)
      ensures LatestSample(history) <= now ==>
        forall id :: Targets(targets, id) <==> id in Live(now) && RouteMatches(Live(now)[id].request, route)
    {
      targets := Select(route, now);
      MatchingIsHistory(history, config.leaseTtl, leases, now, route, targets);
      MatchingSpelledOut(leases, now, route, targets);
    }

    /** Puts the live leases in order, in whatever order the table yields them. */
    method Sorted(now: nat) returns (views: seq<LeaseView>)
      ensures IsListing(leases, now, views)
    {
      views := [];
      var rest := leases.Keys;
      while rest != {}
        invariant rest <= leases.Keys
        invariant Collected(leases, now, rest, views)
        decreases rest
      {
        var id :| id in rest;
        rest := rest - {id};
        if leases[id].expiresAt > now {
          var at := InsertionPoint(views, id);
          CollectOne(leases, now, rest, views, id, at);
          views := views[..at] + [ViewOf(id, leases[id], now)] + views[at..];
        }
      }
    }

    /** The live leases in ascending order of identifier. */
    method List(now: nat) returns (views: seq<LeaseView>)
      requires Valid()
      ensures IsListing(leases, now, views)
      ensures forall i, j :: 0 <= i < j < |views| ==> views[i].leaseId < views[j].leaseId
      ensures forall i :: 0 <= i < |views| ==>
                && views[i].leaseId in leases
                && views[i].request == leases[views[i].leaseId].request
                && now < leases[views[i].leaseId].expiresAt
                && IsInMillis(views[i].expiresInMs, leases[views[i].leaseId].expiresAt - now)
      ensures forall id :: id in leases && leases[id].expiresAt > now ==> Shows(views, id)
      ensures LatestSample(history) <= now ==> forall id :: Shows(views, id) <==> id in Live(now)
    {
      views := Sorted(now);
      ListingIsHistory(history, config.leaseTtl, leases, now, views);
      ListingSpelledOut(leases, now, views);
    }
  }

  /** Each view is right, and of a live lease outside `rest`. */
  ghost predicate ViewsRight(table: Table, now: nat, rest: set<LeaseId>, views: seq<LeaseView>) {
    forall i :: 0 <= i < |views| ==>
      && views[i].leaseId in Prune(table, now) && views[i].leaseId !in rest
      && views[i] == ViewOf(views[i].leaseId, table[views[i].leaseId], now)
  }

  /** `views` is the sorted listing of the live leases outside `rest`. */
  ghost predicate Collected(table: Table, now: nat, rest: set<LeaseId>, views: seq<LeaseView>) {
    && StrictlySorted(views)
    && ViewsRight(table, now, rest, views)
    && (forall id :: id in Prune(table, now) && id !in rest ==> Shows(views, id))
  }

  lemma SortedAfterInsert(views: seq<LeaseView>, at: nat, v: LeaseView)
    requires StrictlySorted(views) && at <= |views|
    requires forall i :: 0 <= i < at ==> views[i].leaseId < v.leaseId
    requires forall i :: at <= i < |views| ==> v.leaseId < views[i].leaseId
    ensures StrictlySorted(views[..at] + [v] + views[at..])
  {
  }

  lemma RightAfterInsert(
    table: Table, now: nat, rest: set<LeaseId>, views: seq<LeaseView>, id: LeaseId, at: nat)
    requires ViewsRight(table, now, rest + {id}, views) && at <= |views|
    requires id !in rest && id in Prune(table, now)
    ensures ViewsRight(table, now, rest, views[..at] + [ViewOf(id, table[id], now)] + views[at..])
  {
  }

  lemma CollectOne(table: Table, now: nat, rest: set<LeaseId>, views: seq<LeaseView>, id: LeaseId, at: nat)
    requires Collected(table, now, rest + {id}, views)
    requires id !in rest && id in Prune(table, now)
    requires at <= |views|
    requires forall i :: 0 <= i < at ==> views[i].leaseId < id
    requires forall i :: at <= i < |views| ==> id < views[i].leaseId
    ensures Collected(table, now, rest, views[..at] + [ViewOf(id, table[id], now)] + views[at..])
  {
    var v := ViewOf(id, table[id], now);
    SortedAfterInsert(views, at, v);
    RightAfterInsert(table, now, rest, views, id, at);
    ShowsAfterInsert(views, at, v);
  }

  lemma PruneIsHistory(h: seq<Event>, ttl: nat, table: Table, now: nat)
    requires Explains(h, ttl, table)
    ensures LatestSample(h) <= now ==> Prune(table, now) == LiveView(h, ttl, now)
  {
    if LatestSample(h) <= now {
      LazyTableIsHistory(h, ttl, table, now);
    }
  }

  lemma ListingIsHistory(h: seq<Event>, ttl: nat, table: Table, now: nat, views: seq<LeaseView>)
    requires Explains(h, ttl, table)
    requires IsListing(table, now, views)
    ensures LatestSample(h) <= now ==> forall id :: Shows(views, id) <==> id in LiveView(h, ttl, now)
  {
    if LatestSample(h) <= now {
      LazyTableIsHistory(h, ttl, table, now);
    }
  }

  lemma MatchingIsHistory(
    h: seq<Event>, ttl: nat, table: Table, now: nat, route: Route, targets: seq<DispatchTarget>)
    requires Explains(h, ttl, table)
    requires IsMatching(table, now, route, targets)
    ensures LatestSample(h) <= now ==>
      forall id :: Targets(targets, id)
              <==> id in LiveView(h, ttl, now) && RouteMatches(LiveView(h, ttl, now)[id].request, route)
  {
    if LatestSample(h) <= now {
      LazyTableIsHistory(h, ttl, table, now);
      assert forall id :: id in LiveView(h, ttl, now) <==> id in Prune(table, now);
    }
  }

  /** Where a view with a new identifier belongs in a sorted listing. */
  method InsertionPoint(views: seq<LeaseView>, id: LeaseId) returns (at: nat)
    requires StrictlySorted(views)
    requires forall i :: 0 <= i < |views| ==> views[i].leaseId != id
    ensures at <= |views|
    ensures forall i :: 0 <= i < at ==> views[i].leaseId < id
    ensures forall i :: at <= i < |views| ==> id < views[i].leaseId
  {
    at := 0;
    while at < |views| && views[at].leaseId < id
      invariant at <= |views|
      invariant forall i :: 0 <= i < at ==> views[i].leaseId < id
    {
      at := at + 1;
    }
  }

  lemma TargetsAfterAppend(targets: seq<DispatchTarget>, t: DispatchTarget)
    ensures forall id :: Targets(targets + [t], id) <==> Targets(targets, id) || id == t.leaseId
  {
    var more := targets + [t];
    assert more[|targets|] == t;
    forall id | Targets(targets, id)
      ensures Targets(more, id)
    {
      var i :| 0 <= i < |targets| && targets[i].leaseId == id;
      assert more[i].leaseId == id;
    }
  }

  lemma ShowsAfterInsert(views: seq<LeaseView>, at: nat, v: LeaseView)
    requires at <= |views|
    ensures var more := views[..at] + [v] + views[at..];
            && (forall i :: 0 <= i < at ==> more[i] == views[i])
            && more[at] == v
            && (forall i :: at < i < |more| ==> more[i] == views[i - 1])
            && forall id :: Shows(more, id) <==> Shows(views, id) || id == v.leaseId
  {
    var more := views[..at] + [v] + views[at..];
    assert more[at] == v;
    forall id | Shows(views, id)
      ensures Shows(more, id)
    {
      var i :| 0 <= i < |views| && views[i].leaseId == id;
      assert more[if i < at then i else i + 1].leaseId == id;
    }
  }

  /** A removal takes the lease, and nothing else, out of the registry that the
      history defines, from the latest clock reading on, even when it finds
      nothing to remove. */
  lemma RemovedFromView(h: seq<Event>, ttl: nat, table: Table, id: LeaseId, t: nat)
    requires Explains(h, ttl, table) && LatestSample(h) <= t
    ensures LiveView(h + RemoveEvent(id, Leases.Remove(table, id).1), ttl, t) == LiveView(h, ttl, t) - {id}
  {
    var table' := Leases.Remove(table, id).0;
    var h' := h + RemoveEvent(id, Leases.Remove(table, id).1);
    RemoveExplained(h, ttl, table, id);
    RemovalTakesNoSample(h, table, id);
    calc {
      LiveView(h', ttl, t);
      { LazyTableIsHistory(h', ttl, table', t); }
      Prune(table', t);
      Prune(table, t) - {id};
      { LazyTableIsHistory(h, ttl, table, t); }
      LiveView(h, ttl, t) - {id};
    }
  }

  lemma RemovalTakesNoSample(h: seq<Event>, table: Table, id: LeaseId)
    ensures LatestSample(h + RemoveEvent(id, Leases.Remove(table, id).1)) == LatestSample(h)
  {
    if id in table {
      Append(h, Removed(id), id);
    } else {
      assert h + [] == h;
    }
  }
}
