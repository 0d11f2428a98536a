/** The lease table and the effect of each registry operation on it, given the
    clock reading (`now`) that the operation took before it got the lock. */
module Leases {
  import opened Wrappers
  import opened Domain
  import opened Protocol
  import opened Sets

  datatype Lease = Lease(request: CreateLeaseRequest, expiresAt: nat)

  type Table = map<LeaseId, Lease>

  datatype Config = Config(leaseTtl: nat, maxTargets: nat, allowNonLoopbackTargets: bool)

  datatype RegistryError = NotFound | NonLoopbackTarget | Capacity(limit: nat)

  datatype DispatchTarget = DispatchTarget(leaseId: LeaseId, target: TargetUrl, preserveHost: bool)

  datatype LeaseView = LeaseView(leaseId: LeaseId, request: CreateLeaseRequest, expiresInMs: nat)

  predicate Allowed(c: Config, request: CreateLeaseRequest) {
    c.allowNonLoopbackTargets || request.target.isLoopback
  }

  /** The table without the leases that are expired at `now`; a lease whose
      expiry is `now` itself is expired. */
  function Prune(table: Table, now: nat): Table {
    map id | id in table && table[id].expiresAt > now :: table[id]
  }

  function Create(c: Config, table: Table, request: CreateLeaseRequest, now: nat, id: LeaseId)
    : (r: (Table, Result<LeaseId, RegistryError>))
  {
    if !Allowed(c, request) then (table, Failure(NonLoopbackTarget))
    else
      var live := Prune(table, now);
      if |live| >= c.maxTargets then (live, Failure(Capacity(c.maxTargets)))
      else (live[id := Lease(request, now + c.leaseTtl)], Success(id))
  }

  function Renew(c: Config, table: Table, id: LeaseId, now: nat)
    : (r: (Table, Result<(), RegistryError>))
  {
    var live := Prune(table, now);
    if id in live then (live[id := live[id].(expiresAt := now + c.leaseTtl)], Success(()))
    else (live, Failure(NotFound))
  }

  /** Removal looks at no clock: it takes an expired lease that is still stored
      for a lease. */
  function Remove(table: Table, id: LeaseId): (r: (Table, Result<(), RegistryError>)) {
    if id in table then (table - {id}, Success(())) else (table, Failure(NotFound))
  }

  /** The leases a route selects at a clock reading. */
  function MatchingIds(table: Table, now: nat, route: Route): set<LeaseId> {
    set id | id in table && table[id].expiresAt > now && RouteMatches(table[id].request, route)
  }

  function TargetOf(id: LeaseId, lease: Lease): DispatchTarget {
    DispatchTarget(id, lease.request.target, lease.request.preserveHost)
  }

  ghost predicate Targets(targets: seq<DispatchTarget>, id: LeaseId) {
    exists i :: 0 <= i < |targets| && targets[i].leaseId == id
  }

  ghost predicate Shows(views: seq<LeaseView>, id: LeaseId) {
    exists i :: 0 <= i < |views| && views[i].leaseId == id
  }

  /** `targets` lists each selected lease once, in no particular order. */
  ghost predicate IsMatching(table: Table, now: nat, route: Route, targets: seq<DispatchTarget>) {
    && (forall i :: 0 <= i < |targets| ==>
          targets[i].leaseId in MatchingIds(table, now, route)
          && targets[i] == TargetOf(targets[i].leaseId, table[targets[i].leaseId]))
    && (forall id :: id in MatchingIds(table, now, route) ==> Targets(targets, id))
    && (forall i, j :: 0 <= i < j < |targets| ==> targets[i].leaseId != targets[j].leaseId)
  }

  function ViewOf(id: LeaseId, lease: Lease, now: nat): LeaseView {
    LeaseView(id, lease.request, DurationMillis(if lease.expiresAt >= now then lease.expiresAt - now else 0))
  }

  ghost predicate StrictlySorted(views: seq<LeaseView>) {
    forall i, j :: 0 <= i < j < |views| ==> views[i].leaseId < views[j].leaseId
  }

  /** `views` shows exactly the leases live at `now`, in ascending order of
      identifier. */
  ghost predicate IsListing(table: Table, now: nat, views: seq<LeaseView>) {
    && StrictlySorted(views)
    && (forall i :: 0 <= i < |views| ==>
          views[i].leaseId in Prune(table, now)
          && views[i] == ViewOf(views[i].leaseId, table[views[i].leaseId], now))
    && (forall id :: id in Prune(table, now) ==> Shows(views, id))
  }

  /** A listing depends on the table alone, not on the order in which the hash
      map yields its entries. */
  lemma {:induction false} ListingIsUnique(table: Table, now: nat, a: seq<LeaseView>, b: seq<LeaseView>)
    requires IsListing(table, now, a) && IsListing(table, now, b)
    ensures a == b
  {
    ListingCovers(table, now, a, b);
    ListingCovers(table, now, b, a);
    SortedSequencesAgree(a, b);
  }

  lemma ListingCovers(table: Table, now: nat, a: seq<LeaseView>, b: seq<LeaseView>)
    requires IsListing(table, now, a) && IsListing(table, now, b)
    ensures forall v :: v in a ==> v in b
  {
  }

  lemma {:induction false} SortedSequencesAgree(a: seq<LeaseView>, b: seq<LeaseView>)
    requires StrictlySorted(a) && StrictlySorted(b)
    requires forall v :: v in a <==> v in b
    ensures a == b
  {
    assert |a| > 0 ==> a[0] in b;
    assert |b| > 0 ==> b[0] in a;
    if a != [] {
      assert a[0] == b[0];
      forall v
        ensures v in a[1..] <==> v in b[1..]
      {
        assert v in a[1..] ==> v in a && v.leaseId > a[0].leaseId;
        assert v in b[1..] ==> v in b && v.leaseId > b[0].leaseId;
      }
      SortedSequencesAgree(a[1..], b[1..]);
      assert a == [a[0]] + a[1..] && b == [b[0]] + b[1..];
    }
  }

  /** At one instant, matching returns exactly the listed leases whose route
      fits. */
  lemma ListAndMatchAgree(table: Table, now: nat, route: Route, views: seq<LeaseView>)
    requires IsListing(table, now, views)
    ensures MatchingIds(table, now, route)
         == set i | 0 <= i < |views| && RouteMatches(views[i].request, route) :: views[i].leaseId
  {
    forall id | id in MatchingIds(table, now, route)
      ensures exists i :: 0 <= i < |views| && RouteMatches(views[i].request, route) && views[i].leaseId == id
    {
      assert Shows(views, id);
      var i :| 0 <= i < |views| && views[i].leaseId == id;
      assert RouteMatches(views[i].request, route);
    }
  }

  lemma PruneShrinks(table: Table, now: nat)
    ensures |Prune(table, now)| <= |table|
  {
    CardinalityMonotone(Prune(table, now).Keys, table.Keys);
  }

  lemma PutSize(table: Table, id: LeaseId, lease: Lease)
    ensures |table[id := lease]| == if id in table then |table| else |table| + 1
  {
  }

  /** No operation lets the table outgrow its limit. */
  lemma CreateKeepsSize(c: Config, table: Table, request: CreateLeaseRequest, now: nat, id: LeaseId)
    requires |table| <= c.maxTargets
    ensures |Create(c, table, request, now, id).0| <= c.maxTargets
  {
    PruneShrinks(table, now);
    PutSize(Prune(table, now), id, Lease(request, now + c.leaseTtl));
  }

  lemma RenewKeepsSize(c: Config, table: Table, id: LeaseId, now: nat)
    requires |table| <= c.maxTargets
    ensures |Renew(c, table, id, now).0| <= c.maxTargets
  {
    PruneShrinks(table, now);
    var live := Prune(table, now);
    if id in live {
      PutSize(live, id, live[id].(expiresAt := now + c.leaseTtl));
    }
  }

  lemma RemoveKeepsSize(c: Config, table: Table, id: LeaseId)
    requires |table| <= c.maxTargets
    ensures |Remove(table, id).0| <= c.maxTargets
  {
  }

  /** Whole milliseconds of a duration, rounded down, as far as 64 bits reach. */
  predicate IsInMillis(ms: nat, nanos: nat) {
    if nanos < 18446744073709551616 * 1000000 then ms * 1000000 <= nanos < (ms + 1) * 1000000
    else ms == 18446744073709551615
  }

  lemma MillisMeaning(nanos: nat)
    ensures IsInMillis(DurationMillis(nanos), nanos)
  {
  }

  /** Apart from some leases: those unexpired at `now` are kept as they are, and no
      others. */
  ghost predicate IsPruned(before: Table, after: Table, now: nat, apart: set<LeaseId>) {
    forall id :: id !in apart ==>
      (id in after <==> id in before && before[id].expiresAt > now) && (id in after ==> after[id] == before[id])
  }

  /** What a creation does: refused past the loopback check it changes nothing;
      otherwise it drops the expired leases, and adds its own if there is room. */
  ghost predicate IsCreation(
    c: Config, before: Table, request: CreateLeaseRequest, now: nat, id: LeaseId,
    after: Table, r: Result<LeaseId, RegistryError>)
  {
    && (r == Failure(NonLoopbackTarget) <==> !c.allowNonLoopbackTargets && !request.target.isLoopback)
    && (r == Failure(NonLoopbackTarget) ==> after == before)
    && (r != Failure(NonLoopbackTarget) ==> IsPruned(before, after, now, if r.Success? then {id} else {}))
    && (r.Failure? && r.error != NonLoopbackTarget ==>
          r.error == Capacity(c.maxTargets) && |after| >= c.maxTargets)
    && (r.Success? ==>
          && r.value == id && id in after
          && after[id].request == request && after[id].expiresAt == now + c.leaseTtl)
  }

  lemma CreateSpelledOut(c: Config, table: Table, request: CreateLeaseRequest, now: nat, id: LeaseId)
    ensures var (table', r) := Create(c, table, request, now, id);
            IsCreation(c, table, request, now, id, table', r)
  {
  }

  /** What a renewal does: it drops the expired leases, and if its own is not one of
      them it gives it a new expiry. */
  ghost predicate IsRenewal(
    c: Config, before: Table, id: LeaseId, now: nat, after: Table, r: Result<(), RegistryError>)
  {
    && (r.Success? <==> id in before && before[id].expiresAt > now)
    && (r.Failure? ==> r.error == NotFound)
    && (r.Success? ==>
          && id in after && after[id].request == before[id].request
          && after[id].expiresAt == now + c.leaseTtl)
    && IsPruned(before, after, now, if r.Success? then {id} else {})
  }

  lemma RenewSpelledOut(c: Config, table: Table, id: LeaseId, now: nat)
    ensures var (table', r) := Renew(c, table, id, now);
            IsRenewal(c, table, id, now, table', r)
  {
  }

  lemma MatchingSpelledOut(table: Table, now: nat, route: Route, targets: seq<DispatchTarget>)
    requires IsMatching(table, now, route, targets)
    ensures forall i :: 0 <= i < |targets| ==>
              && targets[i].leaseId in table
              && targets[i].target == table[targets[i].leaseId].request.target
              && targets[i].preserveHost == table[targets[i].leaseId].request.preserveHost
    ensures forall id ::
              (exists i :: 0 <= i < |targets| && targets[i].leaseId == id)
              <==> id in table && table[id].expiresAt > now && Takes(table[id].request, route)
  {
    forall id | id in table
      ensures RouteMatches(table[id].request, route) <==> Takes(table[id].request, route)
    {
      TakesMeaning(table[id].request, route);
    }
    forall id
      ensures (exists i :: 0 <= i < |targets| && targets[i].leaseId == id)
              <==> id in table && table[id].expiresAt > now && Takes(table[id].request, route)
    {
      assert Targets(targets, id) <==> id in MatchingIds(table, now, route);
    }
  }

  lemma ListingSpelledOut(table: Table, now: nat, views: seq<LeaseView>)
    requires IsListing(table, now, views)
    ensures forall i :: 0 <= i < |views| ==>
              && views[i].leaseId in table
              && views[i].request == table[views[i].leaseId].request
              && now < table[views[i].leaseId].expiresAt
              && IsInMillis(views[i].expiresInMs, table[views[i].leaseId].expiresAt - now)
    ensures forall id :: id in table && table[id].expiresAt > now ==> Shows(views, id)
  {
    forall i | 0 <= i < |views|
      ensures IsInMillis(views[i].expiresInMs, table[views[i].leaseId].expiresAt - now)
    {
      assert views[i].leaseId in Prune(table, now);
      MillisMeaning(table[views[i].leaseId].expiresAt - now);
    }
    forall id | id in table && table[id].expiresAt > now
      ensures Shows(views, id)
    {
      assert id in Prune(table, now);
    }
  }
}
