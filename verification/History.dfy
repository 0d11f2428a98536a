/** The registry defined by what happened to it: a lease is live from its last
    successful creation or renewal, sampled at `s`, until `s + ttl`, unless it
    was removed after that. Nothing here stores or prunes anything. */
module History {
  import opened Wrappers
  import opened Domain
  import opened Leases

  /** An executed operation, with the clock reading it used. `Refused` is a
      creation over capacity or a renewal of an unknown lease: it granted
      nothing, but it did prune. */
  datatype Event =
    | Granted(id: LeaseId, request: CreateLeaseRequest, at: nat)
    | Renewed(id: LeaseId, at: nat)
    | Removed(id: LeaseId)
    | Refused(at: nat)

  datatype Grant = Grant(request: CreateLeaseRequest, at: nat)

  /** What the history says about a lease, expiry aside. */
  function LastGrant(h: seq<Event>, id: LeaseId): Option<Grant> {
    if h == [] then None
    else
      var before := LastGrant(h[..|h| - 1], id);
      match h[|h| - 1]
      case Granted(i, request, at) => if i == id then Some(Grant(request, at)) else before
      case Renewed(i, at) => if i == id && before.Some? then Some(before.value.(at := at)) else before
      case Removed(i) => if i == id then None else before
      case Refused(_) => before
  }

  /** The latest clock reading that any event of the history used. */
  function LatestSample(h: seq<Event>): (latest: nat)
    ensures forall i :: 0 <= i < |h| && !h[i].Removed? ==> h[i].at <= latest
  {
    if h == [] then 0
    else
      var before := LatestSample(h[..|h| - 1]);
      var e := h[|h| - 1];
      if !e.Removed? && e.at > before then e.at else before
  }

  function GrantedIds(h: seq<Event>): set<LeaseId> {
    set e | e in h && e.Granted? :: e.id
  }

  predicate LiveAt(h: seq<Event>, ttl: nat, id: LeaseId, t: nat) {
    LastGrant(h, id).Some? && t < LastGrant(h, id).value.at + ttl
  }

  /** The leases that the history calls live at time `t`, with their expiry. */
  function LiveView(h: seq<Event>, ttl: nat, t: nat): Table {
    map id | id in GrantedIds(h) && LiveAt(h, ttl, id, t)
      :: Lease(LastGrant(h, id).value.request, LastGrant(h, id).value.at + ttl)
  }

  lemma {:induction false} GrantsComeFromCreations(h: seq<Event>, id: LeaseId)
    ensures LastGrant(h, id).Some? ==> id in GrantedIds(h)
    ensures LastGrant(h, id).Some? ==> LastGrant(h, id).value.at <= LatestSample(h)
  {
    if h != [] {
      GrantsComeFromCreations(h[..|h| - 1], id);
      assert h[|h| - 1] in h;
      assert forall e :: e in h[..|h| - 1] ==> e in h;
    }
  }

  lemma Append(h: seq<Event>, e: Event, id: LeaseId)
    ensures LastGrant(h + [e], id) ==
      match e
      case Granted(i, request, at) => if i == id then Some(Grant(request, at)) else LastGrant(h, id)
      case Renewed(i, at) =>
        if i == id && LastGrant(h, id).Some? then Some(LastGrant(h, id).value.(at := at)) else LastGrant(h, id)
      case Removed(i) => if i == id then None else LastGrant(h, id)
      case Refused(_) => LastGrant(h, id)
    ensures LatestSample(h + [e]) == if !e.Removed? && e.at > LatestSample(h) then e.at else LatestSample(h)
  {
    assert (h + [e])[..|h|] == h;
  }

  /** The tie between the stored table and the history. Every stored lease is
      stored with the expiry its last grant gives it, and a grant can be missing
      from the table only when some operation used a clock reading at or after
      its expiry. This survives operations whose clock readings are out of
      order. */
  ghost predicate Explains(h: seq<Event>, ttl: nat, table: Table) {
    && (forall id :: id in table ==>
          LastGrant(h, id).Some?
          && table[id] == Lease(LastGrant(h, id).value.request, LastGrant(h, id).value.at + ttl))
    && (forall id :: LastGrant(h, id).Some? && LastGrant(h, id).value.at + ttl > LatestSample(h) ==> id in table)
  }

  /** The event that an operation appends, from its result. */
  function CreateEvent(request: CreateLeaseRequest, now: nat, r: Result<LeaseId, RegistryError>): seq<Event> {
    match r
    case Success(id) => [Granted(id, request, now)]
    case Failure(NonLoopbackTarget) => []
    case Failure(_) => [Refused(now)]
  }

  function RenewEvent(id: LeaseId, now: nat, r: Result<(), RegistryError>): seq<Event> {
    if r.Success? then [Renewed(id, now)] else [Refused(now)]
  }

  function RemoveEvent(id: LeaseId, r: Result<(), RegistryError>): seq<Event> {
    if r.Success? then [Removed(id)] else []
  }

  lemma CreateExplained(c: Config, h: seq<Event>, table: Table, request: CreateLeaseRequest, now: nat, id: LeaseId)
    requires Explains(h, c.leaseTtl, table)
    ensures var (table', r) := Create(c, table, request, now, id);
            Explains(h + CreateEvent(request, now, r), c.leaseTtl, table')
  {
    var (table', r) := Create(c, table, request, now, id);
    var added := CreateEvent(request, now, r);
    if added == [] {
      assert h + added == h;
    } else {
      forall i
        ensures LastGrant(h + added, i)
             == if r.Success? && i == id then Some(Grant(request, now)) else LastGrant(h, i)
        ensures LatestSample(h + added) >= now && LatestSample(h + added) >= LatestSample(h)
      {
        Append(h, added[0], i);
      }
    }
  }

  lemma RenewExplained(c: Config, h: seq<Event>, table: Table, id: LeaseId, now: nat)
    requires Explains(h, c.leaseTtl, table)
    ensures var (table', r) := Renew(c, table, id, now);
            Explains(h + RenewEvent(id, now, r), c.leaseTtl, table')
  {
    var (table', r) := Renew(c, table, id, now);
    var added := RenewEvent(id, now, r);
    forall i
      ensures LastGrant(h + added, i)
           == if r.Success? && i == id then Some(LastGrant(h, id).value.(at := now)) else LastGrant(h, i)
      ensures LatestSample(h + added) >= now && LatestSample(h + added) >= LatestSample(h)
    {
      Append(h, added[0], i);
    }
  }

  lemma RemoveExplained(h: seq<Event>, ttl: nat, table: Table, id: LeaseId)
    requires Explains(h, ttl, table)
    ensures var (table', r) := Remove(table, id);
            Explains(h + RemoveEvent(id, r), ttl, table')
  {
    var (table', r) := Remove(table, id);
    var added := RemoveEvent(id, r);
    if added == [] {
      assert h + added == h;
    } else {
      forall i
        ensures LastGrant(h + added, i) == if i == id then None else LastGrant(h, i)
        ensures LatestSample(h + added) == LatestSample(h)
      {
        Append(h, added[0], i);
      }
    }
  }

  /** Lazy pruning is invisible: once the clock has reached the latest reading
      any operation used, the live part of the stored table is exactly the
      registry that the history defines. */
  lemma LazyTableIsHistory(h: seq<Event>, ttl: nat, table: Table, now: nat)
    requires Explains(h, ttl, table) && LatestSample(h) <= now
    ensures Prune(table, now) == LiveView(h, ttl, now)
  {
    forall id | id in LiveView(h, ttl, now)
      ensures id in Prune(table, now)
    {
      assert LiveAt(h, ttl, id, now);
    }
    forall id | id in Prune(table, now)
      ensures id in LiveView(h, ttl, now)
    {
      GrantsComeFromCreations(h, id);
    }
  }

  /** With a clock reading that is out of date, a read still shows nothing that
      was not live at that reading, and nothing is missing that is live at the
      latest reading. */
  lemma StaleReadIsBracketed(h: seq<Event>, ttl: nat, table: Table, sample: nat, clock: nat, route: Route)
    requires Explains(h, ttl, table)
    requires sample <= clock && LatestSample(h) <= clock
    ensures MatchingIds(table, sample, route)
         <= set id | id in LiveView(h, ttl, sample) && RouteMatches(LiveView(h, ttl, sample)[id].request, route)
    ensures MatchingIds(table, sample, route)
         >= set id | id in LiveView(h, ttl, clock) && RouteMatches(LiveView(h, ttl, clock)[id].request, route)
  {
    LazyTableIsHistory(h, ttl, table, clock);
    assert forall id :: id in LiveView(h, ttl, clock) ==> id in Prune(table, clock) && id in table;
    forall id | id in MatchingIds(table, sample, route)
      ensures id in LiveView(h, ttl, sample)
    {
      GrantsComeFromCreations(h, id);
    }
  }
}
