/** Which leases are still stored, expired or not, by what has executed so far. A
    removal looks at no clock, so this decides its answer. */
module Remains {
  import opened Wrappers
  import opened Domain
  import opened Leases
  import opened History

  /** The event creates or renews the lease. */
  predicate Gives(e: Event, id: LeaseId) {
    (e.Granted? || e.Renewed?) && e.id == id
  }

  /** The event does not touch the lease, and if it is a creation or a renewal,
      successful or refused, its clock reading is before the expiry. */
  predicate Spares(e: Event, id: LeaseId, expiry: nat) {
    match e
    case Granted(i, _, at) => i != id && at < expiry
    case Renewed(i, at) => i != id && at < expiry
    case Removed(i) => i != id
    case Refused(at) => at < expiry
  }

  /** The lease was created or last renewed by event `k`, and all later events spare
      it. */
  ghost predicate RemainsSince(h: seq<Event>, ttl: nat, id: LeaseId, k: nat)
    requires k < |h|
  {
    Gives(h[k], id) && forall j :: k < j < |h| ==> Spares(h[j], id, h[k].at + ttl)
  }

  ghost predicate Remains(h: seq<Event>, ttl: nat, id: LeaseId) {
    exists k: nat :: k < |h| && RemainsSince(h, ttl, id, k)
  }

  /** The table stores exactly the leases that remain. */
  ghost predicate Stores(h: seq<Event>, ttl: nat, table: Table) {
    && (forall id :: id in table ==> Remains(h, ttl, id))
    && (forall id, k: nat :: k < |h| && RemainsSince(h, ttl, id, k) ==>
          id in table && table[id].expiresAt == h[k].at + ttl)
  }

  lemma RemainsAfter(h: seq<Event>, e: Event, ttl: nat, id: LeaseId)
    ensures forall k: nat :: k < |h| ==>
              (RemainsSince(h + [e], ttl, id, k)
               <==> RemainsSince(h, ttl, id, k) && Spares(e, id, h[k].at + ttl))
    ensures RemainsSince(h + [e], ttl, id, |h|) <==> Gives(e, id)
  {
    var longer := h + [e];
    forall k: nat | k < |h|
      ensures RemainsSince(longer, ttl, id, k)
         <==> RemainsSince(h, ttl, id, k) && Spares(e, id, h[k].at + ttl)
    {
      assert longer[k] == h[k] && longer[|h|] == e;
      assert forall j :: k < j < |h| ==> longer[j] == h[j];
    }
  }

  /** An event after which exactly the leases it gives and those it spares are
      stored. */
  lemma StoresAfter(h: seq<Event>, ttl: nat, table: Table, e: Event, table': Table)
    requires Stores(h, ttl, table)
    requires forall id :: id in table' <==>
                            Gives(e, id) || (id in table && Spares(e, id, table[id].expiresAt))
    requires forall id :: id in table' ==>
                            table'[id].expiresAt == if Gives(e, id) then e.at + ttl else table[id].expiresAt
    ensures Stores(h + [e], ttl, table')
  {
    forall id | id in table'
      ensures Remains(h + [e], ttl, id)
    {
      RemainsAfter(h, e, ttl, id);
      if !Gives(e, id) {
        var k: nat :| k < |h| && RemainsSince(h, ttl, id, k);
        assert RemainsSince(h + [e], ttl, id, k);
      }
    }
    forall id, k: nat | k < |h + [e]| && RemainsSince(h + [e], ttl, id, k)
      ensures id in table' && table'[id].expiresAt == (h + [e])[k].at + ttl
    {
      RemainsAfter(h, e, ttl, id);
      if k < |h| {
        assert (h + [e])[k] == h[k];
        assert (h + [e])[|h|] == e;
      }
    }
  }

  lemma CreateStores(c: Config, h: seq<Event>, table: Table, request: CreateLeaseRequest, now: nat, id: LeaseId)
    requires Stores(h, c.leaseTtl, table)
    ensures var (table', r) := Create(c, table, request, now, id);
            Stores(h + CreateEvent(request, now, r), c.leaseTtl, table')
  {
    var (table', r) := Create(c, table, request, now, id);
    var added := CreateEvent(request, now, r);
    if added == [] {
      assert h + added == h;
    } else {
      StoresAfter(h, c.leaseTtl, table, added[0], table');
    }
  }

  lemma RenewStores(c: Config, h: seq<Event>, table: Table, id: LeaseId, now: nat)
    requires Stores(h, c.leaseTtl, table)
    ensures var (table', r) := Renew(c, table, id, now);
            Stores(h + RenewEvent(id, now, r), c.leaseTtl, table')
  {
    var (table', r) := Renew(c, table, id, now);
    StoresAfter(h, c.leaseTtl, table, RenewEvent(id, now, r)[0], table');
  }

  lemma RemoveStores(h: seq<Event>, ttl: nat, table: Table, id: LeaseId)
    requires Stores(h, ttl, table)
    ensures var (table', r) := Remove(table, id);
            Stores(h + RemoveEvent(id, r), ttl, table')
  {
    var (table', r) := Remove(table, id);
    var added := RemoveEvent(id, r);
    if added == [] {
      assert h + added == h;
    } else {
      StoresAfter(h, ttl, table, added[0], table');
    }
  }

  /** A lease that was created or renewed at `at` and not touched since, and that has
      expired, is still stored exactly if no creation past the loopback check and no
      renewal has executed since with a clock reading at or after its expiry. */
  lemma ExpiredIsStored(h: seq<Event>, ttl: nat, table: Table, id: LeaseId, k: nat)
    requires Stores(h, ttl, table) && k < |h| && Gives(h[k], id)
    requires forall j :: k < j < |h| ==> h[j].Refused? || h[j].id != id
    ensures id in table <==> forall j :: k < j < |h| && !h[j].Removed? ==> h[j].at < h[k].at + ttl
  {
    if id in table {
      var i: nat :| i < |h| && RemainsSince(h, ttl, id, i);
      assert i == k;
    }
    if forall j :: k < j < |h| && !h[j].Removed? ==> h[j].at < h[k].at + ttl {
      assert RemainsSince(h, ttl, id, k);
    }
  }
}
