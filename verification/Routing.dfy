/** From matching to the forwarded `Host`: what a host-scoped lease receives. */
module Routing {
  import opened Wrappers
  import opened Text
  import opened Domain
  import opened Leases
  import opened Headers

  /** A delivery to a lease that asked for one host and for its preservation
      carries that host, in whatever letter case the request wrote it. */
  lemma PreservedHostIsTheLeaseHost(
    table: Table, now: nat, verb: string, path: string, authority: Option<string>, h: HeaderMap,
    targets: seq<DispatchTarget>, i: nat)
    requires authority.Some? ==> IsReadable(authority.value)
    requires IsMatching(table, now, Route(verb, path, EffectiveHost(authority, h)), targets) && i < |targets|
    requires targets[i].leaseId in table
    requires table[targets[i].leaseId].request.preserveHost && table[targets[i].leaseId].request.host.Some?
    ensures var f := Forwarded(h, targets[i].preserveHost, EffectiveHost(authority, h));
            && HOST in f && |f[HOST]| == 1
            && var host := table[targets[i].leaseId].request.host.value;
               |host| == |f[HOST][0]| && forall k :: 0 <= k < |host| ==> IsSameLetter(host[k], f[HOST][0][k])
  {
    var request := table[targets[i].leaseId].request;
    TakesMeaning(request, Route(verb, path, EffectiveHost(authority, h)));
  }
}
