/** The validated values that leases, routes and responses are made of. */
module Domain {
  import opened Wrappers
  import opened Text

  /** A lease identifier: a UUID, read as the number that orders it. */
  type LeaseId = nat

  /** A delivery URL. Whether its host is a loopback address is decided by the
      URL library and is a given here. */
  datatype TargetUrl = TargetUrl(text: string, isLoopback: bool)

  /** What a client registers. */
  datatype CreateLeaseRequest = CreateLeaseRequest(
    verb: string,
    path: string,
    host: Option<string>,
    target: TargetUrl,
    preserveHost: bool)

  /** The part of an incoming request that selects leases. */
  datatype Route = Route(verb: string, path: string, host: Option<string>)

  /** A lease without a host takes every host; one with a host needs the same
      host in any letter case, so it never takes a request without one. */
  predicate HostMatches(expected: Option<string>, actual: Option<string>) {
    expected.None? || (actual.Some? && EqIgnoreAsciiCase(expected.value, actual.value))
  }

  predicate RouteMatches(request: CreateLeaseRequest, route: Route) {
    && request.verb == route.verb
    && request.path == route.path
    && HostMatches(request.host, route.host)
  }

  /** Which requests a lease is for: the same verb and path, and if it has a host,
      the request has one that differs at most in letter case. */
  predicate Takes(lease: CreateLeaseRequest, route: Route) {
    && lease.verb == route.verb && lease.path == route.path
    && (lease.host.Some? ==>
          && route.host.Some? && |lease.host.value| == |route.host.value|
          && forall i :: 0 <= i < |lease.host.value| ==> IsSameLetter(lease.host.value[i], route.host.value[i]))
  }

  lemma TakesMeaning(lease: CreateLeaseRequest, route: Route)
    ensures RouteMatches(lease, route) <==> Takes(lease, route)
  {
    if lease.host.Some? && route.host.Some? {
      EqIgnoreAsciiCaseMeaning(lease.host.value, route.host.value);
    }
  }
}
