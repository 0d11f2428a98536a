/** Durations on the wire, and the renewal interval the server hands out. */
module Protocol {

  const NANOS_PER_MILLI: nat := 1_000_000
  const SECOND: nat := 1_000_000_000
  const U64_MAX: nat := 0xFFFF_FFFF_FFFF_FFFF
  const RENEW_INTERVAL_DIVISOR: nat := 3
  const CONTROL_REQUEST_TIMEOUT: nat := 2 * SECOND
  const MIN_LEASE_TTL: nat := 3 * SECOND

  /** Whole milliseconds of a duration in nanoseconds, saturating at 64 bits. */
  function DurationMillis(nanos: nat): nat {
    var millis := nanos / NANOS_PER_MILLI;
    if millis <= U64_MAX then millis else U64_MAX
  }

  /** The `lease_ttl_ms` field of a lease response. */
  function LeaseTtlMillis(ttl: nat): nat {
    DurationMillis(ttl)
  }

  /** The `renew_after_ms` field of a lease response. */
  function RenewAfterMillis(ttl: nat): nat {
    DurationMillis(ttl / RENEW_INTERVAL_DIVISOR)
  }

  /** How long a client sleeps before it renews, back in nanoseconds. */
  function RenewAfter(ttl: nat): nat {
    RenewAfterMillis(ttl) * NANOS_PER_MILLI
  }

  /** The announced interval is the announced lifetime divided by three,
      rounded down, exactly as long as the lifetime does not saturate by more
      than the rounding. */
  lemma RenewIsAThird(ttl: nat)
    ensures 3 * RenewAfterMillis(ttl) <= LeaseTtlMillis(ttl) <= 3 * RenewAfterMillis(ttl) + 2
       <==> ttl / NANOS_PER_MILLI <= U64_MAX + 2
  {
  }

  /** For every lifetime the server accepts, two whole intervals fit strictly
      inside it, and an interval is at least a second. The third interval does
      not fit strictly: it ends at the lifetime or within three milliseconds
      before it. */
  lemma TwoIntervalsFit(ttl: nat)
    requires MIN_LEASE_TTL <= ttl
    ensures 1000 <= RenewAfterMillis(ttl)
    ensures 2 * RenewAfter(ttl) < ttl
    ensures 3 * RenewAfter(ttl) <= ttl
    ensures ttl / NANOS_PER_MILLI <= U64_MAX ==> ttl < 3 * RenewAfter(ttl) + 3 * NANOS_PER_MILLI
  {
  }

  /** The least lifetime that a server accepts is the least one with an interval of a
      second. */
  lemma MinimumIsExact(ttl: nat)
    ensures 1000 <= RenewAfterMillis(ttl) <==> MIN_LEASE_TTL <= ttl
  {
  }
}
