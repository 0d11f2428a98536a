# Webhook multiplexer: a verified model

This project models the logic of `hmux`, which fans incoming webhooks out to
local targets that register themselves under leases, and proves properties of
that model in Dafny 4.11. Time is a natural number of nanoseconds on one clock.
`dafny verify dfyconfig.toml` checks everything.

## What is modelled

- **Lease registry.** `Leases` holds the table and the effect of each operation;
  `History` defines the registry a second time, by its history alone (last
  creation or renewal at `s`, not removed, `t < s + ttl`), without storing or
  pruning anything. The class in `Registry` is the object behind the lock, with a
  ghost history and an invariant that ties the two together and needs no order
  on clock readings. `Pruning` compares runs of the lazy registry with one that
  prunes at every tick, and `Remains` says which expired leases are still stored.
  `Interleaving` splits each operation in its two halves, reading the clock and
  getting the lock, and interleaves them arbitrarily.
- **Lease protocol.** `Registration` is the client, as a nested loop over a script
  of answers and as a machine of phases, and `Conduct` says what its log must be.
  `LeaseProtocol` puts it in a world of servers that crash and restart empty,
  descriptors that may be stale, and requests and responses that are lost or
  delayed, next to other clients and operators. `KeepAlive` and `Reconvergence` add
  punctual timers and calls, and `Orphans` and `Leftovers` count what lost responses
  leave behind.
- **Fan-out.** `Aggregation` is the join loop and the response; `Dispatch` is the
  ingress as a transition system over any number of requests and deliveries, two
  semaphores, timeouts and disconnects. `Deadlines` holds for every timing of its
  steps. `Urgency` lets time pass only when the ingress has nothing left to do, and
  bounds how long deliveries and requests take; `Capacity` says when every target
  is attempted. `Forward` is one request from arrival to answer, and `EndToEnd`
  runs the lease protocol and the ingress as one system.
- **Header forwarding.** `Headers` is the removal loop, the parsing of
  `Connection`, and their meaning by RFC 9110; `Routing` follows the host from
  matching to the forwarded request.
- **Instance lifecycle.** `Lifecycle` lets any number of servers compete for one
  lock and one descriptor, with a crash possible between any two steps, and stop
  commands that poll the file. `Runtime` is the directory itself, and `Server` one
  server's path through it. `Stopping` shows when a stop command returns.

A run is a sequence of steps, each possible where the previous ones lead
(`IsRun`), and `End` is the world it leads to, so a statement about all runs is a
statement about all reachable worlds.

## Where code and documentation differ

The model follows the code in each case.

- `docs/architecture.md:32-33` says that every operation prunes. Listing and
  matching only filter, and removal looks at no clock, so it reports success for
  an expired lease that is still stored. `Pruning.LazyRefinesEager` says exactly
  for which removals that shows.
- `README.md:141` says that `always` answers 2xx when every delivery was
  attempted. A delivery can spend its whole timeout waiting for a permit
  (`Capacity.AlwaysWithoutAttempt`). The promise holds exactly for servers with at
  least as many delivery permits as requests in flight times registered leases
  (`Capacity.EveryTargetAttempted`).
- `README.md:101-105` says that `hmux stop` waits until the server has exited. It
  waits for the descriptor, which goes before the lock
  (`Stopping.StopReturnsBeforeExit`); while it polls, it can still return too early
  exactly as long as its server is alive (`Stopping.StopCanReturnEarly`).
- `src/control.rs:32-33` says that a lease survives two missed renewals. The
  client gives a lease up after one, and with slow calls a lease of 6 s can lapse
  before any renewal has failed (`KeepAlive.KeepAliveIsExact`,
  `KeepAlive.SixSecondsAreNeeded`).

## Model

| member | source | states |
|---|---|---|
| `Registry.Registry.constructor` | src/registry.rs:35-42 | a new registry is empty and explained by the empty history |
| `Registry.Registry.Create` | src/registry.rs:44-65 | with any clock reading: refused past the loopback check without a change; otherwise every expired lease goes, every other stays as it is, and the new one is added if there is room; the event, the size limit and the tie to the history; with a reading that is not out of date, refused for capacity exactly when the history calls `max_targets` leases live |
| `Registry.Registry.Renew` | src/registry.rs:67-74 | with any clock reading, successful or not: every expired lease goes, every other stays as it is, and the renewed one gets its new expiry; succeeds exactly if the lease is stored and unexpired; event and tie to the history; with a reading that is not out of date, succeeds exactly for the leases that the history calls live |
| `Registry.Registry.Remove` | src/registry.rs:76-83 | succeeds exactly if the lease is still stored by what has executed, expired or not; leaves every other lease; from the latest clock reading on, takes exactly this lease out of the registry that the history defines, whatever it returns |
| `Registry.Registry.Matching` | src/registry.rs:85-111 | whatever order the map yields its entries in: each lease once with its own target and host flag, exactly those unexpired with the same verb, the same path and no host or the same host but for letter case; and exactly the ones that the history calls live |
| `Registry.Registry.List` | src/registry.rs:113-131 | whatever order the map yields its entries in: strictly sorted by identifier, exactly the unexpired leases with their own request and the time left in whole milliseconds; and exactly the ones that the history calls live |
| `Remains.ExpiredIsStored` | src/registry.rs:50-70 | an expired lease is still stored exactly if no creation past the loopback check and no renewal, of any lease, has executed since with a clock reading at or after its expiry |
| `Domain.TakesMeaning` | src/registry.rs:138-140 | which requests a lease is for, written out by verb, path and the characters of the host |
| `Leases.ListingIsUnique` | src/registry.rs:116-130 | a table and a clock reading determine the listing, independent of iteration order |
| `Leases.ListAndMatchAgree` | src/registry.rs:89-131 | at one instant, matching selects exactly the listed leases whose route fits |
| `History.CreateExplained` | src/registry.rs:49-63 | a creation keeps the table explained by the history, with clock readings in any order |
| `History.RenewExplained` | src/registry.rs:68-73 | a renewal keeps the table explained by the history, with clock readings in any order |
| `History.RemoveExplained` | src/registry.rs:77-82 | a removal keeps the table explained by the history |
| `History.LazyTableIsHistory` | src/registry.rs:51-70 | the live part of the lazily pruned table is exactly the registry defined by the history, once the clock has reached every reading used |
| `History.StaleReadIsBracketed` | src/registry.rs:85-104 | a read with an old clock reading shows nothing that was not live at the reading and misses nothing that is live at the clock |
| `Pruning.LazyIsOnLive` | src/registry.rs:44-131 | one operation on the lazy table against the same operation on live leases only: same live part, and same reply except exactly for a removal of an expired lease still stored |
| `Pruning.LazyRefinesEager` | src/registry.rs:44-131 | over every run in time order, same live part and same replies as a registry that prunes at every tick, except exactly for such removals |
| `Pruning.RemovalOfExpiredLeaseSucceeds` | src/registry.rs:76-83 | a concrete run in which a removal does answer differently |
| `Pruning.ExpiredStaysExpired` | src/registry.rs:67-74 | a lease that is not live is never live again, with fresh identifiers |
| `Interleaving.RunsKeepInv` | src/registry.rs:44-83 | over every interleaving of clock readings and lock acquisitions: size limit, tie to the history, no reading from the future |
| `Interleaving.StoredExpiryIsExact` | src/registry.rs:44-74 | each stored expiry is one lifetime after the reading of the last executed creation or renewal, and at most one lifetime from now |
| `Interleaving.OnlyRemovalDropsLive` | src/registry.rs:49-77 | a lease unexpired at the real clock leaves the table exactly when a removal naming it executes |
| `Interleaving.RemovalFindsWhatRemains` | src/registry.rs:76-83 | in every interleaving, a removal succeeds exactly if the lease was created or renewed, not removed since, and no creation or renewal has executed since with a reading at or after its expiry |
| `Interleaving.RenewalSampledInTime` | src/registry.rs:67-74 | a renewal succeeds exactly when it read the clock before the stored expiry |
| `Interleaving.StaleRenewalRevives` | src/registry.rs:67-74 | exactly when a renewal with an old clock reading makes an expired lease live again |
| `Interleaving.StaleRenewalShortens` | src/registry.rs:67-74 | exactly when a renewal with an old clock reading moves an expiry backwards |
| `Interleaving.StaleRenewalRevivesWitness` | src/registry.rs:67-74 | a concrete interleaving in which an expired lease comes back |
| `Interleaving.StaleRenewalShortensWitness` | src/registry.rs:67-74 | a concrete interleaving in which a renewal moves an expiry backwards |
| `Interleaving.MatchesAreBracketed` | src/registry.rs:89-111 | over every interleaving, a match goes only to leases live at its reading and to all live at the clock |
| `Interleaving.ListedTimeWithinTtl` | src/registry.rs:113-131 | the milliseconds listed stay within the listed lifetime exactly when the listing's clock reading is less than one millisecond, minus the lifetime's own fraction of one, older than the lease's last reading, or the lifetime saturates; before rounding, exactly when it is not older |
| `Interleaving.ListedTimeExceedsTtlWitness` | src/registry.rs:113-131 | a concrete interleaving in which 3001 ms are listed for a lifetime of 3000 ms |
| `Protocol.RenewIsAThird` | src/control.rs:132-139 | `renew_after_ms` is a third of `lease_ttl_ms`, rounded down, exactly unless saturation exceeds the rounding |
| `Protocol.TwoIntervalsFit` | src/server.rs:171-176 | for every accepted lifetime the interval is at least a second, two intervals end strictly before the lifetime, and the third ends within 3 ms of it or on it |
| `Protocol.MinimumIsExact` | src/server.rs:171-176 | the least accepted lifetime is the least one whose interval is a second |
| `Registration.RegisterUntilShutdown` | src/registration.rs:35-113 | for every script of answers, the nested loops have the log and the end of the machine of phases; what both must be is stated without phases by the next five |
| `Conduct.LogIsOrderly` | src/registration.rs:55-111 | in every run: which effect follows which; each wait before a renewal lasts the interval of the lease that is renewed or given back after it; each call names the lease announced or renewed before it; nothing follows a removal that the client waits for |
| `Conduct.WaitIsTheAnswersInterval` | src/registration.rs:88-109 | whenever the client waits for its next renewal, the wait is the interval of the lease response it got last, and it holds that lease |
| `Conduct.EachAnswerIsActedOn` | src/registration.rs:55-111 | what each answer leads to, from what the client did last: shutdown, failure, lease, failed callback, renewal and failed renewal |
| `Conduct.ResultIsTheCallbacks` | src/registration.rs:80-86 | the client ends with an error exactly if it gave a lease back because its announcement failed |
| `Conduct.TimerIsTheLoggedPause` | src/registration.rs:69-95 | in every run of the lease protocol, the timer that the client sleeps on goes off as long after it began to wait as the last pause of its log says |
| `Registration.BackoffClosedForm` | src/registration.rs:53-73 | over every run, the pause after `k` earlier failures since the last registration is min(100 ms times 2^k, 5 s) |
| `Registration.DoublingIsClosedForm` | src/registration.rs:71 | one doubling with the limit advances the closed form, which never decreases |
| `Registration.NoLeaseIsForgotten` | src/registration.rs:60-120 | over every run, each lease returned is kept alive or has had its removal started: on shutdown, failed callback and failed renewal |
| `LeaseProtocol.ClientOwnsOneLease` | src/registration.rs:60-111 | in every run with crashes, losses and delays, a returned lease has had its removal started exactly when it is not the current one |
| `LeaseProtocol.LateRemovalSparesCurrent` | src/registration.rs:99-105 | a removal of an earlier lease, however late, leaves the current lease as it is |
| `LeaseProtocol.RemovalsAreSentAndServed` | src/registration.rs:80-120 | in every run, a lease given up has a removal sent to its own server at once, and a server that gets it has the lease no longer |
| `LeaseProtocol.CallsAreSent` | src/registration.rs:55-97 | whenever the client begins to wait for an answer, its call is on the way to the server of its lease or of the descriptor |
| `LeaseProtocol.NoGhostRoutes` | src/registry.rs:44-111 | one lifetime after the last clock reading that served the client, no match includes any lease it ever created, known to it or not |
| `LeaseProtocol.FailedAttemptsAreSpread` | src/registration.rs:53-73 | in every run, n >= 7 consecutive failed attempts span at least 6300 + 5000 (n - 7) ms |
| `LeaseProtocol.SpanInMillis` | src/registration.rs:15-16 | the pauses between n >= 7 attempts add up to exactly 6300 + 5000 (n - 7) ms |
| `LeaseProtocol.AttemptsInWindow` | src/registration.rs:53-73 | how many consecutive failed attempts fit into a window of time: at most 6 below 6.3 s, then 7 and one more for every further 5 s |
| `Orphans.OrphansAreFew` | src/registration.rs:53-73 | in every run in which creations are sampled within a given delay: a client that keeps failing has left at most as many live leases behind, since its last success, as attempts fit into one lifetime plus that delay |
| `Leftovers.LeftoversAreFew` | src/registration.rs:53-107 | in every such run, over any alternation of successes and failures: the live leases that the client does not know number at most (3 T + 4.7 s) / 1.7 s, where T is one lifetime plus that delay |
| `KeepAlive.KeptIsLive` | src/registry.rs:89-111 | a lease with the room the client needs is live, and matched at every clock reading up to now |
| `KeepAlive.LeaseNeverLapses` | src/registration.rs:88-96 | after any past, from the creation through any number of renewals, the lease is live, gets every request on its route, and no renewal is refused, if two timeouts, one interval and the timers' lateness fit strictly into the lifetime |
| `KeepAlive.KeepAliveIsExact` | src/control.rs:30-34 | that bound is exact: some run lapses if it fails, none if it holds |
| `KeepAlive.SlowestRunLapses` | src/registration.rs:94-96 | the run that lapses when the bound fails |
| `KeepAlive.SixSecondsAreNeeded` | src/control.rs:132-139 | any lifetime above 6 s meets the bound, 6 s does not, and timers may be late by up to 2/3 of the lifetime less 4 s |
| `Reconvergence.ReconnectsInTime` | src/registration.rs:55-133 | after any past, a running client holds a lease at a server that stays up within max(interval + 4 s, 9 s), plus the timers' lateness; the call pending at the start may fail, later calls to this server do not, and replies of earlier servers are not heard any more |
| `Reconvergence.ReconnectionIsPossible` | src/registration.rs:55-133 | and after any past, with room at the server, such a run to a lease there exists |
| `Aggregation.DispatchAll` | src/ingress.rs:119-180 | joining tasks in any order gives the number of targets, the number of answers with a status from 200 to 299, and whether a target timed out |
| `Aggregation.SummaryIsOrderFree` | src/ingress.rs:152-179 | the summary depends on the multiset of outcomes alone |
| `Aggregation.ResponseMeaning` | src/ingress.rs:182-217 | 200 exactly when under `all` every target, under `any` one, answered with a status from 200 to 299, or under `always` there is one; otherwise 504 exactly when a target timed out and 502 otherwise |
| `Aggregation.AcceptanceIsMonotone` | src/domain.rs:209-217 | a target that does better never loses acceptance; `All` implies `Any` implies `Always` |
| `Dispatch.PermitsAreConserved` | src/ingress.rs:70-154 | in every run, free permits and holders of each semaphore add up to its limit |
| `Dispatch.IngressPermitOutlivesDeliveries` | src/ingress.rs:114-116 | without a disconnect, a request gives up its ingress permit only when none of its deliveries holds one |
| `Dispatch.FanOutIsExact` | src/ingress.rs:81-150 | one task for each lease unexpired at the match whose verb, path and host fit the request and no other, at most one send each, and no task for a refused, unmatched or unreadable request |
| `Dispatch.ResponseIsAggregate` | src/ingress.rs:114-116 | in every run, a finished fan-out has one result per target and answers with the number of targets, of 2xx answers and of the others, and the status the policy makes of them |
| `Dispatch.AcceptedMeaning` | src/ingress.rs:70-117 | in every run, 200 exactly when the policy was met, or when nothing matched and that is to be accepted; and the whole answer of each request that has no delivery |
| `Forward.Ingress.Forward` | src/ingress.rs:70-117 | undisturbed from start to end: the permit is back on every path, and the whole answer of each path: status, number of targets, of 2xx answers and of the others, and reason |
| `Urgency.DeliveriesResolveInTime` | src/ingress.rs:134-148 | when time passes only while the ingress has nothing left to do, each delivery has a result within `target_timeout` of its start, waiting included |
| `Urgency.TimeIsNotBlocked` | src/ingress.rs:134-174 | such runs never stop the clock: from every world, the ingress on its own gets to a settled world at any later time |
| `Urgency.FanOutEndsInTime` | src/ingress.rs:152-174 | in every such run, from every reachable world, a joining request is answered or its client gone within one `target_timeout` from now, however many targets and competitors it has |
| `Urgency.JoiningFinishes` | src/ingress.rs:152-174 | and from every reachable world such a run exists without help from any target or client |
| `Deadlines.FanOutTerminates` | src/ingress.rs:154-174 | from any reachable world, a fan-out to n targets takes at most 4n more steps |
| `Deadlines.WaitersHaveSenders` | src/ingress.rs:134-138 | no permit is idle while a task waits: it can take one, or some task holds one |
| `Deadlines.SentUnlessTimedOut` | src/ingress.rs:134-148 | in every run, a delivery with another result than a timeout was sent exactly once |
| `Capacity.EveryTargetAttempted` | src/ingress.rs:130-150 | every target of every finished request was sent it exactly once, in every run in which time passes only while the ingress has nothing left to do and with a registry of at most `n` leases, if and only if the request limit times `n` is at most the delivery limit |
| `Capacity.NobodyWaitsWithinCapacity` | src/ingress.rs:134-138 | no time passes while a task waits, as long as no more tasks contend than there are permits |
| `Capacity.TooFewPermits` | src/ingress.rs:134-138 | for all limits below that: a run that finishes a request with a target never sent it, and accepts the request under `always` |
| `Capacity.AlwaysWithoutAttempt` | src/ingress.rs:134-138 | the same for one permit, one request and two targets |
| `EndToEnd.HeldLeaseGetsEachRequest` | src/ingress.rs:83-150 | in every run of servers, client and traffic together: a request on the route of a lease that its client keeps alive, matched at any time after the creation, is never answered for want of targets, and if it reaches dispatch it has exactly one delivery to that lease, with the client's own target |
| `Headers.ForwardedHeaders` | src/ingress.rs:264-288 | the removal loops, in any order of the listed names, compute the specified headers |
| `Headers.ForwardingMeaning` | src/ingress.rs:264-288 | which headers arrive, with which values in which order: all but the ten named ones and those that a readable `Connection` line lists in any letter case; `Host` exactly when it is asked for and known |
| `Headers.LineNamesSpelledOut` | src/ingress.rs:290-298 | the names of a line without splitting, trimming or parsing: those between commas, with blanks around them, that are field names, in small letters |
| `Headers.EffectiveHostMeaning` | src/ingress.rs:219-236 | the authority of the target wins over the first readable `Host` header |
| `Headers.ForwardingIsIdempotent` | src/ingress.rs:264-288 | forwarding what was forwarded changes nothing |
| `Headers.ConnectionListRoundTrip` | src/ingress.rs:290-298 | a list of names written with any case, white space and empty elements is read back as exactly the lower-case names |
| `Headers.CombiningLinesIsExact` | src/ingress.rs:290-298 | several `Connection` lines mean the one joined line exactly when all are readable or none lists a name |
| `Headers.CombiningLosesNames` | src/ingress.rs:290-298 | a concrete pair of lines, one of them unreadable, whose names are lost when they are joined |
| `Routing.PreservedHostIsTheLeaseHost` | src/ingress.rs:223-262 | a host-scoped delivery that preserves the host carries one `Host` with the characters of the lease's host, but for capitals |
| `Lifecycle.OneServerOwnsTheInstance` | src/server.rs:38-41 | in every run with crashes, at most one process holds the lock, and a descriptor is the holder's or a crashed process's |
| `Lifecycle.RemovalsAreOwn` | src/server.rs:113-119 | a graceful exit removes its own descriptor, and a start replaces only a crashed process's |
| `Lifecycle.StopIsSound` | src/cli.rs:317-333 | a stop command that sees the file gone: the server it asked has ended both tasks or crashed, whatever other servers did |
| `Lifecycle.TasksEndBeforeRemoval` | src/server.rs:109-115 | in every run, a server cancels its tasks before it waits for them, and has waited for both before it removes its descriptor |
| `Lifecycle.AwaitStop` | src/cli.rs:324-332 | the polling loop ends at the first poll that finds no file, or at the first one at or after the deadline that finds it |
| `Stopping.StopReturnsBeforeExit` | src/server.rs:115-124 | a concrete run in which a stop command has returned while the server still holds the lock |
| `Stopping.StopCanReturnEarly` | src/cli.rs:317-333 | from every reachable world in which a stop command polls: some continuation lets it return while its server still holds the lock if and only if that server is alive |
| `Stopping.PollReturnsEarly` | src/server.rs:113-124 | and if it is, a continuation without crash or failed task does |
| `Runtime.InstanceDirectory.WriteDescriptor` | src/runtime.rs:74-99 | when it succeeds and with which error it fails; a temporary file stays behind exactly if it was created, could not be used and could not be removed; on failure the old descriptor stays, except exactly where a rename cannot replace and fails after the removal |
| `Server.Server.Serve` | src/server.rs:36-125 | undisturbed from start to end: the lock is as before, no listener runs, tasks were cancelled if they ever started, its own descriptor is gone unless it cannot be removed, a failed start leaves the old one except where it cannot be replaced, and success exactly if it was stopped from outside and no awaited task failed |

## Left out

- HTTP serving and clients, TLS, JSON, logging and argument parsing: a control call or a delivery is an outcome that takes time.
- The grammars of URLs, authorities, methods and paths, and `with_query`: their values are given, and whether a target is a loopback address is a flag.
- The limit of the HTTP library on the length of a header field name: names of any length are read.
- UUID generation: identifiers are fresh by assumption where that matters (`newId !in used`, no later creation with the identifier).
- Overflow of `Instant` addition: time is unbounded.
- The mapping of registry errors to control API statuses, and the bearer check: single branches.
- Which event `serve` sees first when several are ready, and whether a task ends before it is looked at: given to `Server.Server.Serve`, so which error is reported is not decided.
- Directory permissions, ownership checks, symbolic links, tampering with the state directory from outside, and in `Lifecycle` a failing removal of the descriptor.
- Fairness of the semaphores and of `select!`: every order within an instant is possible in the model, so no progress beyond timeouts is claimed.
- The moment at which tokio drops an aborted task: it may come at any later step, and in `Urgency` and `Capacity` at any step before time passes.
- Interference in `Runtime`, `Server` and `Forward`: their methods run undisturbed; other processes and crashes are in `Lifecycle`, other requests and disconnects in `Dispatch`.
- `Registration.RegisterUntilShutdown` takes its answers from a script and has no clock of its own; time and the network are in `LeaseProtocol`.
