# A verified model of ncro

ncro routes Nix binary-cache requests: it looks a narinfo up in its caches, races
its upstreams for it when they miss, rewrites the NAR URL it passes on, and later
serves the NAR from wherever it is. An upstream may itself be an ncro node, in any
topology. This project models that behaviour in Dafny and proves properties of it.

`dafny verify dfyconfig.toml` checks everything.

## Modules

- `Protocol`: the lookup protocol over a network of nodes, as a state machine, with
  what one step changes (`Steps`) and runs put together from it (`Runs`). On it stand
  `Progress` (no deadlock), `Work` (bounded work and races, completion), `Circles` (when
  re-fetches are bounded too), `SingleFlight` (locks, waiters, permits, gates, nested
  races), `OneRace` (when there is one race per hash) and `Witnesses` (what gates per hop
  are for).
- `CacheLayers` and `Outcomes`: the four layers that `resolve_cached` reads, what
  `commit_winner` and a remembered miss leave in them, and for how long that answers;
  `Histories` has the runs of the protocol that follow them.
- `Race` and `RaceOutcomes`: one race from the inside, as the code's nested loops over
  priority groups with a cooldown table, and what its verdict says about the upstreams.
- `TtlCaches`, `RouteTable`, `Staleness`: the in-memory LRU, the tables under it, and
  the age of what the two together serve.
- `Text`, `Base32`, `Narinfo`, `NarUrl`, `Rewrite`, `Wildcard`, `Filter`: the narinfo
  text, its hashes, its URLs, the rewriting of bodies, and the filter rules.
- `Hedge`: serving a NAR from several upstreams.
- `Gossip`, `Discovery`, `Health`: mesh merges, discovered peers, latency averages.
- `Wrappers`, `Ordering`: options and results; sorted keys.

Methods and classes stand for code that changes state step by step, and each is
proved against a function or relation on values. The lemmas are about those.

Time is a `nat` or `int`; strings are sequences of characters; latencies are reals,
except in the route table, where the floats that matter to a merge are spelled out
(`F64`). What upstreams reply, in what order tasks end and when timers fire is left
open at every point. Ed25519 is an arbitrary predicate on fingerprint and signature.
Limits are at least one and alpha lies strictly between 0 and 1, as
`crates/config/src/lib.rs:1410-1485` checks.

## Where a protocol step begins and ends

Every wait for another task is a step boundary of `Protocol`: the lock, the permit,
the gate, the next attempt to end, a request to an upstream. So are the beginning and
the end of reading the caches (`Look`, `Hit`, `Missed`), and the reading of a stored
route (`Read`). In between `resolve_cached` awaits the database and the health table
several times; `CacheLayers` has those readings one by one, each with its own moment,
and `Outcomes.ListedKeysAnswer` shows what the protocol relies on: as long as an
outcome stands from the first reading to the last, the lookup does not find nothing.
If it stops standing in between, `Missed` is open to the lookup; the bit that decides
this in the protocol is exactly that (`Outcomes.AnsweredIff`).

Four stretches with awaits in them are one step each. Between fetching a narinfo and
filling the memory cache, `commit_winner` awaits the health and route tables
(`Accept`); between the two caches of misses, `resolve` awaits the table (`Return`);
the filter re-check and the re-fetch of a cached route end with writes (`Hit`). Those
awaits wait for no lookup, so they cannot take part in a deadlock and add no request.
A lookup may `Hit` whether or not an outcome is listed, and a route may be stored at any
time (`Store`), so that seeing a part of such a step early is a run as well.

## What was found

Where a promise does not hold of the code, the code is modelled as it is, and it is
proved when the promise does hold:

- `wildcard_match` decides a pattern correctly for every value if and only if it has
  no `*` or ends with one. Every other pattern, such as the documented `*-source`,
  refuses some value that it should match (`Wildcard.GreedyIsGlobIff`).
- Rewriting a body keeps its meaning if and only if the rewritten URL does not end in
  a `\r` on a line that ends in a bare `\n`. URLs without `\r` are safe; in ToSelf
  mode a path that ends in `\r` before a query is not (`Rewrite.RewriteKeepsMeaning`,
  `Rewrite.WhenCrIsLost`, `Rewrite.CrCanBeLost`).
- A served narinfo is younger than twice `route_ttl` in every run if and only if no
  lookup is suspended past the moment of its reading; otherwise the bound
  2 * ttl + 2 * delay - 2 is met (`Staleness.YoungerThanTwoTtlsIff`).
- `UpstreamUnavailable` means that no miss was seen if and only if no two candidates
  share a priority (`RaceOutcomes.UnavailableIsHonestIff`).
- The per-hash lock gives one client race per hash and node as long as no lookup for it
  is stranded: left with a lock that newcomers will not find, and with no outcome to reuse
  (`OneRace.OneRacePerKey`). That happens when a lock is given up before a waiter while
  nothing is cached, or when the outcome is forgotten before the waiter has reused it. With
  a second free permit, the stranded lookup and a newcomer can then race together
  (`OneRace.StrandingLeadsToTwoRaces`, `OneRace.TwoRacesForOneHash`,
  `OneRace.TwoRacesOnceForgotten`).
- A key stays in the inflight map without a lookup exactly when the only lookup that has
  to do with its lock is cancelled while it waits (`SingleFlight.EntryLeaksIff`).
- Hops bound the races, over any peer graph and in every run (`Work.RacingIsBounded`,
  `Work.RacesAreBounded`), but not the re-fetches of cached routes, which at the last hop
  resend the same hop. With them a request costs a fixed number of steps if and only if
  no routes that are stored lead round in a circle, from node to node for one hash, and
  then the peer graph alone fixes it (`Circles.CostIsFixedIff`). Otherwise one request can
  go round it without end.
- All orders of a list of announcements leave a path with the same rank if and only if
  those of latency -0.0 are of one age and none of 0.0 is younger: -0.0 passes the
  merge's filter, `>` and `total_cmp` disagree on it, and the table gives it back as
  0.0 (`Gossip.OrderIsIrrelevantIff`).
- The status is that of the failures in a row if and only if they are fewer than ten or
  leave at least ten modulo 2^32 (`Health.StatusIsHonestIff`).
- A hedged fetch leaves its select without a branch if and only if hedging is disabled
  and an attempt panics before the last candidate's turn (`Hedge.HedgedNar`, outcome
  `NoBranch`). The release profile aborts on any panic, so this concerns other builds.

Where the documentation and the code differ, the model follows the code: `README.md:139`
and `docs/configuration.md:206` call eviction LRU, but it goes by `last_verified`;
`README.md:148` has all upstreams raced in parallel, but the race goes by priority
group; `docs/configuration.md:221` limits requests per upstream, but a gate is per
upstream and hop, and covers the HEAD requests only.

## Model

| member | source | states |
|---|---|---|
| Protocol.InvStep | crates/router/src/lib.rs:450-862 | every action of every node, taken in any order, keeps the protocol's invariant: hops, parents, locks, attempts and requests fit together |
| Protocol.InvRun | crates/router/src/lib.rs:450-862 | so it holds after every run from the empty network |
| Progress.HopsRise | crates/router/src/lib.rs:104-130 | a request is received at a strictly higher hop than it was sent at, except at the last one |
| Progress.WaitsAreUpward | crates/router/src/lib.rs:842-857 | with gates per (upstream, hop), whatever a live task waits for (lock, permit, gate, attempt, reply) is live and of higher rank, or of the same rank and later |
| Progress.MovesOrWaits | crates/router/src/lib.rs:611-816 | every live task has an enabled step of its own or is blocked on a definite other task |
| Progress.SomeoneMoves | crates/router/src/lib.rs:611-857 | from every live task the chain of waits ends at one that can move without a timeout and without a re-fetch |
| Progress.DeadlockFree | crates/router/src/lib.rs:450-862 | on any peer graph, in every reachable state with an unfinished lookup, a step is enabled that is no timeout, cancellation, new request or last-hop re-fetch |
| Work.PaidStepIsLighter | crates/router/src/lib.rs:611-816 | every step but new requests, cache expiry and last-hop re-fetches makes the network's total weight smaller |
| Work.UpperStepIsLighter | crates/router/src/lib.rs:450-461 | what is done at the last hop adds nothing to the weight before it, and a step before it takes from that |
| Work.RacingIsBounded | crates/router/src/lib.rs:450-461 | over any run and peer graph, with any re-fetches, the steps before the last hop plus the weight left there are at most the starting weight there and a fixed cost per request from outside |
| Work.RacesAreBounded | crates/router/src/lib.rs:450-461 | from the empty network, a run has at most a fixed number of lookups that race per request from outside |
| Work.FanOutIsBounded | crates/router/src/lib.rs:450-461 | over any run and peer graph, all steps taken plus weight left are at most the starting weight, a fixed cost per request from outside, and six per last-hop re-fetch |
| Work.RequestsAreBounded | crates/router/src/lib.rs:450-461 | from the empty network, a fixed number of steps before the last hop per request from outside, and of all steps but for six per last-hop re-fetch |
| Work.EveryLookupCompletes | crates/router/src/lib.rs:450-503 | from any invariant state there is a run without timeouts or cancellation after which every lookup is done, no longer than the weight |
| Work.EveryScheduleCompletes | crates/router/src/lib.rs:450-503 | every run without them has at most as many steps as weight and six per last-hop re-fetch, and has left no lookup undone once nothing else is enabled |
| Circles.RefetchesAreBounded | crates/router/src/lib.rs:520-571 | if every route that is ever stored leads to a node of lower rank for its hash, the re-fetches are at most a fixed number per request from outside |
| Circles.StepsAreBounded | crates/router/src/lib.rs:450-609 | and so are all steps of the network |
| Circles.ShortCircles | crates/mesh/src/lib.rs:262-286 | a node's stored route to itself is a circle, and so are two nodes' routes to each other |
| Circles.AnnouncedToItself | crates/mesh/src/lib.rs:262-286 | a usable route to a peer that this peer hears, and knows no better one than, is stored in its table as a route to itself, a circle |
| Circles.RefetchesChain | crates/router/src/lib.rs:520-571 | with a circle of routes stored, a last-hop lookup for one of its keys can be followed by any number of re-fetches, with no other request and no other change to the caches |
| Circles.RefetchesAreUnbounded | crates/router/src/lib.rs:1006-1012 | for every circle, of any length, there are runs in which one request costs any number of steps |
| Circles.CostIsFixedIff | crates/router/src/lib.rs:450-609 | for every peer graph and any routes, finitely many or not, a request costs a fixed number of steps in all runs that store no others if and only if there is no circle among them; the number depends on the peer graph alone |
| SingleFlight.OneHolderPerLock | crates/router/src/lib.rs:464-489 | in every run each lock has at most one holder |
| SingleFlight.OnlyHoldersRemove | crates/router/src/lib.rs:247-259 | an inflight entry goes away only in a step of a lookup for that key that holds that very lock |
| SingleFlight.InflightIsLive | crates/router/src/lib.rs:247-259 | in runs that cancel no lookup which waits for a lock of its own making, the lookup that made an entry is on its way, and the map is empty when none is unfinished |
| SingleFlight.EntryLeaksIff | crates/router/src/lib.rs:247-259 | a step leaves a used entry without any lookup that waits for its lock or holds it if and only if it cancels the only one, while that waits |
| SingleFlight.InflightIsUsed | crates/router/src/lib.rs:247-259 | so in every run without such a step for a key, its entry is in use, and gone when no lookup is unfinished |
| SingleFlight.WaitersReuse | crates/router/src/lib.rs:484-503 | while an outcome stands no lookup of its key on its node begins to race that begins to read the caches from then on |
| OneRace.KeptStep | crates/router/src/lib.rs:464-503 | as long as no lookup for a key is stranded, whoever is on its way under a lock that is not listed finds an outcome; other keys do not matter |
| OneRace.OneRacePerKey | crates/router/src/lib.rs:464-503 | in every run that strands no lookup for a key, the key has at most one client race on its node |
| OneRace.OutcomeEndsRaces | crates/router/src/lib.rs:484-503 | a client's race that leaves an outcome, in a run that stranded no lookup for its key until then, is the last client race for its key and node while the outcome stands |
| OneRace.StrandingLeadsToTwoRaces | crates/router/src/lib.rs:247-259 | after any step that strands a lookup with candidates, with a second free permit, some continuation has two client races for its key |
| OneRace.TwoRacesForOneHash | crates/router/src/lib.rs:464-489 | such a run from the empty network, by a lock given up with nothing cached |
| OneRace.TwoRacesOnceForgotten | crates/router/src/lib.rs:464-503 | and one by an outcome forgotten before the waiter reused it |
| SingleFlight.RacesNestTwice | crates/router/src/lib.rs:450-461 | on any peer graph a chain of lookups that each raced has length at most two |
| SingleFlight.LimitsHold | crates/router/src/lib.rs:842-857 | no run has more client races on a node than permits, or more HEAD requests in a gate than its size |
| Witnesses.SharedGatesDeadlock | crates/router/src/lib.rs:842-857 | with one gate per upstream instead, two nodes reach a state that only timeouts, cancellation or new requests lead out of |
| Race.Racer.constructor | crates/router/src/lib.rs:265-295 | a racer with the given priorities, window and cooldown table |
| Race.Racer.InCooldown | crates/router/src/lib.rs:826-833 | whether the upstream cools down now; an entry whose time is up is dropped |
| Race.Racer.MarkCooldown | crates/router/src/lib.rs:835-840 | exactly this upstream is marked, for a full window from then on |
| Race.Racer.CooldownFiltered | crates/router/src/lib.rs:818-824 | the candidates not cooling down, in order, and which entries remain |
| Race.Racer.RaceGroup | crates/router/src/lib.rs:724-816 | the winner is the first attempt that has the path; else NotFound, NetworkError or Timeout say exactly what was seen; exactly the unreachable are marked |
| Race.Racer.CommitWinner | crates/router/src/lib.rs:664-698 | whatever committing the winner brings, a mark exactly for an unreachable one; what it brings is CacheLayers.Router.CommitWinner's |
| Race.Racer.TryGroup | crates/router/src/lib.rs:659-704 | the rounds of one group: it ends with a final round, a lost one or nobody left, and `missed` is set exactly when a round proved a miss |
| Race.Racer.GroupByPriority | crates/router/src/lib.rs:642-655 | each priority's candidates in order, those without a health record under the largest number |
| Race.Racer.RaceGroups | crates/router/src/lib.rs:657-720 | the verdict is the one that the rounds amount to |
| Race.Racer.Race | crates/router/src/lib.rs:611-720 | NoCandidates exactly for no candidates; else a race over the effective candidates by ascending priority, with its verdict, and a cooldown table that gains exactly the upstreams that failed |
| RaceOutcomes.VerdictIsGrounded | crates/router/src/lib.rs:657-720 | an accepted upstream was seen to have the path and committed; NotFound rests on a miss or an unacceptable narinfo of some candidate |
| RaceOutcomes.StableRaceIsExact | crates/router/src/lib.rs:657-720 | with stable replies, no deadline and no database error: accepted is a good one of the first group with any; NotFound exactly if there is none but a miss; UpstreamUnavailable exactly if neither |
| RaceOutcomes.GoodCandidateIsAccepted | crates/router/src/lib.rs:630-720 | so one good effective candidate forces acceptance, of a good one with no larger priority number |
| RaceOutcomes.UnavailableIsHonestIff | crates/router/src/lib.rs:657-720 | UpstreamUnavailable implies that no miss was seen, over all races, if and only if every group has one candidate |
| CacheLayers.Router.constructor | crates/router/src/lib.rs:284-288 | empty memory caches with the configured times over the given tables |
| CacheLayers.Router.ResolveCached | crates/router/src/lib.rs:505-518 | NotFound exactly for an unexpired remembered miss, else what the cached route gives; and what reading changes in every layer |
| CacheLayers.Router.ValidCachedRoute | crates/router/src/lib.rs:520-609 | the live memory entry or else the valid row of an upstream that is not Down, if the filters accept the narinfo held or fetched anew; a refused entry is dropped, a hit from the table fills memory, a new narinfo is written back |
| CacheLayers.Router.CommitWinner | crates/router/src/lib.rs:864-952 | the reply exactly by fetch, parse, signature and filter; row and memory entry exactly for a good one, nothing otherwise |
| CacheLayers.Router.RememberMiss | crates/router/src/lib.rs:491-498 | the miss is in memory and in the table, each for its own time |
| Outcomes.ResponseIsChecked | crates/router/src/lib.rs:987-1021 | the filters decide on the rewritten narinfo in memory as on the one that was sent |
| Outcomes.HitIff | crates/router/src/lib.rs:520-609 | whatever is left of a commit, a lookup hits exactly while its time is not up, the filters accept it, and memory holds it or its row is there and its upstream not Down |
| Outcomes.AcceptedAnswersUntil | crates/router/src/lib.rs:917-952 | so from any commit on, over any history that writes nothing new for the hash |
| Outcomes.WhyItGoes | crates/router/src/lib.rs:161-185 | an entry leaves memory only by invalidation, lookup after its time, or as the least recently used of too many; a row leaves the table only by expiry or an evicting write |
| Outcomes.RememberedAnswersUntil | crates/router/src/lib.rs:491-518 | a remembered miss answers exactly until it is gone from, or out of date in, both memory and the table |
| Outcomes.StandingOutcomeAnswers | crates/router/src/lib.rs:505-609 | a lookup whose readings fall at any seven moments gets an answer if one outcome stands at each of them |
| Outcomes.ListedKeysAnswer | crates/router/src/lib.rs:505-609 | whoever begins to read while an outcome stands, and ends before it is forgotten, does not find nothing |
| Outcomes.ActionsAreBitSteps | crates/router/src/lib.rs:484-503 | every protocol step, for every key: its outcome is remembered exactly by the races that leave one, keeps its stamp, and is forgotten by `Forget` alone |
| Outcomes.AnsweredIff | crates/router/src/lib.rs:505-609 | over any history, what a lookup saw in the protocol when it began to read still stands exactly if an outcome stood in the layers all the time since |
| Outcomes.NothingMayMiss | crates/router/src/lib.rs:484-489 | a lookup that finds nothing in the layers may take the protocol's miss |
| Histories.EveryHistoryIsFollowed | crates/router/src/lib.rs:464-503 | for every history of the layers there is a run of the protocol from the empty network, with a race for every outcome that begins to be stored, whose states follow it |
| Outcomes.CommitStands | crates/router/src/lib.rs:917-952 | an accepted narinfo begins to stand, unless its row is evicted right away |
| Outcomes.RememberStands | crates/router/src/lib.rs:491-498 | a remembered miss begins to stand |
| TtlCaches.TtlCache.constructor | crates/router/src/lib.rs:153-159 | an empty cache, of capacity at least one |
| TtlCaches.TtlCache.Get | crates/router/src/lib.rs:161-170 | the new contents and the entry if it is younger than the ttl; an older one is dropped |
| TtlCaches.TtlCache.Insert | crates/router/src/lib.rs:172-179 | the new contents, without the least recently used key if there are too many |
| TtlCaches.TtlCache.Invalidate | crates/router/src/lib.rs:181-185 | the new contents, without the key |
| TtlCaches.RunIsSound | crates/router/src/lib.rs:145-186 | after any operations the size is within the capacity and every entry is the latest insert of its key that was not invalidated |
| TtlCaches.LookupIsSound | crates/router/src/lib.rs:161-170 | a lookup only returns the latest insert not invalidated since and younger than the ttl |
| TtlCaches.SparedKeyStays | crates/router/src/lib.rs:172-179 | a live key is not evicted while fewer than `capacity` distinct other keys are touched between touches of it |
| TtlCaches.SparedKeyIsFound | crates/router/src/lib.rs:161-179 | and is found exactly until its ttl is over |
| Staleness.StalenessIsBounded | crates/router/src/lib.rs:520-609 | over every interleaving of commits, hits and re-fetches, a served narinfo is at most 2 * ttl + 2 * delay - 2 old |
| Staleness.BoundIsMet | crates/router/src/lib.rs:520-609 | a run that serves one of exactly that age |
| Staleness.YoungerThanTwoTtlsIff | crates/router/src/lib.rs:520-609 | every served narinfo of every run is younger than 2 * ttl if and only if the longest suspension is zero |
| RouteTable.Db.Open | crates/db/src/lib.rs:85-134 | the stored tables, with the write count at zero |
| RouteTable.Db.GetRoute | crates/db/src/lib.rs:139-152 | the row of a store path, expired or not |
| RouteTable.Db.GetRouteByNarUrl | crates/db/src/lib.rs:157-171 | some unexpired row with that NAR URL, exactly if there is one |
| RouteTable.Db.SetRoute | crates/db/src/lib.rs:176-217 | the row is replaced, as a REAL column and a signed integer give it back, and every 100th write evicts |
| RouteTable.Db.EvictIfNeeded | crates/db/src/lib.rs:366-377 | exactly the excess is removed, and nothing removed was verified after anything kept |
| RouteTable.Db.ExpireOldRoutes | crates/db/src/lib.rs:222-229 | exactly the rows whose ttl is past are removed |
| RouteTable.Db.SetNegative | crates/db/src/lib.rs:265-280 | the miss is remembered for its ttl |
| RouteTable.Db.IsNegative | crates/db/src/lib.rs:285-298 | whether an unexpired miss is remembered |
| RouteTable.Db.ExpireNegatives | crates/db/src/lib.rs:303-310 | exactly the misses whose time is past are removed |
| RouteTable.RowsAreBounded | crates/db/src/lib.rs:176-217 | within one process started with r0 rows there are never more than max(r0, max) + 99, and at most max after each 100th write |
| Wildcard.WildcardMatch | crates/router/src/lib.rs:1296-1324 | the loop computes the greedy placement of the parts |
| Wildcard.GlobIsGlobParts | crates/router/src/lib.rs:1296-1324 | the parts between the stars mean what the pattern means |
| Wildcard.LeftmostIsBest | crates/router/src/lib.rs:1305-1321 | taking each part at its leftmost place succeeds wherever some placement does |
| Wildcard.GreedyIsSound | crates/router/src/lib.rs:1296-1324 | whatever is taken matches the pattern |
| Wildcard.GreedyIsComplete | crates/router/src/lib.rs:1296-1324 | for patterns without a star or with one at the end, whatever matches is taken |
| Wildcard.GreedyMisses | crates/router/src/lib.rs:1323-1323 | for every other pattern there is a value that matches and is refused |
| Wildcard.GreedyIsGlobIff | crates/router/src/lib.rs:1296-1324 | so the matcher decides a pattern if and only if it has no star or ends with one |
| Filter.UpstreamAllowsNarinfo | crates/router/src/lib.rs:954-985 | allowed exactly if no deny rule matches and, if there are allow rules, one does; the order of rules does not matter |
| Base32.Encode | crates/narinfo/src/lib.rs:54-73 | the loop produces the digits from the most significant down |
| Base32.DigitIsPositional | crates/narinfo/src/lib.rs:63-70 | the shifted, or-ed and masked bytes are the five bits at that place of the little-endian number |
| Base32.EncodedIsPositional | crates/narinfo/src/lib.rs:50-73 | the text has ceil(8n/5) digits of Nix's alphabet and read as a base-32 number it is the bytes' little-endian value |
| Base32.DecodeInverts | crates/narinfo/src/lib.rs:50-73 | a decoder gives back exactly the bytes, and accepts only encodings |
| Base32.EncodedIsInjective | crates/narinfo/src/lib.rs:50-73 | different bytes have different texts |
| Narinfo.ParseNarInfo | crates/narinfo/src/lib.rs:158-202 | the loop over lines computes the parse, with the same errors |
| Narinfo.VerifyFingerprint | crates/narinfo/src/lib.rs:240-265 | true exactly if some signature line under the key's name holds for the fingerprint |
| Narinfo.NormalizeSpelling | crates/narinfo/src/lib.rs:82-97 | hex in either case and base32 spellings of a digest have one normal form |
| Narinfo.NormalizeIsIdempotent | crates/narinfo/src/lib.rs:82-97 | normalising twice is normalising once |
| Narinfo.FingerprintIsCanonical | crates/narinfo/src/lib.rs:207-227 | narinfos that differ in the spelling of the digest have one fingerprint exactly if it is one digest |
| Narinfo.FingerprintIsInjective | crates/narinfo/src/lib.rs:207-227 | without separators in the fields, equal fingerprints mean equal path, hash, size and prefixed references |
| NarUrl.CanonicalKeepsExtension | crates/router/src/lib.rs:1206-1235 | a minted path promises the same compression, and canonicalising twice is once |
| NarUrl.CanonicalRoundTrip | crates/router/src/lib.rs:1237-1242 | the store hash is read back from every minted path, with and without a leading slash |
| NarUrl.HandlerFindsStoredKey | crates/server/src/lib.rs:843-857 | the key that the NAR handler looks up for a rewritten URL is the stored one; in ToSelf mode the URL is that key |
| Rewrite.RewriteNarinfoUrl | crates/router/src/lib.rs:1157-1185 | the loop rewrites exactly the URL lines and keeps every line ending |
| Rewrite.PiecesOfGlue | crates/router/src/lib.rs:1170-1182 | what the parser reads from glued lines is the lines, but for a `\r` before a bare `\n` |
| Rewrite.RewriteParses | crates/router/src/lib.rs:1157-1185 | for every body, the rewritten one parses with the same error or the same fields but the URL, read from its last URL line |
| Rewrite.RewriteKeepsMeaning | crates/router/src/lib.rs:1157-1204 | it fails exactly when the body does, and is the body with the URL rewritten if and only if that loses no `\r` |
| Rewrite.WhenCrIsLost | crates/router/src/lib.rs:1187-1222 | ToUpstream never loses one, ToSelf only with a `\r` in the extension |
| Rewrite.CleanUrlsKeepTheirMeaning | crates/router/src/lib.rs:1157-1204 | for URLs without `\r` the meaning is kept |
| Rewrite.CrCanBeLost | crates/router/src/lib.rs:1157-1185 | for every store hash there is a body that loses one |
| Rewrite.RewriteKeepsTrust | crates/router/src/lib.rs:954-985 | fingerprint, signature result and filter decision do not change, whatever the mode |
| Rewrite.ClientUrlIsStoredKey | crates/server/src/lib.rs:843-857 | a client that reads the narinfo it was sent and asks for its URL is looked up under the stored key, which names the store hash |
| Hedge.HedgedNar | crates/server/src/lib.rs:703-779 | attempts start once each in queue order; at most `max_inflight` GETs are out; a HEAD asks everybody; started = failed + panicked + cancelled + the winner; it wins with the first response, and fails only after everybody failed; no branch if and only if hedging is off and an attempt panics before the last candidate's turn |
| Hedge.StartAll | crates/server/src/lib.rs:724-738 | a hedged HEAD leaves nobody waiting |
| Hedge.StallsIff | crates/server/src/lib.rs:744-747 | when nobody is out, somebody still waits exactly in that case |
| Hedge.Fails | crates/server/src/lib.rs:761-767 | a failed attempt is replaced by the next candidate, and 2 * waiting + out gets smaller |
| Hedge.ByPriority | crates/server/src/lib.rs:797-806 | the eligible upstreams of each priority, in order |
| Hedge.WithPaths | crates/server/src/lib.rs:809-833 | exactly the usable upstreams of a group, in order |
| Hedge.HedgeCandidates | crates/server/src/lib.rs:789-837 | reversed, the list is exactly the usable upstreams by priority and then in list order |
| Hedge.DirectQueue | crates/server/src/lib.rs:912-914 | popping the best and dropping opt-outs keeps the order |
| Hedge.ServeRouted | crates/server/src/lib.rs:858-895 | the routed upstream first, and alone without a readable narinfo |
| Hedge.ServeDirect | crates/server/src/lib.rs:902-927 | the best usable upstream first, and nobody exactly if nobody is usable |
| Hedge.ServeNar | crates/server/src/lib.rs:839-927 | no upstream is asked twice; all but the first are up, agreed to hedging and come by priority; the first is the routed one, or the best |
| Gossip.MergeRoutes | crates/mesh/src/lib.rs:262-286 | with room in the table, merging in place is the fold of single merges; in any case every row is an old one or a usable announcement for its path |
| Gossip.MergeKeepsBest | crates/mesh/src/lib.rs:262-286 | from consistent announcements each path ends with the lexicographic best of the stored and the announced, as it is stored |
| Gossip.NodesConverge | crates/mesh/src/lib.rs:262-286 | nodes that know the same ranks for a path, from consistent announcements, end with the same rank, whenever and however they heard |
| Gossip.OrderDoesNotMatter | crates/mesh/src/lib.rs:262-286 | order and repetition of consistent announcements do not matter |
| Gossip.OrderIsIrrelevantIff | crates/mesh/src/lib.rs:262-286 | all orders of a list of usable announcements leave a path with the same rank if and only if those of -0.0 are of one age and none of 0.0 is younger |
| Gossip.LatencyNeverRises | crates/mesh/src/lib.rs:262-286 | no merge of any routes raises a stored latency |
| Gossip.NegativeZeroDiverges | crates/mesh/src/lib.rs:268-277 | a 0.0 and an older -0.0 whose order decides which age is stored |
| Gossip.MeshAgrees | crates/mesh/src/lib.rs:319-342 | over any gossip run with loss, delay and repetition, a best rank consistent with all others is never beaten, is kept, and is held by whoever hears it once |
| Discovery.NamesAreTheLive | crates/discovery/src/lib.rs:32-72 | the known peers are exactly those whose last announcement no cleanup since found too old, with those addresses |
| Discovery.Peers.constructor | crates/discovery/src/lib.rs:23-29 | no peers, nothing owned |
| Discovery.Peers.AddNew | crates/discovery/src/lib.rs:44-49 | new addresses are tracked, owned unless tracked before, and known ones keep their records |
| Discovery.Peers.Resolve | crates/discovery/src/lib.rs:32-59 | tracked stays configured plus advertised and owned stays advertised minus configured, through shared and changing addresses |
| Discovery.Peers.ExtractStale | crates/discovery/src/lib.rs:61-67 | exactly the peers seen too long ago are taken out, with all their addresses |
| Discovery.Peers.Expire | crates/discovery/src/lib.rs:61-71 | the same sets afterwards, and no record is touched |
| Discovery.Peers.Release | crates/discovery/src/lib.rs:74-85 | a URL is dropped exactly if it is tracked, not configured and advertised by nobody |
| Discovery.Peers.ReleaseAll | crates/discovery/src/lib.rs:56-58 | so for any list of URLs, with repetitions |
| Discovery.RunDiscovery | crates/discovery/src/lib.rs:102-165 | after any events the prober tracks exactly the configured upstreams and the live peers' addresses; configured ones are never removed and keep their records |
| Health.EmaStaysInHull | crates/health/src/lib.rs:157-187 | after any samples and failures the average lies between the least and the greatest value it was made from |
| Health.EmaIsWeightedSum | crates/health/src/lib.rs:164-170 | the average is the weighted sum of its values |
| Health.WeightIsClosed | crates/health/src/lib.rs:164-170 | the weights are alpha (1 - alpha)^(age), and (1 - alpha)^(n - 1) for the first value |
| Health.WeightsSumToOne | crates/health/src/lib.rs:164-170 | the weights sum to one |
| Health.EmaContracts | crates/health/src/lib.rs:164-170 | k samples of one value shrink the distance to it by exactly (1 - alpha)^k |
| Health.FailuresLeaveEma | crates/health/src/lib.rs:189-208 | failures anywhere leave average and count as they would be without them |
| Health.StatusCountsFailures | crates/health/src/lib.rs:349-355 | the status is always that of the failures in a row, counted modulo 2^32 |
| Health.StatusIsHonestIff | crates/health/src/lib.rs:189-208 | the status is that of the failures in a row if and only if they are fewer than ten or leave at least ten modulo 2^32 |
| Health.StoredFailuresWrap | crates/health/src/lib.rs:128-147 | an upstream seeded with 2^32 - 1 failures or more is Down, and Active after one more |
| Health.BackoffFollowsStatus | crates/health/src/lib.rs:18-25 | the probe interval grows by 1, 4 or 10 with the status |
| Health.RecordsAreIndependent | crates/health/src/lib.rs:157-208 | while it is tracked, a record is what its own events make of it |
| Health.Prober.constructor | crates/health/src/lib.rs:102-111 | an empty table |
| Health.Prober.InitUpstreams | crates/health/src/lib.rs:118-125 | tracked are those before and those given, and records before stay |
| Health.Prober.SeedHealth | crates/health/src/lib.rs:128-147 | the stored values with negative and large counts clamped, and the status that goes with them |
| Health.Prober.RecordLatency | crates/health/src/lib.rs:157-187 | the new table, and the record that is handed on |
| Health.Prober.RecordFailure | crates/health/src/lib.rs:189-208 | the new table, and the record that is handed on |
| Health.Prober.AddUpstream | crates/health/src/lib.rs:329-342 | a fresh record exactly for an untracked URL |
| Health.Prober.RemoveUpstream | crates/health/src/lib.rs:344-346 | the URL is not tracked any more, nothing else changes |

## Left out

- DeadlockFree: the order in which a semaphore or a lock serves its waiters is not modelled; a step is enabled, and any waiter may take it.
- InflightIsLive: leaves out runs that cancel a lookup while it waits for its own lock, whose cleanup guard does not exist yet; EntryLeaksIff has when that leaves an entry behind.
- WaitersReuse: an outcome that stops standing, for any of the reasons in Outcomes, is one `Forget` step.
- CommitWinner: the method of CacheLayers has a database that works, the one of Race any result; how long the fetch takes and what metrics it leaves are not modelled.
- ResolveCached: all its readings fall at one moment; Outcomes has lookups whose readings fall at different ones, without the writes at their end.
- AcceptedAnswersUntil: over histories that write nothing new for the hash; a later hit from the table or commit starts a new one.
- StalenessIsBounded: leaves out the mesh, whose announcements carry their own ttl, and takes the longest suspension as a parameter.
- StableRaceIsExact: excludes deadlines and database errors, which can end any race early; UnavailableIsHonestIff says what holds with them.
- Race: the marks that other races of the same node set meanwhile are not modelled, and matter only to a race's filter at its start, where the table is arbitrary.
- MergeRoutes: which of the rows are left is open once the table can overflow and a 100th write evicts.
- NodesConverge: takes times in whole seconds, which is what the tables store, and no expiry, eviction or local commit in between; stored latencies are finite and not negative.
- RowsAreBounded: one process, and fewer than 2^64 writes.
- EmaIsWeightedSum: at most 2^64 samples, at which the sample count wraps and the average starts anew.
- EmaContracts: the same limit.
- BackoffFollowsStatus: base intervals that do not saturate a duration; BackoffInterval models the saturation.
- FingerprintIsInjective: fields with separators in them are excluded, since the format does not escape any.
- Parse: of a body that has both a malformed line and bytes that are not UTF-8, which error comes first.
- HedgedNar: the hedge timer fires at any time, not after a delay; the attempts' requests and bodies are not modelled.
- ServeNar: the fallback cache that comes after it, and how `upstream_nar_path` finds an upstream's path (any path or none).
- The order of `sorted_by_latency`: its comparison is not a consistent order, so the health list is in any order.
- HTTP, TLS, header copying, streaming and wall-clock timeouts, which are choices of the environment.
- Ed25519, base64, keys and realisations; msgpack packets, their sizes and signatures in the mesh.
- S3, netrc, configuration parsing, the command line, metrics, logging, mDNS and Nix modules.
- SQL text, migrations and pooling; tables are maps with the same guards. `list_recent_routes` is any set of rows.
- Probe scheduling beyond its interval, and the fallback narinfo lookup.
