# nginx-cache-turbo: a verified model

A Dafny model of the parts of the cache module where a mistake is a stampede, a leak, a wrong answer or a hang:
the request lifecycle in the access phase, the single-flight leases, the reference count on shared bodies, the
blob wire format, the lifetimes of promoted objects, and the configuration algebra. `dafny verify dfyconfig.toml`
checks the whole project.

| file | what it models |
|---|---|
| `Options.dfy`, `Bytes.dfy`, `Splitting.dfy` | optional values; little-endian integers in byte buffers; texts cut at separators |
| `Codec.dfy` | the 76-byte header, the role-tagged entry block and the body: writer, validator, iterator |
| `BlobRef.dfy` | the biased reference count, at the granularity of single memory operations of any number of workers |
| `Lease.dfy`, `Adoption.dfy` | claim, unstub, store, miss counter and negative memo of a node; who speaks for a held stub across redirects |
| `Pins.dfy`, `AccessState.dfy`, `Access.dfy` | one request through the access handler, phase by phase, park by park, from first entry to pool teardown |
| `Memo.dfy` | what a live negative memo means, joining the request side and the zone side |
| `Corners.dfy` | concrete runs of the request model on which an L2 outcome is used under another key, or late |
| `Lifetime.dfy` | L2 promotions and marker self-heal against clocks that disagree |
| `Conf.dfy`, `BackendNames.dfy`, `Dsn.dfy` | inheritance over nested blocks, the backend directive, the DSN splitter |
| `Autotune.dfy`, `Warm.dfy` | load verdicts and adaptive windows; the warm list |

How the request model works. `Access.Request` is the request's context; each phase of the handler is a method
that updates it in place. Fields of the source's context that belong together are one value each (`vary`, `l2`,
`brk`, `sie`, `wt`, `nx`, `cold`); `AccessState.dfy` gives the source's names. Whatever the rest of the world
answers (nodes found under the mutex, claims, L2 replies, the breaker, allocations, clocks) is an arbitrary `Env`
for each activation and an arbitrary `Reply` for each park, so a proof covers every interleaving of evictions,
refreshes, purges and claims by others. Fields marked "observed" are history; no branch reads them. The mutex is a
flag that `Lock` and `Unlock` flip and that every release of a reference requires to be free. `Access.Live` runs a
request to its end and destroys its pool.

## Where the code and its own account of itself differ

The model follows the code. These points are proved or visible in contracts:

- The comment at `src/ngx_http_cache_turbo_access.c:3068-3075` says every other terminal branch counts. Four exits
  of an engaged request count nothing (`AccessState.Weight`): the only-if-cached 504, the probe, inline
  regeneration of a stale entry, and adoption of the request's own stub. Errors before a counter was raised count
  nothing either; an error returned by `serve()` or by the 503 page comes after the counter was raised and counts
  one. A request that is not engaged at all (caching off, method, subrequest, credentials) counts nothing, but one
  with a body or a method-override header counts one miss and one bypass before any context is set up.
- The comment at `src/ngx_http_cache_turbo_access.c:3839-3845` promises that the cleanup removes the stub after any
  exit that stored nothing, a client abort included. A request that won the claim and is parked for the NX lock has
  no cleanup yet; if it goes away, or loses the lock and gives up waiting, its stub stays until the deadline, and so
  does that of a winner whose registration found no memory (`Adoption.ParkedClaimUnspoken`).
  `Adoption.ExactlyOneSpeaks` says exactly which held stubs are spoken for.
- The comment at `src/ngx_http_cache_turbo_access.c:1316-1323` says the refresh dice needs no token because
  `unstub` ignores an entry. `src/ngx_http_cache_turbo_shm.c:2563-2585` releases entries too. A dice win over an
  expired claim leaves the claimant's token on the node, and the claimant's teardown then ends the winner's single
  flight (`Adoption.DiceHit`); `Adoption.DiceThenReleaseExactly` says exactly when, and
  `Adoption.NoReleaseHitsAnother` that it takes a dice over a stamped node.
- The early return at `src/ngx_http_cache_turbo_access.c:2165-2167` leaves the marker's reply in the object's
  fields: a miss becomes a memo on the variant (`Corners.StrayMemo`), and a hit puts the marker's two bytes into L1
  under the variant's key and serves them as the page (`Corners.MarkerServed`).
- The early return is not needed for that. When a peer stores the marker in L1 while the object GET for the base
  key is under way, the base key's miss becomes a memo on the variant (`Corners.MovedMemo`), and the base key's
  page is promoted and served as the variant (`Corners.PageServedAsVariant`). Both promises hold exactly when the
  key this pass resolved is the key last sent (`Access.Request.AccessL2`, `Access.Live`).
- A memo can be written long after its miss: between the two the request may win the refresh dice on a stale entry
  and park for the NX lock (`Corners.LateMemo`); it is late exactly when the lock was answered after the reply.
- A marker GET that could not be launched leaves `vary_marker_l2_tried` set, so the next L2 outcome, even a memoed
  skip, is consumed as the marker's, and a memo begets a memo (`Corners.SkipTakenForMarker`).
- A cold-wait re-poll does write a memo when no earlier L2 outcome of the request was accounted, because the first
  GET could not be launched (`Corners.PollMemo`). Its evidence is a real miss.
- "Nearest explicit setting wins" fails for the Cache-Control mode (`Conf.NearestModeExactly`).

## Model

| member | source | states |
|---|---|---|
| Access.Live | src/ngx_http_cache_turbo_access.c:3531-3614 | a whole life against any answers: it ends; raises hits + stale_serves + misses by its exit's weight and l2_misses by at most one; hands at most one body to serve(), always inside a window or from an armed fallback; asks the promoting breaker getter at most once, never under only-if-cached; a probe is its last act; every reference taken is given back and the mutex is free; one marker GET, one NX park, ceil(lock_timeout/100) polls and polls + 2 object GETs at most; at most one memo on its marker and one on an object, honest exactly under the key last sent, so always without auto-Vary, and never late without the fleet lock |
| Access.Request.Turn | src/ngx_http_cache_turbo_access.c:3531-3614 | one activation and its resume strictly lower the lexicographic measure (marker GET, NX lock, polls, object GETs) and keep every budget |
| Access.Request.Activate | src/ngx_http_cache_turbo_access.c:3531-3614 | one pass: mutex free, references balanced, armed bodies pinned, exactly the exit's weight counted, an L2 outcome that was not served counted as a miss, latches in order at every park |
| Access.Request.Prologue | src/ngx_http_cache_turbo_access.c:366-637 | exactly which requests go on, which exits count a bypass, and that only-if-cached plus revalidate is refused |
| Access.Request.Eligible | src/ngx_http_cache_turbo_access.c:216-356 | what is not cached at all, with the ambiguous request refused, and counted, before its credentials are looked at |
| Access.Request.Revalidate | src/ngx_http_cache_turbo_access.c:529-566 | a client that wants no stored answer gets 504, the origin, or, with the breaker open, the cache after all |
| Access.Request.VaryApply | src/ngx_http_cache_turbo_vary.c:910-1086 | the key an L1 marker resolves, and when it asks for a revalidation |
| Access.Request.ResolveKey | src/ngx_http_cache_turbo_access.c:1603-1651 | L1's marker first, then the variant an earlier L2 reply resolved, else the base key |
| Access.Request.AccessL1 | src/ngx_http_cache_turbo_access.c:1539-1832 | mutex taken and released once on every path; a node is served, or a refresh parked for, only inside its own window; what is left armed |
| Access.Request.L1Judge | src/ngx_http_cache_turbo_access.c:1678-1815 | fresh serve exactly on a fresh hit, stale branch exactly on a stale hit, otherwise both fallbacks armed as far as they may be |
| Access.Request.JudgeBounds | src/ngx_http_cache_turbo_access.c:924-962 | req_reval exactly when the client's bounds reject a node inside its window |
| Access.Request.L1ServeFresh | src/ngx_http_cache_turbo_access.c:1057-1098 | that node's body, one hit, its reference handed over |
| Access.Request.L1ServeStale | src/ngx_http_cache_turbo_access.c:1118-1388 | at most one refresh per pass, only on a free or expired single flight and never after the NX lock; a lost NX lock serves stale |
| Access.Request.L1LockResolved | src/ngx_http_cache_turbo_access.c:1150-1218 | a won or failed NX lock refreshes, in the background with the pinned copy or inline |
| Access.Request.L1DiceWon | src/ngx_http_cache_turbo_access.c:1256-1372 | pin failure, park, background serve or inline regeneration, and one refresh counted |
| Access.Request.L1StaleAnswer | src/ngx_http_cache_turbo_access.c:1374-1387 | that node's body, one stale serve, its reference handed over |
| Access.Request.L1BreakerArm | src/ngx_http_cache_turbo_access.c:1402-1478 | armed once per request, registered before acquired, pinned by its own cleanup |
| Access.Request.L1SieArm | src/ngx_http_cache_turbo_access.c:1488-1535 | armed exactly inside the stale-if-error window (RFC 5861, section 4), pinned by its own cleanup |
| Access.Request.Hand | src/ngx_http_cache_turbo_access.c:1118-1388 | a body served without a reference is one the pool still pins |
| Access.Request.MarkerFetch | src/ngx_http_cache_turbo_access.c:1882-2008 | at most one marker GET: exactly when it goes out, when a memo answers it, and the latch in every case |
| Access.Request.MarkerApply | src/ngx_http_cache_turbo_access.c:2169-2306 | takes a live marker not older than L1's and heals L1 with what is left of its life, drops L1's marker when a purge withdrew it, else changes nothing |
| Access.Request.MarkerConsume | src/ngx_http_cache_turbo_access.c:2062-2349 | nothing happens without a marker reply; otherwise it is used up and its miss remembered, or left in place exactly when L1 learned the marker meanwhile; a reply left in hand leaves the key alone |
| Access.Request.ObjectFetch | src/ngx_http_cache_turbo_access.c:2362-2446 | exactly when the GET goes out, is skipped by a memo, or is written off with L2 down |
| Access.Request.L2Fetch | src/ngx_http_cache_turbo_access.c:2696-2728 | at most one GET leaves, and the room left for GETs never grows |
| Access.Request.ExpiredArm | src/ngx_http_cache_turbo_access.c:2460-2542 | a dead L2 body arms both fallbacks from the request's own copy |
| Access.Request.PromoteServe | src/ngx_http_cache_turbo_access.c:2559-2672 | a live L2 body is promoted under the key at hand for what is left of its life, and served, unless the client's bounds refuse it |
| Access.Request.AccessL2 | src/ngx_http_cache_turbo_access.c:2696-2767 | an L2 hit is a live, validated body of a real reply, promoted under the key it is served under; it answers a GET of that key exactly when the key resolved on entry is the key last sent |
| Access.Request.L2Answer | src/ngx_http_cache_turbo_access.c:2726-2766 | exactly which outcomes are served: a valid body, inside its stale window, within the client's bounds |
| Access.Request.MissAccount | src/ngx_http_cache_turbo_access.c:2776-2814 | one l2_misses, and a memo exactly for a definitive miss that no memo answered, the first time an outcome is accounted |
| Access.Request.OnlyIfCached | src/ngx_http_cache_turbo_access.c:2825-2881 | never past this point (RFC 9111, section 5.2.1.7): the armed body under an open breaker, else 504 |
| Access.Request.BrkRefDrop | src/ngx_http_cache_turbo_access.c:728-750 | the early drop gives its one reference back and disarms |
| Access.Request.Consult | src/ngx_http_cache_turbo_access.c:2965-2980 | the getter is called at most once over all re-entries |
| Access.Request.BreakerGate | src/ngx_http_cache_turbo_access.c:2898-3087 | pass, probe, stale or 503 by the latched action; a probe leaves for the origin at once, disarmed |
| Access.Request.MinUses | src/ngx_http_cache_turbo_access.c:3096-3143 | declines exactly below the threshold, and counts it |
| Access.Request.ColdWait | src/ngx_http_cache_turbo_access.c:3624-3787 | a poll waits min(100, remaining) > 0 ms against a deadline set once; at the deadline the SIE body if armed; a filled but unserveable L2 goes to the origin |
| Access.Request.ColdResumeLocked | src/ngx_http_cache_turbo_access.c:3161-3191 | won or L2 down: winner with the stashed token; lost: wait |
| Access.Request.RacedFreshOwned | src/ngx_http_cache_turbo_access.c:3314-3332 | the reference taken on the request's behalf is handed over or given back, never both |
| Access.Request.RacedFreshRelookup | src/ngx_http_cache_turbo_access.c:3343-3386 | the raced-in entry is served exactly when still fresh and wanted |
| Access.Request.ColdMinUses | src/ngx_http_cache_turbo_access.c:3260-3333 | the merged count: below the threshold, fresh, or on to the claim |
| Access.Request.Claimed | src/ngx_http_cache_turbo_access.c:3334-3430 | fresh, loser (own stub or wait), winner (NX park or origin), each with its token |
| Access.Request.AccessCold | src/ngx_http_cache_turbo_access.c:3211-3434 | the whole phase: at most one NX park, none after the lock was answered |
| Access.Request.ResumeGet | src/ngx_http_cache_turbo_redis.c:4929-4986 | a reply lowers the measure and is recorded with its key and time |
| Access.Request.ResumeLock | src/ngx_http_cache_turbo_redis.c:5094-5117 | lock_done goes up once and stays |
| Access.Request.ResumePoll | src/ngx_http_cache_turbo_access.c:3743-3787 | every poll lowers the number of polls left |
| AccessState.ArmedKept | src/ngx_http_cache_turbo_access.c:648-750 | an armed body stays pinned whatever else is registered |
| Pins.Pool.Pin | src/ngx_http_cache_turbo_access.c:690-717 | a failed registration takes no reference; a registered one has exactly one cleanup |
| Pins.Pool.Drop | src/ngx_http_cache_turbo_access.c:648-663 | a cleanup gives its reference back once and is inert afterwards |
| Pins.Pool.Destroy | src/ngx_http_cache_turbo_access.c:648-663 | teardown leaves no reference held |
| Pins.Serve | src/ngx_http_cache_turbo_module.c:2974-3181 | takes over the reference whether it answers, refuses or fails |
| Memo.OnlyRememberMoves | src/ngx_http_cache_turbo_shm.c:2204-2320 | no node operation but l2_neg_set moves a memo's deadline; the others keep or drop it |
| Memo.DeadlineHasWriter | src/ngx_http_cache_turbo_shm.c:2817-2900 | a memo's deadline was set by one l2_neg_set, whatever happened since |
| Memo.LiveMemoMeansMiss | src/ngx_http_cache_turbo_shm.c:2731-2788 | over any history of the node and memos of any requests: a live memo was written less than l2_negative_ttl ago; it stands for a real miss of its key exactly when its writer had last sent that key, and that miss is less than l2_negative_ttl old unless an NX lock was answered in between |
| Memo.PlainMemoMeansMiss | src/ngx_http_cache_turbo_shm.c:2731-2788 | where neither auto-Vary nor the fleet lock is on: a real GET of that key got a definitive miss less than l2_negative_ttl ago |
| Corners.StrayMemo | src/ngx_http_cache_turbo_access.c:2165-2167 | a run on which the marker's own miss becomes a memo on a variant nobody asked L2 for |
| Corners.MovedMemo | src/ngx_http_cache_turbo_access.c:1603-1651 | a run on which the base key's miss becomes a memo on the variant, without that early return |
| Corners.LateMemo | src/ngx_http_cache_turbo_access.c:1256-1372 | a run on which a memo is written later than its lifetime after its miss |
| Corners.SkipTakenForMarker | src/ngx_http_cache_turbo_access.c:1960-2008 | a run on which a memoed skip is taken for the marker's reply and begets a memo |
| Corners.PollMemo | src/ngx_http_cache_turbo_access.c:3720-3741 | a run on which a cold-wait poll writes a memo, an honest one |
| Corners.MarkerServed | src/ngx_http_cache_turbo_access.c:2165-2167 | a run on which the marker's bytes are promoted and served under the variant's key |
| Corners.PageServedAsVariant | src/ngx_http_cache_turbo_access.c:2625-2650 | a run on which the base key's page is promoted and served as the variant |
| BlobRef.EveryRunIsSafe | src/ngx_http_cache_turbo_internal.h:592-646 | over any interleaving of any number of workers: refs is node reference plus request references, each slab freed at most once and only after the count reached 0 and `detached` was written, no access to a freed header, used_bytes the sum of the bodies not freed |
| BlobRef.StepInv | src/ngx_http_cache_turbo_shm.c:473-590 | every single memory operation keeps that invariant |
| BlobRef.OnlyTheLastFrees | src/ngx_http_cache_turbo_shm.c:512-590 | the freer is the worker that saw 1 to 0, holds the mutex, and discharges the bytes charged |
| BlobRef.NothingLeaks | src/ngx_http_cache_turbo_internal.h:599-646 | with no request left, exactly the bodies some node shows are unfreed |
| BlobRef.TargetLive | src/ngx_http_cache_turbo_shm.c:525-538 | whoever touches a header owns a counted reference or the 1 to 0 transition |
| Lease.Zone.ShmClaim | src/ngx_http_cache_turbo_shm.c:2204-2320 | fresh, loser or winner; a fresh token exactly when a winner has a node |
| Lease.Zone.ShmOwns | src/ngx_http_cache_turbo_shm.c:2469-2503 | identity and liveness of a lease, deadline not asked |
| Lease.Zone.ShmUnstub | src/ngx_http_cache_turbo_shm.c:2511-2590 | clears only the caller's lease, frees a counter with nothing else on it |
| Lease.Zone.ShmCountMiss | src/ngx_http_cache_turbo_shm.c:2606-2693 | counting, windowed reset and threshold |
| Lease.Zone.ShmResolveMiss | src/ngx_http_cache_turbo_shm.c:2420-2463 | count, then claim of the same node, in one hold |
| Lease.Zone.ShmStore | src/ngx_http_cache_turbo_shm.c:1669-1830 | a store that is written ends the lease and the memo; a new key may be declined by admission, and without room nothing changes |
| Lease.Zone.ShmStoreIfNewer | src/ngx_http_cache_turbo_shm.c:1942-2023 | declined for a strictly fresher resident entry or by admission, failed without room, written otherwise |
| Lease.Zone.ShmFreshen | src/ngx_http_cache_turbo_shm.c:2059-2091 | a 304 moves deadlines and ends the lease, for a resident body only |
| Lease.Zone.ShmNegCheck | src/ngx_http_cache_turbo_shm.c:2730-2788 | only a counter's unexpired memo answers |
| Lease.Zone.ShmNegSet | src/ngx_http_cache_turbo_shm.c:2816-2900 | writes no memo over content |
| Adoption.StepInv | src/ngx_http_cache_turbo_access.c:3846-3997 | leases, contexts and cleanups of any number of requests stay consistent under every operation |
| Adoption.ReleasesOwnLease | src/ngx_http_cache_turbo_access.c:3984-3997 | a teardown or early release ends only a lease issued to that very request |
| Adoption.DiceThenReleaseExactly | src/ngx_http_cache_turbo_shm.c:2560-2586 | a release after a dice win ends the winner's refresh exactly when the dice was thrown over a node that carried the released token |
| Adoption.NoReleaseHitsAnother | src/ngx_http_cache_turbo_access.c:3984-3997 | in every run whose dice were all thrown over unstamped nodes no release ends another request's single flight |
| Adoption.DiceOverToken | src/ngx_http_cache_turbo_access.c:1246-1325 | that state arises only from a dice win over an expired, stamped lease |
| Adoption.DiceHit | src/ngx_http_cache_turbo_access.c:1316-1325 | a run from the empty zone in which it happens |
| Adoption.ReleaseLeavesToken | src/ngx_http_cache_turbo_access.c:3984-3997 | exactly when a release misses its own lease |
| Adoption.LeaseIsExclusive | src/ngx_http_cache_turbo_shm.c:2204-2270 | over any run up to its deadline in which nobody entitled to end the lease does: no token is issued and no dice wins on that key, and the lease is as it was |
| Adoption.MarkSpeaks | src/ngx_http_cache_turbo_access.c:3846-3871 | registration at the win makes one cleanup speak for the token |
| Adoption.OneSpeaker | src/ngx_http_cache_turbo_access.c:3918-3982 | never two cleanups or two unresolved contexts for one lease |
| Adoption.ExactlyOneSpeaks | src/ngx_http_cache_turbo_access.c:3918-3997 | in every run, for every stamped stub: some cleanup speaks for it exactly when a registered winner holds its token, and then exactly one does |
| Adoption.SpokenForExactly | src/ngx_http_cache_turbo_access.c:3846-3871 | whoever holds a token is spoken for exactly when marked as winner with a registered cleanup that has not run |
| Adoption.WinnersAreSpokenFor | src/ngx_http_cache_turbo_access.c:3846-3997 | in every run whose registrations found room, every stub a winner still holds has exactly one cleanup, which speaks for it until it has run |
| Adoption.SpeaksUntilResolved | src/ngx_http_cache_turbo_access.c:3918-3997 | a speaking cleanup goes on alone through any chain of redirects and adoptions |
| Adoption.ParkedClaimUnspoken | src/ngx_http_cache_turbo_access.c:3161-3191 | runs in which nobody speaks for a held stub: parked for the NX lock, and a registration without room |
| Adoption.AdoptsOwnLease | src/ngx_http_cache_turbo_access.c:3946-3961 | what the zone lets a request adopt was issued to that request |
| Adoption.Requests.ColdAdoptOwnStub | src/ngx_http_cache_turbo_access.c:3918-3982 | settles on the latest entry the zone confirms, retargets that entry, or changes nothing |
| Adoption.Requests.ColdMarkWinner | src/ngx_http_cache_turbo_access.c:3846-3871 | idempotent; one cleanup unless its allocation fails |
| Codec.SerializeValidates | src/ngx_http_cache_turbo_filters.c:2067-2217 | writing then validating is the identity on every legal header, entry list and body |
| Codec.ValidateExact | src/ngx_http_cache_turbo_blob.c:555-780 | the validator accepts exactly the blobs and reads each the only way |
| Codec.PrefixVerdict | src/ngx_http_cache_turbo_blob.c:693-720 | a prefix is accepted exactly from the declared extent on; trailing bytes change nothing |
| Codec.PreCheckOnlyRejectsBadWalks | src/ngx_http_cache_turbo_blob.c:720-760 | the count guard rejects only what the walk would reject |
| Codec.ClearKeepsVerdict | src/ngx_http_cache_turbo_blob.c:501-513 | clearing the vetted bit is idempotent and changes nothing else that is parsed |
| Codec.OnlyTheVettedBit | src/ngx_http_cache_turbo_blob.c:501-513 | every other flag bit survives |
| Codec.StampVerdict | src/ngx_http_cache_turbo_blob.c:412-474 | stamping then validating: accepted exactly when the date rendered in full and printable, the fields are legal and what they announce is there; then header and date read back |
| Codec.BlobWrite | src/ngx_http_cache_turbo_filters.c:2067-2217 | the two passes fill the buffer with exactly the serialisation |
| Codec.HdrWrite | src/ngx_http_cache_turbo_blob.c:412-474 | the 76 header bytes, field by field |
| Codec.BlobValidate | src/ngx_http_cache_turbo_blob.c:555-780 | the imperative validator computes the specified verdict |
| Codec.NextHeader | src/ngx_http_cache_turbo_blob.c:807-840 | one entry decoded and the cursor past it, or neither |
| Codec.ClearVetted | src/ngx_http_cache_turbo_blob.c:501-513 | in place, a no-op on a short buffer |
| Codec.WalkSound | src/ngx_http_cache_turbo_blob.c:807-840 | what the walk decodes is what the bytes say |
| Codec.WalkComplete | src/ngx_http_cache_turbo_blob.c:807-840 | every entry list decodes to itself |
| Codec.HeaderParses | src/ngx_http_cache_turbo_blob.c:585-650 | the header's bytes parse back to it, and only those bytes do |
| Bytes.UnLeOfLe | src/ngx_http_cache_turbo_blob.c:363-407 | writing then reading an integer is the identity on values that fit |
| Bytes.LeOfUnLe | src/ngx_http_cache_turbo_blob.c:363-407 | reading then writing is the identity on bytes |
| Bytes.LeWords | src/ngx_http_cache_turbo_blob.c:379-385 | a 64-bit store is its two halves, low first |
| Bytes.PutU32 | src/ngx_http_cache_turbo_blob.c:370-377 | overwrites exactly its own window |
| Lifetime.Promote | src/ngx_http_cache_turbo_access.c:2739-2763 | L1 gets what is left of the object's life, unless it holds a fresher copy, admission declines or there is no room |
| Lifetime.PromotionsNeverExtend | src/ngx_http_cache_turbo_access.c:2632-2636 | after any number of promotions at any clocks over any resident, the node is that resident or stays within created + ttl |
| Lifetime.PromotionsExactly | src/ngx_http_cache_turbo_access.c:2745-2750 | a chain of promotions restores both deadlines exactly when one of them was written on a clock not behind the birth |
| Lifetime.PromotionKeepsFresher | src/ngx_http_cache_turbo_shm.c:1942-1990 | freshness in L1 is never taken away |
| Lifetime.HealsNeverExtend | src/ngx_http_cache_turbo_access.c:2210-2244 | a chain of marker self-heals never moves the stale deadline out, and keeps it exactly when no clock ran behind |
| Lifetime.HealedIsLegal | src/ngx_http_cache_turbo_vary.c:764-839 | a healed marker validates again |
| Lifetime.BirthBound | src/ngx_http_cache_turbo_blob.c:648-653 | a birth of zero or later is exactly what keeps every age inside 64 bits |
| Lifetime.AcceptedArithmetic | src/ngx_http_cache_turbo_blob.c:648-653 | all arithmetic on an accepted header stays inside 64 bits |
| Conf.OneBlockDecides | src/ngx_http_cache_turbo_conf.c:1214-1351 | address, flavour, prefix, user, password, db and TLS all come from the innermost declaring block |
| Conf.LocConf.MergeL2 | src/ngx_http_cache_turbo_conf.c:1214-1302 | the in-place merge computes the specified block |
| Conf.LocConf.RedisConf | src/ngx_http_cache_turbo_conf.c:497-558 | accepted exactly in a block without a backend, flavour spelled out |
| Conf.LocConf.MemcachedConf | src/ngx_http_cache_turbo_conf.c:653-709 | the same for memcached |
| Conf.LocConf.Backend | src/ngx_http_cache_turbo_conf.c:1338-1351 | the driver is the settled flavour |
| Conf.KnobsKeepPromise | src/ngx_http_cache_turbo_conf.c:770-849 | each knob is the nearest explicit value, else the nearest preset's band, else the default band |
| Conf.PresetConf.MergePresets | src/ngx_http_cache_turbo_conf.c:770-849 | the in-place merge computes the specified knobs |
| Conf.RetryAfterNearest | src/ngx_http_cache_turbo_conf.c:943-967 | Retry-After is the nearest explicit value, else the block's own merged breaker_open |
| Conf.NearestModeExactly | src/ngx_http_cache_turbo_conf.c:998-1004 | the nearest explicit mode wins exactly unless a preset is in force inside it |
| Conf.PresetOverridesAncestor | src/ngx_http_cache_turbo_conf.c:998-1004 | a chain on which it does not |
| BackendNames.ExpandImplies | src/ngx_http_cache_turbo_conf.c:1870-1893 | the least implication-closed set, with a real fixpoint measure |
| BackendNames.LocConf.Backend | src/ngx_http_cache_turbo_conf.c:1921-2079 | accepted exactly when every name is known, one is given and "none" stands alone; then the closure of all names so far |
| BackendNames.ParseArg | src/ngx_http_cache_turbo_conf.c:1947-2029 | one argument, slice by slice |
| BackendNames.BackendBit | src/ngx_http_cache_turbo_conf.c:1900-1918 | the first row of that name |
| BackendNames.SeparatorsAgree | src/ngx_http_cache_turbo_conf.c:1947-1958 | space, bar and spaced bar mean the same among any other arguments |
| BackendNames.EmptySlices | src/ngx_http_cache_turbo_conf.c:1962-1966 | an empty slice is a leading, trailing or doubled bar |
| BackendNames.EmptySliceRefused | src/ngx_http_cache_turbo_conf.c:1962-2027 | every empty slice refuses the directive |
| Dsn.SplitOfPrint | src/ngx_http_cache_turbo_conf.c:137-206 | splitting undoes printing, for every scheme case, user, password, host and database |
| Dsn.SplitDsn | src/ngx_http_cache_turbo_conf.c:137-206 | the pointer walk computes the specified parts |
| Autotune.AutotuneVerdict | src/ngx_http_cache_turbo_autotune.c:64-150 | the clamps compute the specified verdict |
| Autotune.LoadFollowsCost | src/ngx_http_cache_turbo_autotune.c:130-145 | load rises with cost and is the baseline exactly up to the moderate gate |
| Autotune.AnyRun | src/ngx_http_cache_turbo_autotune.c:160-233 | any run of any number of workers on any clocks: window deltas and the open window add up to all activity, throttled claims are an interval apart, the published pair is the verdict of one window, in bounds |
| Autotune.LatestInBounds | src/ngx_http_cache_turbo_autotune.c:64-191 | every published pair comes from one window and lies in its bounds |
| Autotune.Zone.Recompute | src/ngx_http_cache_turbo_autotune.c:160-191 | the snapshot always moves; the verdict only when there is one |
| Autotune.Zone.Maybe | src/ngx_http_cache_turbo_autotune.c:194-223 | one claim when due under the lock, whatever the unlocked read saw |
| Autotune.Zone.EffectiveLoad | src/ngx_http_cache_turbo_module.c:1134-1152 | between baseline and cap |
| Autotune.StaleWindow | src/ngx_http_cache_turbo_access.c:897-914 | the served stale span is at most four times the stored one, and only that deadline moves |
| Autotune.LockDeadline | src/ngx_http_cache_turbo_access.c:1278-1325 | the widened lock ends within four times its ttl, inside 64 bits |
| Autotune.LockTtlConf | src/ngx_http_cache_turbo_conf.c:2471-2504 | zero, bad and duplicate refused, the rest clamped |
| Warm.WarmList | src/ngx_http_cache_turbo_admin.c:976-1079 | fires the first warm_max accepted entries in list order |
| Warm.UriIsSafe | src/ngx_http_cache_turbo_admin.c:907-938 | agrees with: no NUL, no segment equal to ".." |
| Warm.RawIsSafe | src/ngx_http_cache_turbo_admin.c:947-959 | no control byte, space or DEL |
| Warm.ParseSegment | src/ngx_http_cache_turbo_admin.c:999-1042 | carriage return trimmed, split at the first question mark |
| Warm.LinesFit | src/ngx_http_cache_turbo_admin.c:1091-1131 | rejects exactly a list with an overlong line |

## Left out

- Access.Live: the request's own writes to shared nodes (refreshing flags, promotions, markers) are recorded but not fed back into what later lookups return, because every lookup is arbitrary anyway; `Lease.dfy` and `Lifetime.dfy` model what they do.
- Access.Request.Prologue: the cache key of one request is the same string at every entry, and eligibility, ambiguity and credentials are one flag each.
- Corners.StrayMemo: this run and the others in its module call the phases that matter in their order and skip those their answers would pass through.
- Access.Request.Claimed: the answer of the own-stub search is an input here; `Adoption.dfy` models the search.
- Access.Request.Consult: the breaker's state machine in shared memory is an arbitrary answer, so "one probe per open window" is not proved, only what a promoted request does with it.
- Access.Request.NegSet: a memo write can be lost to a full slab; the history records the attempt.
- BlobRef.EveryRunIsSafe: memory operations are sequentially consistent, and allocation failure is not a step.
- Lease.Zone.ShmClaim: the 64-bit token counter does not wrap around, and eviction by the allocator is a separate step.
- Lifetime.Promote: byte contents are not copied; a promotion is about deadlines.
- Codec.SerializeValidates: the date text is any 29 printable bytes; which headers are admissible and their roles are inputs.
- Conf.OneBlockDecides: address resolution, timeouts, keepalive knobs and TLS contexts are not part of the identity.
- Dsn.SplitOfPrint: the digit overflow of the number parser is folded into the range check on the database.
- Autotune.Zone.Recompute: counters do not wrap around.
- Warm.WarmList: percent-decoding and the warm subrequest are inputs.
- nginx plumbing (phases, events, output filters, logging) and the Redis and memcached drivers beyond their three answers.
- Digests: SHA-256 and MD5 are injective, crc32 is an arbitrary function.
- The slab allocator, the LRU segments, the admission sketch and the tag index.
- Vary classification, key normalisation, content-management rule tables, and rendering of statistics.
