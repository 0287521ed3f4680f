# Verification of the torrent HTTP proxy

A Dafny model of the six pieces of the proxy whose correctness is not visible from any single function, with proofs of
what they promise over all inputs, all runs and all interleavings.

- **Bandwidth limiting** (`TokenScript`, `BucketSystem`, `BucketWindows`, `BucketOutages`, `BucketBursts`,
  `BucketRuns`, `HybridBucket`). `TokenScript` is the Lua script as a function of the stored hash. `BucketSystem` is a
  step system: any number of proxies and waiting goroutines on one session at one rate, every locked section of
  `Wait`, every reading of the clock, every run of the script and every probe a step of its own, script calls that
  succeed, fail, arrive late or lose their reply, a key left over from before and keys that expire. `BucketWindows`
  bounds what any window of any run is granted and released, `BucketOutages` how often goroutines sleep in outages,
  `BucketBursts` what a window can add to that after any idle time, and `BucketRuns` has runs that reach these bounds.
  `HybridBucket` is the class with the real loop; every statement of it that touches shared state is logged as a step
  of `BucketSystem`, so what is proved of all runs holds of it.
- **Session limiting** (`SessionState`, `SessionSystem`, `SessionRaces`, `SessionIds`, `IpWindow`, `SessionLimiter`).
  `SessionState` holds the counters and what one request does to them. `SessionSystem` interleaves the single loads
  and adds of any number of `Acquire` and release calls on the objects the table hands out, and `SessionRaces` has the
  runs that reach the bounds proved there. `SessionIds` says when the caps hold for an ID whose requests may be on
  several objects. `SessionLimiter` is the class with the nested maps and the atomic `Acquire` and release;
  `AcquireAlone` and `ReleaseAlone` say that its methods are the uninterrupted runs of the steps. `IpWindow` is the
  pruned map of client subnets.
- **Resuming reader** (`Ranges`, `ResumingReader`). Range and Content-Range headers, and the reader that splices
  broken upstream connections, over arbitrary connections that break at any byte.
- **Endpoint placement** (`Sorting`, `Placement`, `ServiceLocation`, `Fallback`, `NodeRoles`, `PodOfHash`). The two
  distributions with their scans over nested integer intervals, role filtering, the ignore list, probing, and when a
  fallback stays on a node. `NodeRoles` says what the labels of the nodes mean for roles, and `PodOfHash` in plain
  arithmetic which pod an info hash goes to.
- **Chained URLs** (`UrlChain`, `ChainedUrls`). Mods peeled off a path, and the hops of services calling the proxy
  back; URLs as they are written and what they are parsed to.
- **Manifest rewriting** (`Manifest`, `SegmentTimes`). Token swaps per segment against a per-line description, and
  when the segments start.

`Basics` and `Strings` hold sums, counts and Go's string operations.

Floats are modelled as real numbers and durations as real seconds; the whole numbers that Go truncates before it calls
the script (`int64(...)`, `UnixMilli`) are floors. Strings are sequences of characters, one for each byte of the
original.

## What was found

- With no Redis a single caller gets twice the rate, because a degraded sleep is credited once by the sleep and once
  more by the later accrual over the same time (`BucketSystem.TwiceTheRateIsReached`); twice is also the most it gets.
- The script credits time again when clocks step back and forth: calls are within one burst and the rate over any
  given time exactly when the refills between their stamps are (`TokenScript.RateHoldsIff`), and two callers whose
  clocks differ get a refill with every turn (`TokenScript.TimeEarnedAgain`). With one clock a call that reaches the
  script late has this effect for the time it was in flight: `BucketWindows.GrantsInWindow` bounds it, and n calls
  that are d milliseconds late give a burst and n times d milliseconds of rate in no time at all
  (`BucketRuns.LateCallsEarnAgain`).
- While Redis answers, no run releases a byte exactly when the rate or the capacity is below one byte, so that `Wait`
  does not return (`BucketRuns.NothingReleasedIff`, `HybridBucket.NothingBelowOneByte`).
- The comment on `Wait` speaks of at most one Redis call and no retry loop; the code polls in a loop, and that is what
  is modelled (`PollBudget` bounds the calls).
- Under every setting the caps on the total and on a path hold per object exactly while one caller at a time is
  between its check and its add, and k callers reach the cap plus k - 1 (`SessionRaces.CapKeptIffOneAtATime`,
  `SessionRaces.TotalReachesCrowd` and their partners for paths).
- A late caller can leave two objects for one session (`SessionRaces.TwoObjectsForOneSession`), and a late release can
  delete the table entry of an object in use (`SessionRaces.LiveSessionMissing`). Under every setting the caps hold
  for a session ID exactly while at most one of its calls is running at a time (`SessionIds.IdCapKeptIff`,
  `SessionIds.IdPathCapKeptIff`); with two, any number of its requests can be live on one path
  (`SessionIds.AnyNumberForOneId`).
- `GetFallback`'s comment says that node hashing lands on the same node. It does exactly under the condition of
  `Fallback.FallbackStaysOnNodeIff`; with one pod on each node it does not (`Fallback.FallbackMayLeaveTheNode`).
- The local preference of a machine does not look at roles: it serves a role from its own pods on a node that keeps
  the role off (`NodeRoles.LocalForAnyRoleIff`). It also places requests by their prefix that are no info hashes, and
  crashes on hashes shorter than five characters, which a URL whose hash is the name of a mod can have
  (`PodOfHash.LocalPlacementFails`).
- When role filtering leaves no node, `distributeByNodeHash` wraps a nil error and so returns no error: the service is
  reported unavailable instead of failing (`ServiceLocation.NoNodeIsUnavailable`, `ServiceLocation.NobodyPickedIff`).
- A connection that is lost again on the first read after a reconnect ends the stream with that error although retries
  are left (`ResumingReader.ReconnectsIffLost`).
- A retried stream of a bounded range goes on past its end unless the range reached up to the object's end
  (`ResumingReader.StaysWithinIff`).
- The extra of a mod can come from an unrecognised segment to its right (`UrlChain.OwnExtraIff`,
  `UrlChain.ForeignExtra`).
- `swapToken` is documented to replace `?token=` and `&token=` only; it replaces the first `token=` with the primary
  token after any character, also at the start of a longer token (`Manifest.DocumentedSwapIff`,
  `Manifest.SwapsPartOfParameter`).
- The manifest's early exit hides a swap when a negative duration brings a later segment back into the grace period
  (`Manifest.NegativeDurationHidesSwap`); without negative durations it is sound.

## Model

| member | source | states |
|---|---|---|
| TokenScript.CallAccounts | services/hybrid_bucket.go:39-62 | one script call never creates tokens: grant plus new balance is at most the old balance plus what the clock advance earned, within [0, cap], and a partial grant empties the bucket |
| TokenScript.TotalBounded | services/hybrid_bucket.go:39-62 | over any calls by any callers with any clocks, all grants plus the final balance are at most the first balance plus the rate over the forward movements of the clock |
| TokenScript.WindowWithinRate | services/hybrid_bucket.go:39-62 | with times that never go back, every window of calls is granted at most one burst plus the rate over the window |
| TokenScript.RateHoldsIff | services/hybrid_bucket.go:39-62 | for given call stamps and any ms: all requests a bucket can send, after any earlier calls, are together granted at most one burst and ms milliseconds of rate if and only if the refills between the stamps (each at most the whole bucket) are worth no more |
| TokenScript.WindowWithinRefills | services/hybrid_bucket.go:39-62 | in every window of any call list, whatever the clocks do, the grants are at most one burst and the refills between the window's own calls |
| TokenScript.TimeEarnedAgain | services/hybrid_bucket.go:44-48 | two callers with clocks d milliseconds apart who call in turn are granted the refill of d milliseconds again with every turn, more than burst and rate from the second turn on |
| TokenScript.ExpiryUnobservableIff | services/hybrid_bucket.go:39-61 | deleting a key nobody called for the TTL changes neither a later grant nor the stored state, for every hash and call, if and only if cap is at most 300 times rate |
| BucketSystem.RunInv | services/hybrid_bucket.go:94-243 | in every run: places and needs are sane, the stored balance is in range, flags and probes agree, books balance, and local credit is worth no more than its time |
| BucketSystem.StepProbed | services/hybrid_bucket.go:209-218 | every step keeps: a bucket with a client is probing exactly while Redis is marked down, with exactly one probe goroutine running or about to start, and a bucket without a client never probes |
| BucketSystem.Conservation | services/hybrid_bucket.go:94-191 | with Redis reachable, bytes released by finished Waits plus part-paid needs plus all local balances equal all script grants, in every interleaving of any buckets and waiters |
| BucketWindows.GrantsInWindow | services/hybrid_bucket.go:39-62 | with one clock, in any window of any run the script grants at most cap + rate times the elapsed milliseconds, plus those that calls executed in it were in flight between reading the clock and running |
| BucketWindows.GrantsByClock | services/hybrid_bucket.go:39-62 | with any clocks, lapses and lost replies, any window of any run grants at most cap + rate times the forward movement of the key's clock after the window's first call |
| BucketWindows.GrantsInOrder | services/hybrid_bucket.go:39-62 | with stamps that arrive in order, any window grants at most cap + rate times the time from its first stamp to its last |
| BucketRuns.LateCallsEarnAgain | services/hybrid_bucket.go:39-62 | the bound of GrantsInWindow is reached for every number of late calls: with one clock n calls that are d milliseconds late (d up to 1000, so also below the call's timeout) give one burst and n times d milliseconds of rate in a window of no time at all |
| BucketWindows.ReleasedInWindow | services/hybrid_bucket.go:94-191 | with Redis reachable what a window releases is within the bound of GrantsInWindow and what was outstanding before |
| BucketRuns.NothingReleasedIff | services/hybrid_bucket.go:94-204 | while Redis answers, every run releases nothing if and only if the rate or the capacity is below one byte |
| BucketWindows.CallSpends | services/hybrid_bucket.go:39-62 | one call within a run grants and keeps at most the whole bucket, and at most the balance and what its clock moved |
| BucketWindows.ReleasedBounded | services/hybrid_bucket.go:94-243 | with Redis failing, losing replies and recovering at any points and with any clocks, all released bytes are at most one burst, the rate over the clock's forward movement, and one rate per goroutine and per proxy |
| BucketWindows.ReleasedOverTime | services/hybrid_bucket.go:94-243 | with one clock, however long calls are in flight, all released bytes are at most cap, the rate over the elapsed time once for the script and once per goroutine and proxy, and a millisecond of rate for every goroutine, the clock, and every degraded sleep that came after a call of its goroutine took effect |
| BucketWindows.ReleasedInOrder | services/hybrid_bucket.go:94-243 | with one clock and calls that take effect in the order of their stamps no sleep adds anything: cap, the rate over the elapsed time once for the script and once per goroutine and proxy, and one millisecond of rate |
| BucketOutages.ReleasedInTime | services/hybrid_bucket.go:94-243 | with one clock and goroutines that stay on their proxy, late calls included, the same in the elapsed time T alone: cap + (N + proxies + 1) rate T, two milliseconds of rate per goroutine and one for the clock, and one per goroutine for every five seconds of T |
| BucketOutages.StepTicked | services/hybrid_bucket.go:227-243 | every step keeps: a proxy's outages end at least five seconds apart, because a probe answers at its ticker only |
| BucketOutages.StepPaced | services/hybrid_bucket.go:105-187 | every step keeps: a goroutine has slept after a call at most once in each outage of its proxy |
| BucketOutages.OneProxyReleasedOverTime | services/hybrid_bucket.go:94-191 | so one bucket with N waiters releases at most cap + (N + 2) rate T in its first T seconds, but for 2 N + 1 milliseconds of rate and N more for every five seconds |
| BucketWindows.StepCharged | services/hybrid_bucket.go:129-141 | each single step keeps: a goroutine's degraded sleeps and its calls' time in flight together take no longer than the run, up to a millisecond for each sleep that came after a call |
| BucketWindows.StepTimely | services/hybrid_bucket.go:200-207 | each single step keeps: in a window the key's clock has moved no further than time, but for calls in flight |
| BucketSystem.ReleasedWithoutRedis | services/hybrid_bucket.go:105-141 | with no client anywhere, releases are covered by local accrual and degraded sleeps alone |
| BucketSystem.SoloWithoutRedis | services/hybrid_bucket.go:105-141 | with no Redis one sequential caller releases at most twice the rate over the elapsed time |
| BucketSystem.TwiceTheRateIsReached | services/hybrid_bucket.go:105-141 | and that bound is reached: a run of k pairs of Waits releases exactly twice the rate |
| BucketBursts.ReleasedInAnyWindow | services/hybrid_bucket.go:94-243 | in any window of any run, with any clocks and outages, what is released is at most what was granted in it, what goroutines had in hand or were sleeping for, what each proxy could let through at once (its local balance and, if it may be degraded, one capacity of accrual), and the rate over the window for every goroutine and proxy |
| BucketBursts.ReleasedWithOutages | services/hybrid_bucket.go:94-243 | with one clock the grants in this are at most cap and the rate over the elapsed and flight time |
| BucketBursts.WindowWithoutRedis | services/hybrid_bucket.go:105-141 | without Redis any window releases at most one capacity per proxy, the counts that goroutines were already sleeping for, and the rate over the window for every goroutine and proxy |
| BucketBursts.SoloWindowWithoutRedis | services/hybrid_bucket.go:105-141 | so one proxy with one caller, however long idle before, releases in a window at most capacity + 2 rate times its length, and the count of the Wait it was sleeping in |
| BucketBursts.StepBucketsWithin | services/hybrid_bucket.go:105-116 | each single step keeps: what a proxy has spent since a given state, and could spend, is no more than it could then and the rate over the time since |
| BucketBursts.StepCapped | services/hybrid_bucket.go:105-113 | each single step keeps the local balance of a proxy without a client within the capacity |
| BucketSystem.StepBalances | services/hybrid_bucket.go:94-224 | each single step keeps the books: released, lost, held and stored tokens came from the script, from accrual or from a sleep |
| BucketSystem.StepMetered | services/hybrid_bucket.go:39-62 | each single step keeps the stored balance within [0, cap] and the lost grants within all grants, which never shrink |
| BucketSystem.StepTimed | services/hybrid_bucket.go:105-141 | each single step keeps local accrual and degraded sleeps worth no more than the time they took |
| HybridBucket.World.Eval | services/hybrid_bucket.go:31-63 | a script call grants and stores what the script function says |
| HybridBucket.HybridBucket.constructor | services/hybrid_bucket.go:80-90 | a new bucket starts empty, with Redis taken as reachable if there is a client, on a session key that may exist already |
| HybridBucket.HybridBucket.Wait | services/hybrid_bucket.go:94-191 | a Wait of a positive count releases exactly that count, of a count that is not positive nothing; all its calls but the last are answered; with at least a byte of rate and capacity it ends after at most one poll and one more for each thousandth of the floored rate (or capacity) still missing; a degraded one returns at once if the accrual since the last, capped at the capacity, covers the count, and otherwise sleeps at least the rest over the rate; the bucket stays within one burst and three rates |
| HybridBucket.HybridBucket.PollUntilServed | services/hybrid_bucket.go:149-190 | the polling loop releases the count, ends with the first call that fails, and with whole bytes makes at most the budgeted number of calls |
| HybridBucket.HybridBucket.Turn | services/hybrid_bucket.go:149-190 | a turn that goes on was answered and leaves the next poll at least a millisecond after its call |
| HybridBucket.HybridBucket.PollOnce | services/hybrid_bucket.go:149-190 | one turn either finishes or leaves a smaller need; a poll at least a millisecond after the last call pays a thousandth of the floored rate, or the capacity if that is less |
| HybridBucket.HybridBucket.Ask | services/hybrid_bucket.go:154-168 | one call and its settlement, as steps of the system |
| HybridBucket.HybridBucket.CallScript | services/hybrid_bucket.go:196-223 | the call asks for the whole bytes of the larger of need and rate, at the millisecond read before it, and may run later; an error grants nothing |
| HybridBucket.HybridBucket.MarkDown | services/hybrid_bucket.go:209-219 | a failed call marks Redis down and starts a probe only if none runs |
| HybridBucket.HybridBucket.ProbeAnswered | services/hybrid_bucket.go:234-240 | an answered probe marks Redis up and ends |
| HybridBucket.HybridBucket.OneProbe | services/hybrid_bucket.go:209-243 | between Waits there is one probe exactly while a bucket with a client has Redis marked down |
| HybridBucket.HybridBucket.TakeLocal | services/hybrid_bucket.go:98-127 | the first locked section: the fast path releases the count, otherwise the local balance, when degraded with the accrual since the last up to the capacity, is spent and the rest is owed |
| HybridBucket.HybridBucket.Settle | services/hybrid_bucket.go:157-165 | a grant of the need or more releases the count and prefetches the surplus, a smaller one reduces the need by itself |
| HybridBucket.HybridBucket.DegradedSleep | services/hybrid_bucket.go:129-141 | the degraded sleep is asked to last need / rate and releases the count |
| HybridBucket.HybridBucket.SleepBetweenPolls | services/hybrid_bucket.go:182-189 | the sleep between polls is asked to last need / rate, at least one and at most a hundred milliseconds |
| HybridBucket.PollEarns | services/hybrid_bucket.go:44-58 | a script call at least one millisecond after the last grants at least a thousandth of the floored rate, or the capacity if that is less |
| HybridBucket.NothingBelowOneByte | services/hybrid_bucket.go:202-204 | with a rate or a capacity below one byte no calls at any times are ever granted anything |
| SessionState.AddBigInRange | services/session_limiter.go:246-254 | reserving a slot that the check allows keeps active entries positive and distinct big paths within the cap |
| SessionState.DropBigInRange | services/session_limiter.go:255-262 | dropping a held slot keeps them too |
| SessionState.AddThenDrop | services/session_limiter.go:246-263 | a reservation that is undone restores every active set |
| SessionState.RejectionChangesNothing | services/session_limiter.go:312-340 | a rejected Acquire leaves total, every path counter and every active set as they were |
| SessionState.LeaveUndoesAdmit | services/session_limiter.go:342-355 | releasing an admitted request restores the counters it found |
| SessionState.VerdictIs | services/session_limiter.go:312-340 | each verdict of Acquire if and only if its own limit leaves no room and the ones before it do, in the order total, big files, path, client subnets |
| SessionSystem.CountersExact | services/session_limiter.go:305-357 | in every interleaving, total, each conc and each active entry of every object equal the number of callers between their own add and subtract, entries are at least 1 and distinct big paths respect the cap, however the size lookup answers |
| SessionSystem.StepInv | services/session_limiter.go:305-357 | every single step keeps this |
| SessionSystem.TotalWithinCrowd | services/session_limiter.go:312-342 | if at most k callers are ever between check and add on an object, its total is at most maxTotal - 1 + k |
| SessionSystem.PathWithinCrowd | services/session_limiter.go:330-343 | likewise each path counter against maxPerPath |
| SessionRaces.CapKeptIffOneAtATime | services/session_limiter.go:312-342 | under every positive cap on the total, it holds on every object in every run with at most k callers between check and add if and only if k is at most one |
| SessionRaces.PathCapKeptIffOneAtATime | services/session_limiter.go:328-343 | likewise every positive cap on the requests of a path |
| SessionRaces.PathReachesCrowd | services/session_limiter.go:328-343 | and its bound maxPerPath - 1 + k is reached, whatever the cap on the total |
| SessionRaces.TotalReachesCrowd | services/session_limiter.go:312-342 | under every positive cap and for every k there is a run with at most k callers between check and add that ends with maxTotal - 1 + k admitted |
| SessionRaces.TwoObjectsForOneSession | services/session_limiter.go:205-217 | a run in which one session ID has live requests on two objects |
| SessionRaces.LiveSessionMissing | services/session_limiter.go:345-356 | a run in which a late release deletes the table entry of a newer object with a live request |
| SessionIds.IdCapKeptIff | services/session_limiter.go:205-217 | for every positive cap on the total: the requests of every session ID keep it in all runs with at most k calls of that ID at a time, other sessions interleaving freely, if and only if k is at most one |
| SessionIds.IdPathCapKeptIff | services/session_limiter.go:305-357 | likewise every positive cap on the requests of an ID for a path |
| SessionIds.IdWithinCaps | services/session_limiter.go:205-357 | while the calls of one ID do not overlap, the ID keeps both caps, whatever other sessions do |
| SessionIds.AnyNumberForOneId | services/session_limiter.go:342-357 | with two calls of an ID at a time a run reaches any number of its requests live on one path, under all settings |
| SessionIds.StepOneObject | services/session_limiter.go:205-217 | every step keeps, while calls of the ID do not overlap: its callers are those on the table's object, which no other ID has |
| SessionIds.SessionGoesIff | services/session_limiter.go:347-353 | in any interleaving a step takes a session out of the table if and only if it is the delete of one of its releases on an object that nobody is counted on by then; until then the session keeps its object |
| SessionSystem.AcquireAlone | services/session_limiter.go:305-357 | the steps of one uninterrupted Acquire give the verdict and the counters of the atomic one |
| SessionSystem.ReleaseAlone | services/session_limiter.go:345-356 | the steps of one uninterrupted release undo the counts and delete the session with its last request |
| IpWindow.TrackKeepsLastVisits | services/session_limiter.go:285-301 | recording and pruning keeps exactly the last visit of every subnet in the window |
| IpWindow.PrunedMapCountsHistory | services/session_limiter.go:285-301 | for times that do not go back, the pruned map has one entry for every distinct subnet among all visits so far in the window |
| SessionLimiter.PruneExpired | services/session_limiter.go:295-299 | the loop deletes exactly the entries before the cutoff |
| SessionLimiter.SessionObject.TryAddBig | services/session_limiter.go:246-254 | reserves unless a new path would exceed the cap |
| SessionLimiter.SessionObject.ReleaseBig | services/session_limiter.go:255-262 | takes one request off the path and deletes it at zero |
| SessionLimiter.SessionObject.TrackIP | services/session_limiter.go:285-301 | returns the number of distinct subnets among all visits to the path within the window |
| SessionLimiter.SessionLimiter.GetSession | services/session_limiter.go:205-217 | finds the session or adds an empty one |
| SessionLimiter.SessionLimiter.Check | services/session_limiter.go:312-340 | the checks in order, with the reservation undone on a later rejection |
| SessionLimiter.SessionLimiter.Acquire | services/session_limiter.go:305-357 | the verdict is decided by the counters found; a fresh session is never rejected; a rejection changes no counter and no session; an admission adds one live request; other sessions are untouched; an empty ID is never limited; each rejection if and only if its limit leaves no room for the counters found and the limits before it do, for client subnets if and only if the distinct ones on the path within sixty seconds, with this one, are more than maxIPs; an admitted request leaves them within maxIPs |
| SessionLimiter.SessionLimiter.Release | services/session_limiter.go:345-356 | one live request less, counters down, session deleted exactly with its last request |
| SessionLimiter.SessionLimiter.SessionsAreLive | services/session_limiter.go:305-357 | the table holds exactly the sessions with a live request |
| SessionLimiter.SessionLimiter.TotalIsSumOfPaths | services/session_limiter.go:342-348 | a session's total is the sum over its paths |
| SessionLimiter.FreshIsAdmitted | services/session_limiter.go:312-340 | an empty session is over no cap |
| SessionLimiter.AdmitSound | services/session_limiter.go:312-343 | admission keeps counters exact and every cap kept per session |
| SessionLimiter.LeaveSound | services/session_limiter.go:345-356 | so does a release |
| Ranges.ResumeRangeReadsBack | services/retry_transport.go:133 | the Range header of a reconnect is read back as the open-ended range from its offset |
| Ranges.BoundedRangeReadsBack | services/retry_transport.go:81-90 | a bounded range is read back exactly |
| Ranges.SuffixRangeHasNoStart | services/retry_transport.go:77-80 | a suffix range has no start |
| Ranges.ContentRangeReadsBack | services/retry_transport.go:83-84 | the start of a Content-Range is read back |
| Ranges.UnsatisfiedTotalReadsBack | services/retry_transport.go:145-149 | the total of a 416 is read back and is no start |
| Ranges.RangeIff | services/retry_transport.go:307-344 | a range has a start if and only if a 64-bit number stands before its first dash and nothing or another after it; likewise the start of a Content-Range |
| Ranges.Signed | services/retry_transport.go:311-332 | a number is its digits with an optional sign, and none beyond 64 bits |
| Ranges.NotANumber | services/retry_transport.go:311-332 | and no other character |
| ResumingReader.OrigStartIsServedStart | services/retry_transport.go:66-90 | only 200 and 206 responses of requests that allow retries are wrapped; the resume offset is where the upstream says the stream starts, else where the request asked; a suffix range without it is left alone; 0 for a 200 |
| ResumingReader.ReadAdvances | services/retry_transport.go:205-208 | one read advances a connection that serves the object by exactly what it returns |
| ResumingReader.ReadStaysTruthful | services/retry_transport.go:205-211 | a connection that ends cleanly only at its end still does after a read |
| ResumingReader.RetryingReader.constructor | services/retry_transport.go:163-175 | nothing delivered, no retry used |
| ResumingReader.RetryingReader.ReadBody | services/retry_transport.go:205-208 | bytesRead and the delivered bytes grow by the chunk |
| ResumingReader.RetryingReader.Read | services/retry_transport.go:197-268 | the new state and the result of every Read are those specified; the delivered bytes stay the object from origStart without gap or repeat; with truthful ends an EOF means the window was delivered |
| ResumingReader.RetriesExactlyWhenBroken | services/retry_transport.go:205-245 | a retry is used exactly on a broken read of an incomplete stream while one is left; a complete stream ends cleanly; data comes before its error; a read without an error uses up a retry or part of the connection |
| ResumingReader.ReconnectsIffLost | services/retry_transport.go:197-306 | an empty read of an incomplete stream with a retry left reconnects, at origStart + bytesRead, if and only if its error is an unexpected EOF, a connection errno, a network error or one of the three texts, and no cancelled context; what the reconnect's first read gives is passed on as it is, and any other error is too |
| ResumingReader.OtherReads | services/retry_transport.go:205-228 | data keeps an error back; a lost connection of a complete stream is its end, and an error once the retries are used up |
| ResumingReader.NextSurvives | services/retry_transport.go:197-268 | while connections are only lost, at most maxRetries times, and every reconnect is answered and yields something, a read succeeds or ends the stream, and this stays so |
| ResumingReader.RetryingReader.Handle | services/retry_transport.go:209-267 | what follows from a read of the connection |
| ResumingReader.RetryingReader.Resume | services/retry_transport.go:238-267 | a retry asks for origStart + bytesRead, counts against the budget, and passes on what the new connection first returns |
| ResumingReader.RetryingReader.Close | services/retry_transport.go:270-278 | closes for good |
| ResumingReader.RetryingReader.Drain | services/retry_transport.go:197-268 | reading to the end terminates (retries left, then bytes and replies left) and delivers the object's bytes from where it stood; if connections are only lost, at most maxRetries times, and every reconnect is answered truthfully, it ends with EOF, the whole window delivered |
| ResumingReader.StaysWithinIff | services/retry_transport.go:133 | for a response of known length, no body, no upstream that serves the offsets it is asked for and no reads deliver more than that length if and only if it reached up to the object's end, was empty, or allows no retry |
| Sorting.SortedSorts | services/service_location.go:218-220 | sorting orders by key and keeps the elements |
| Sorting.SortedUnique | services/service_location.go:218-220 | two sorted lists of the same elements with distinct keys are equal |
| Sorting.FirstDifference | services/service_location.go:218-220 | the first character in which two strings differ decides their order, and a string comes before its extensions |
| Sorting.OrderDoesNotMatter | services/service_location.go:218-220 | with distinct keys the sorted list does not depend on the input order |
| Placement.ScanPods | services/service_location.go:226-234 | the scan of the hash distribution is the quotient by the interval; a negative number takes the first pod |
| Placement.OnlyLastPrefixUnserved | services/service_location.go:226-234 | for 1 to 1000 pods every prefix but fffff has a pod and fffff has none |
| ServiceLocation.OnlyLastHashUnserved | services/service_location.go:217-235 | so of all info hashes with 1 to 1000 pods exactly those that start with fffff get no pod, and none fails |
| Placement.PrefixesBalanced | services/service_location.go:226-234 | the prefix counts of any two pods differ by at most one |
| Placement.InfoHashParses | services/service_location.go:221-225 | an info hash always parses, to its five hex digits |
| Placement.ScanNode | services/service_location.go:272-277 | the inner scan of one node |
| Placement.ScanNodes | services/service_location.go:264-279 | the nested scan is the closed form: pod r / a of node q when r < m a, else the first pod of node q + 1, or none |
| Placement.ScanDecides | services/service_location.go:265-278 | one turn of the outer loop either gives the closed form's answer or leaves it open |
| ServiceLocation.FilterNodesByRole | services/service_location.go:282-306 | keeps a copy of a node for every stat that names it and allows the role; no role keeps all; unknown stats fail |
| ServiceLocation.OnlyAllowedNodes | services/service_location.go:297-305 | a node is kept exactly if it is in use and some stat allows it |
| NodeRoles.LabelsDecide | services/k8s/nodes_stat.go:39-58 | a node's list of allowed roles decides alone; without one the denied roles are kept off; without either the node is for everyone |
| NodeRoles.UnknownNode | services/service_location.go:298-304 | a node without a stat is for no role |
| NodeRoles.NoLabelsNoFilter | services/service_location.go:282-306 | where no node in use is labelled, no role filters anything |
| NodeRoles.NoLabelsNoRole | services/service_location.go:151-190 | and the whole resolution does not depend on the role |
| NodeRoles.KeptOffNotChosen | services/service_location.go:237-306 | node hashing takes a role to no node that keeps it off by its labels |
| NodeRoles.KeptOffUnlessLocal | services/service_location.go:151-190 | nor does the whole resolution, but for the own pods of a machine that prefers them |
| NodeRoles.LocalForAnyRoleIff | services/service_location.go:175-188 | such a machine serves a role that its node keeps off from its own pods if and only if it has one, node hashing finds a pod elsewhere, and the info hash falls to one of its own |
| ServiceLocation.AllowedOnce | services/service_location.go:297-305 | with distinct stats each node is kept once |
| ServiceLocation.SortedNodes | services/service_location.go:241-249 | the node list holds each node in use exactly once |
| ServiceLocation.KeptAreServed | services/service_location.go:265-272 | every node scanned has a pod, so the scan never divides by zero |
| ServiceLocation.DistributeByHash | services/service_location.go:217-235 | picks by the closed form on the sorted pods; a short hash crashes, an unparsable one fails |
| ServiceLocation.DistributeByNodeHash | services/service_location.go:237-280 | picks by the closed form on the role's nodes and the sorted pods |
| ServiceLocation.ChosenNodeAllowed | services/service_location.go:237-306 | a chosen pod is one of those offered, on a node the role may use |
| ServiceLocation.NobodyPickedIff | services/service_location.go:261-279 | node hashing picks nobody without an error if and only if the role has no node, the nodes are too many for an interval, or the number falls behind the last pod of the last node |
| PodOfHash.HashPlaces | services/service_location.go:217-235 | in plain arithmetic: the i-th of n pods in the order of their IPs has the prefixes whose thousandfold is in the i-th interval of length 1048575000 / n, and nobody the rest |
| PodOfHash.NodeHashPlaces | services/service_location.go:237-280 | the j-th pod of the q-th node that the role may use has the j-th interval within the q-th, by names and IPs in order |
| PodOfHash.NodeHashRest | services/service_location.go:264-279 | what rounding leaves of a node's interval goes to the next node's first pod, and to nobody after the last node |
| PodOfHash.PrefixIs | services/service_location.go:221-226 | the prefix is the number that the first five digits write in base 16 |
| PodOfHash.AnyPrefixIs | services/service_location.go:221-226 | where other requests are placed by a prefix, upper-case digits and a leading sign count too |
| PodOfHash.RandomUnlessHash | services/service_location.go:165-171 | only five to forty lower-case hex digits are placed by their prefix; other requests go to a random pod |
| PodOfHash.CannotResolve | services/service_location.go:151-190 | what is an error, a crash or unavailable: no endpoint, no subset, all pods ignored, no distribution, roles that cannot be looked up |
| PodOfHash.FirstSubsetOnly | services/service_location.go:156-157 | only the endpoint's first subset is looked at |
| PodOfHash.LocalPlacementFails | services/service_location.go:175-188 | a machine that prefers its own pods crashes on a request whose hash is shorter than five characters, and fails on one whose prefix is no number, when the random pod is elsewhere |
| ServiceLocation.NoNodeForRoleIff | services/service_location.go:282-306 | a role is left without a node if and only if no node in use is permitted |
| ServiceLocation.NoNodeIsUnavailable | services/service_location.go:261-263 | then the service is unavailable and no error is returned |
| ServiceLocation.OtherRolesNode | services/service_location.go:261-263 | a concrete request for which this happens |
| ServiceLocation.ChoiceIgnoresOrder | services/service_location.go:217-280 | with distinct IPs neither distribution depends on the order of the endpoints |
| ServiceLocation.LocatedIsOffered | services/service_location.go:164-189 | a located pod is one of those offered, also through the local-node preference |
| ServiceLocation.NeverIgnored | services/service_location.go:151-190 | a located pod is never on the ignore list |
| ServiceLocation.ProbedPodIsHealthy | services/service_location.go:124-149 | a pod found by probing is not ignored and answered its probe |
| ServiceLocation.OnlyUnhealthyIgnored | services/service_location.go:140-146 | probing adds only addresses of failed probes to the ignore list |
| ServiceLocation.OneMoreIgnoredEachTry | services/service_location.go:124-149 | the ignore list grows by exactly one address for each failed try; when all three fail the service is unavailable |
| ServiceLocation.ServiceLocation.FilterAddressesByIgnore | services/service_location.go:353-362 | keeps exactly the addresses not ignored, in order |
| ServiceLocation.ServiceLocation.LocalAddresses | services/service_location.go:176-181 | keeps exactly the local addresses, in order |
| ServiceLocation.ServiceLocation.GetKubernetes | services/service_location.go:151-190 | resolves as specified and changes nothing |
| ServiceLocation.ServiceLocation.GetFallback | services/service_location.go:333-351 | ignores the failed address, resolves again, fails where nothing is available, and never returns the failed address |
| ServiceLocation.ServiceLocation.GetKubernetesWithProbeCheck | services/service_location.go:124-149 | at most three tries, as specified |
| Fallback.HomeWithout | services/service_location.go:353-362 | ignoring one pod takes one pod from its node and none from others |
| Fallback.NodesWithout | services/service_location.go:241-250 | while the node keeps a pod the node list is unchanged |
| Fallback.HashedNodeIs | services/service_location.go:264-279 | the chosen node depends on the nodes and their numbers of pods only |
| Fallback.SameNodeIff | services/service_location.go:237-280 | node hashing without one pod stays on its node if and only if the node keeps another pod and, unless the pod was chosen by a rounding rest, the offset fits the remaining pods |
| Fallback.FallbackStaysOnNodeIff | services/service_location.go:333-351 | the same for the whole fallback, when no local pod is preferred |
| Fallback.AwayFromTheEnd | services/service_location.go:264-279 | it is enough that another pod is left and num % nodeInterval is at most nodeInterval minus the pods of the node |
| Fallback.FallbackStaysLocalIff | services/service_location.go:175-188 | on a machine that prefers its own pods the fallback is local if and only if a local pod is left and the distribution finds a pod that is local or the info hash falls to one of the local pods left; while one is left it falls back to no other node |
| Fallback.HashedStaysLocalIff | services/service_location.go:175-188 | with hashing and up to a thousand pods that is: if and only if a local pod is left and the info hash does not start with fffff |
| Fallback.FallbackMayLeaveTheNode | services/service_location.go:328-333 | a concrete fallback to another node |
| UrlChain.ExtractMod | services/url_parser.go:62-117 | the loop returns the rightmost configured mod, its path, name and the extra last seen from the right, and the path before it |
| UrlChain.RightmostIsLast | services/url_parser.go:73-101 | no configured mod is further right than the one chosen |
| UrlChain.NextTilde | services/url_parser.go:74-87 | between two neighbouring tildes nothing is missed |
| UrlChain.OwnExtraIff | services/url_parser.go:69-87 | a mod gets its own extra if and only if it has one, or the first segment to its right that has an extra, if any, has the empty one |
| ChainedUrls.ParsesWritten | services/url_parser.go:130-183 | a URL written as a hash, an origin path and any chain of mods with extras and paths is parsed to just these: hash, kind, origin path, the last mod with its own extra and path, and the path with the others; it is refused if and only if the hash is no mod and has no five lower-case hex digits in a row |
| ChainedUrls.ParsesNothing | services/url_parser.go:130-152 | an empty URL and an empty hash are refused, and a missing default service crashes |
| ChainedUrls.ExtractsLast | services/url_parser.go:62-117 | the last mod written is the one extracted, and the rest is left as it was |
| ChainedUrls.OriginReadsBack | services/url_parser.go:160-170 | without its mods a written path is its origin path |
| ChainedUrls.HashIff | services/url_parser.go:57-60 | the hash check accepts exactly the texts with five lower-case hex digits in a row |
| UrlChain.ForeignExtra | services/url_parser.go:69-87 | a concrete path whose mod gets the extra of a segment that is no mod |
| UrlChain.Parse | services/url_parser.go:130-183 | hash, kind, errors, path, mod and origin path as specified |
| UrlChain.ExtractAll | services/url_parser.go:160-170 | the second loop ends at the path without mods |
| UrlChain.OriginIsPrefix | services/url_parser.go:160-170 | the origin path is a prefix of the path and has no mod left |
| UrlChain.SourceUrlReadsBack | services/web.go:330 | the source URL of a parsed source parses to the same hash, kind, name and origin path |
| UrlChain.NextHop | services/web.go:330 | one hop removes exactly one mod and keeps hash and origin path |
| UrlChain.EveryHopPeelsOneMod | services/url_parser.go:130-183 | after k hops the k-th mod from the right is at work; after as many hops as mods none is left and the path is the origin path |
| UrlChain.NoMoreModsThanTildes | services/url_parser.go:73-101 | a path has no more mods than tildes, so the hops end |
| Strings.LinesJoin | services/manifest_rewriter.go:121 | cutting into lines and joining is the identity |
| Manifest.FindGraceRule | services/manifest_rewriter.go:47-55 | returns the first rule of kind grace and scope manifest with a token and a positive duration, and none exactly if there is none |
| Manifest.TagBeforeNewline | services/manifest_rewriter.go:82-129 | both tests for the offset tag agree although only one trims the end of the line |
| Manifest.StripSessionOffsetLine | services/manifest_rewriter.go:79-88 | the lines without the offset tags, in order |
| Manifest.RewriteManifest | services/manifest_rewriter.go:103-162 | no rule or no token: unchanged; offset past the grace period: stripped; else rewritten line by line |
| Manifest.RewriteLines | services/manifest_rewriter.go:118-161 | the one-pass loop is the per-line description |
| Manifest.PendingIs | services/manifest_rewriter.go:133-144 | the duration of a segment is the last readable EXTINF since the segment before |
| SegmentTimes.NextSegment | services/manifest_rewriter.go:153-157 | from one segment to the next the movie time grows by exactly the duration of the first, the last readable one since the segment before |
| SegmentTimes.FirstSegment | services/manifest_rewriter.go:115 | the first segment starts at the offset |
| SegmentTimes.InGraceIff | services/manifest_rewriter.go:153-156 | a segment is swapped if and only if its duration is positive and it starts before the end of the grace period |
| SegmentTimes.WithoutExtinf | services/manifest_rewriter.go:133-158 | a segment without an EXTINF line of its own is not swapped and takes no time |
| SegmentTimes.UniformInGraceIff | services/manifest_rewriter.go:153-157 | where all segments last d > 0, the one after n others is in the grace period if and only if offset + n d is before its end |
| SegmentTimes.UniformServed | services/manifest_rewriter.go:103-162 | of such a playlist exactly the first m segments are swapped, m being the number of n with offset + n d before the end of the grace period |
| SegmentTimes.UniformBody | services/manifest_rewriter.go:103-162 | the same from the body and the rule |
| SegmentTimes.ExtinfKind | services/manifest_rewriter.go:122-139 | an EXTINF line, with blanks before it and any line end, gives the text up to its first comma |
| SegmentTimes.OtherKinds | services/manifest_rewriter.go:122-151 | and which other lines are offset tags, passed on, or segments |
| SegmentTimes.OffsetRead | services/manifest_rewriter.go:59-74 | the offset is the number in the first offset tag up to the end of its line, or zero if it cannot be read |
| SegmentTimes.NoOffset | services/manifest_rewriter.go:59-63 | and zero without a tag |
| Manifest.NoExtinfNoSwap | services/manifest_rewriter.go:101-102 | without a readable EXTINF the playlist is only stripped, as a master playlist is |
| Manifest.InGraceFirst | services/manifest_rewriter.go:152-157 | without negative durations the segments in the grace period are the first ones |
| Manifest.SwapChangesIff | services/manifest_rewriter.go:167-176 | a swap changes a line exactly when it holds the token and the other token differs |
| Manifest.DocumentedSwapIff | services/manifest_rewriter.go:164-176 | for URL-safe tokens the swap is the documented one, of the first whole parameter ?token= or &token= with the primary token, if and only if there is no occurrence, the tokens are the same, or the first occurrence is a whole parameter |
| Manifest.SwapsPartOfParameter | services/manifest_rewriter.go:164-176 | two concrete lines on which they differ: xtoken=P and token=PQ |
| Manifest.RewrittenIsKeptIff | services/manifest_rewriter.go:118-161 | rewriting equals stripping if and only if no line is swapped |
| Manifest.EarlyExitSoundIff | services/manifest_rewriter.go:109-113 | the early exit changes nothing if and only if it is not taken or no line would be swapped |
| Manifest.EarlyExitSound | services/manifest_rewriter.go:109-113 | without negative durations the early exit is always sound |
| Manifest.NegativeDurationHidesSwap | services/manifest_rewriter.go:109-113 | a concrete playlist, with its offset tag, on which it is not |
| Manifest.NoTagLeft | services/manifest_rewriter.go:79-88 | no line of a stripped playlist is an offset tag |
| Manifest.StripTwice | services/manifest_rewriter.go:79-88 | stripping twice is stripping once |
| Manifest.Untouched | services/manifest_rewriter.go:118-161 | a playlist without offset tags and without a swap is passed on byte for byte |

## Left out

- HTTP serving, reverse proxying, headers, CORS, metrics, logging and flags: input and output.
- Token parsing and signature checks: the rules, the role and the rate are inputs.
- Kubernetes, DNS and real probes: endpoints, node statistics and probe results are arbitrary inputs; resolution from the environment is an input of the fallback.
- The caches around resolution, probing and buckets, and the moment at which an ignored address lapses: an entry lapses between calls only.
- `net.ParseIP`: addresses are compared as written, in one normal form.
- Redis itself: the script is one atomic step that succeeds, fails without effect, or takes effect with its reply lost; number formatting is exact.
- Rounding of floats and of durations to nanoseconds, and NaN and infinite values of rates, offsets and durations.
- `file_size_cache.go`, `isBigFile`, `isLightExt` and `subnetKey`: whether a file is big and its subnet key are inputs that may change from call to call.
- `access_history.go`, `speedtest.go`, response writers, redirect following, `clickhouse.go`: short members or plumbing.
- `filepath.Clean`, URL escaping and query parameters: the path of a mod is cleaned by an arbitrary function.
- `strconv.ParseFloat` with its trimming of space: an arbitrary function from texts to numbers.
- The sorts are modelled on values, as insertion sorts: where two addresses have the same IP the original leaves their order open.
- BucketOutages.OneProxyReleasedOverTime: adds 2 N + 1 milliseconds of rate, and N for every five seconds, because stamps are whole milliseconds and sleeps are not; a probe answers five seconds after it starts or later, as its ticker does.
- BucketSystem.RunInv: takes a key left over from before to be in the range of the session's present rate, and a script call to run, if it runs at all, before its caller sees the error.
- HybridBucket.HybridBucket.Wait: is one goroutine on one bucket; others run in `BucketSystem`. While Redis is up and the local balance is short it asks for a rate and a capacity of at least one byte, or for a later script call that fails, since otherwise the original does not return (`BucketRuns.NothingReleasedIff`).
- SessionLimiter.SessionLimiter.Acquire: is atomic, on objects with the path and hash states folded in; interleavings are in `SessionSystem`, where the window check of client IPs is a free choice.
- SessionSystem.TotalWithinCrowd: speaks of each object; for session IDs `SessionIds.IdCapKeptIff` has the exact condition.
- ResumingReader.RetryingReader.Read: the Content-Range of a reconnect is not looked at, as in the original, so an upstream that serves the offset it was asked for is assumed.
- ResumingReader.RetryingReader.Close: a closed connection is taken to fail every later read.
- Fallback.FallbackStaysOnNodeIff: leaves out machines that prefer a local pod they have; for those `FallbackStaysLocalIff` says when the fallback is local.
- UrlChain.Parse: the token, the API key and the raw query are copied by the original and not modelled.
