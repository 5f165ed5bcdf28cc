# Models of the service library, and what holds of them

This Dafny project models the parts of the library whose promises reach over whole runs or over unbounded inputs, and
proves those promises. `dafny verify dfyconfig.toml` checks everything.

- **Outbox** (`OutboxModel`, `OutboxInvariant`, `OutboxTheorems`, `OutboxBudget`, `OutboxClaims`, `OutboxLateStamp`,
  `OutboxEffects`, `OutboxStore`).
  The transactional outbox is a step system: the `outbox_events` table is durable; what sessions have staged, the
  immediate publishes in flight, the ids waiting for their mark and each relay's batch are volatile; the broker log and a
  history record what happened. Steps are staging, commit, rollback, an immediate publish, a flush of marks, reclaim,
  claim, one publish of a relay, stamp, cleanup, the passing of time and the loss of any part of the volatile state, with
  any number of sessions and relays. `OutboxStore` holds the code itself as classes: the relay's
  statements are proved to be the model's functions of the table, and a process, seen through the model's account of its
  staged rows and publishes in flight, is proved to take the model's steps.
- **Coalescer** (`Coalesce`), the object that gathers the marks.
- **Edit distance** (`EditDistance`): the two-row program equals the length of the shortest edit script.
- **Routing session** (`Routing`): reads on an autocommit engine and a sticky switch to a write transaction refine a plain
  READ COMMITTED session.
- **Rate limits** (`TokenBucket`, `TokenRoom`, `OrgLimiter`, `SlidingWindow`, `WindowRoom`): the two Redis scripts over
  real time, exactly what they admit, and what gets through while Redis fails.
- **Negotiation** (`Negotiation`, `Shrinking`): the ladder of prices, the game played with it, and how much room makes its
  moves shrink.
- **Lead emails** (`LeadLabels`, `LeadFields`, `LeadValues`): picking labels out of overlapping hits and reading the values after them.
- **Consent** (`Consent`, `ConsentRule`, `ConsentReasons`, `ConsentCache`): the verdict on a history, the rule it follows,
  the reasons it gives, and the cache of a bulk send.
- **Event consumer and user replicas** (`Consumer`, `UserSync`).
- **Cancel on disconnect** (`CancelOnDisconnect`): application, pump and middleware as three interleaved coroutines.

Mutable objects are classes, loops are methods with invariants, and each such method is proved against a function whose
own properties the lemmas state. Runs are sequences of steps, each enabled where it is taken.

## Where a promise fails

The code is modelled as it is; where it does not keep something one would expect of it, a lemma gives the input and
another the exact condition.

- A relay's claim is not exclusive merely because no reclaim ran since: a relay whose row was reclaimed earlier can stamp
  `pending` over another relay's claim (`OutboxLateStamp.NoReclaimBetweenTheirClaims`). What lies between the claims of two
  relays that hold one row is, in every run, a reclaim of the row more than RECLAIM_AFTER_SECONDS after the first claim or
  such a stamp of another relay that held it then (`OutboxClaims.TwoHoldersMeanAnOpening`); step by step the exact
  conditions are `OutboxTheorems.ReopenedWhileHeldIff` and `OutboxTheorems.SecondClaimIff`.
- `thecargo/negotiation.py:4-6` and `:47` say the moves shrink. Rounding can make one grow: with 16 to go in two moves they
  are 5 and 11 (`Negotiation.MovesMayGrow`), with 22 in three they are 5, 10 and 7 (`Shrinking.MiddleMoveMayGrow`). A gap of
  c rounding steps for each of the m(m + 3)/2 units of the ladder makes all moves shrink if and only if c is at least 5/3
  (`Shrinking.RoomThatSufficesIff`), and the moves before the last if and only if c is at least 1
  (`Shrinking.RoomForEarlyMovesIff`); with c at least 1 a single comparison decides (`Shrinking.ShrinkIff`).
- `thecargo/events/consumer.py:25-28` says a handler that raises sends its message back once. It does not after a lost
  connection, which already marked the message redelivered (`Consumer.LossSpendsTheSecondChance`, `Consumer.LeavesIff`).
- Naming an engine in a call bypasses the routing switch (`thecargo/db/routing.py:126`): with the write engine the session then
  says it does not write while it has an uncommitted write (`Routing.NamedWriteEngineIff`, `Routing.NamedWriteEngineHidesTheWrite`).
  The read engine, named, answers as a plain session would if and only if the session's uncommitted writes change nothing
  (`Routing.NamedReadEngineIff`).
- While Redis fails, requests get through that no script admitted. The per-route limit exceeds its bound by exactly the
  errors met: a full window at time 0 and n errors then (`SlidingWindow.BurstPasses`), and windows with at most n errors
  stay within `extra` of the limit in every run if and only if `extra` is at least n (`SlidingWindow.ErrorsCostIff`). The
  organization limit has no bound in the number of errors, since one error opens a pause in which its process asks nobody
  (`OrgLimiter.OneErrorIsEnough`); it exceeds its bound by exactly the requests that went unasked
  (`OrgLimiter.UnaskedCostIff`), and not at all where no error was met in the interval or PAUSE_AFTER_REDIS_ERROR seconds
  before it (`OrgLimiter.QuietIntervalsKeepTheBound`).
- A sliding-window limit is kept if and only if it is at least 1 (`SlidingWindow.BoundedIff`); below 1, and only there,
  every request of every run from an empty key is admitted (`SlidingWindow.AdmitsEverythingIff`). A token bucket ever
  admits a call if and only if its burst is at least 1 (`TokenBucket.AdmitsAnyIff`), which is also when Retry-After can be
  relied on (`TokenBucket.RetryAfterSufficesIff`).
- The per-route limit's Retry-After is cut off twice, so a caller that waits as told may be refused again
  (`WindowRoom.RetryAfterMayBeShort`); it is admitted exactly if there is room within a second or both the moment of room
  and the moment of the refusal are whole seconds (`WindowRoom.RetryAfterSufficesIff`).
- With the limit behind the opening price, the first counter passes the limit (`Negotiation.LimitKeptIff`).
- Two consent rows of one bucket with the same time are decided by their order (`ConsentRule.TiesGoToTheLaterInTheList`), for
  some message, if and only if they say different things (`ConsentRule.TiesAreIdleIff`).

## Model

| member | source | states |
|---|---|---|
| OutboxInvariant.InvKept | thecargo/events/outbox.py:71-220 | every step keeps the invariant: each trace of an event goes back to one commit; no (row, attempt) is delivered twice or both delivered and still to be sent; "published" implies delivered; a row is held by one relay unless a reclaim took it; only rows past the grace window were ever claimed |
| OutboxTheorems.NothingLostNothingInvented | thecargo/events/outbox.py:46-220 | in every run a committed event is in the table or has reached the broker, a published row has reached it, a rolled-back or lost one has not, and it gets there at most RELAY_MAX_ATTEMPTS + 1 times, always as the committed event with the same stamp |
| OutboxTheorems.CopiesAreTickets | thecargo/events/outbox.py:168-181 | where no attempt number repeats, the copies of an event are as many as its distinct attempt numbers, and there is one exactly if the event is among those sent |
| OutboxTheorems.DeliveredOnceInTime | thecargo/events/outbox.py:77-112 | if the immediate publish succeeds and its mark commits within the grace window, no relay ever claims the row and the event is delivered exactly once, however the run goes on |
| OutboxTheorems.SettledKept | thecargo/events/outbox.py:151-197 | a delivered row marked before any claim stays published and unclaimed under every step, late stamps and reclaims of other rows included |
| OutboxTheorems.TwoHoldersMeanALateReclaim | thecargo/events/outbox.py:151-208 | two relays hold one row only if, some time in the row's history, a reclaim took it from a relay still holding it, more than RECLAIM_AFTER_SECONDS after that relay's claim |
| OutboxClaims.TwoHoldersMeanAnOpening | thecargo/events/outbox.py:151-208 | two relays that hold one row at the end of any run claimed it one after the other and held it ever since, and strictly between the two claims lies a step that made the row pending again: a reclaim whose cutoff passed the first claim by more than RECLAIM_AFTER_SECONDS, or the failing stamp of another relay that held the row then |
| OutboxClaims.BetweenTwoClaims | thecargo/events/outbox.py:168-208 | the same for any two claims of one row in a run, the first relay holding on to it until the end |
| OutboxClaims.HeldSinceClaim | thecargo/events/outbox.py:168-197 | a relay that holds a row has held it without a break since some claim of its own that took the row |
| OutboxTheorems.PromptRelaysNeverShareARow | thecargo/events/outbox.py:185-208 | while every relay stamps within RECLAIM_AFTER_SECONDS of its claim, no row is ever held twice, whatever marks, reclaims and crashes happen beside it |
| OutboxTheorems.SecondClaimIff | thecargo/events/outbox.py:151-173 | a row that a relay holds can be claimed by another one if and only if it is pending with attempts left |
| OutboxTheorems.ReopenedWhileHeldIff | thecargo/events/outbox.py:192-208 | a held row becomes pending again if and only if a reclaim finds it stuck or another relay that holds it stamps it as failed |
| OutboxLateStamp.NoReclaimBetweenTheirClaims | thecargo/events/outbox.py:192-195 | a run of two relays at whose end both hold one row, with no reclaim since the first of the claims they hold it by |
| OutboxBudget.RelaysRunDry | thecargo/events/outbox.py:154-173 | over any run, the rows claimed plus the attempts left are at most the attempts left before plus RELAY_MAX_ATTEMPTS per newly committed event, so without new events claims end |
| OutboxBudget.AttemptsAreUses | thecargo/events/outbox.py:77-172 | over any run a row's attempts grow by exactly the number of its claims and marks; no failure, stamp, reclaim or crash spends or restores one |
| OutboxBudget.StepBudget | thecargo/events/outbox.py:77-197 | no step but a commit raises the sum of attempts left, and a claim lowers it by at least its batch |
| OutboxInvariant.RelayPublishKeepsTickets | thecargo/events/outbox.py:175-183 | after a relay's publish, whether it reached the broker or not, still no attempt number of a row is sent twice, or sent and held by a claim yet to be sent |
| OutboxInvariant.ClaimKeepsTickets | thecargo/events/outbox.py:154-173 | a claim takes only attempt numbers within the limit that no delivery has used and no other relay holds |
| OutboxInvariant.CommitKeepsTickets | thecargo/events/outbox.py:117-130 | the publishes a commit starts are of rows not yet sent or marked, and the attempt numbers of all other rows stay good |
| OutboxInvariant.StampKeepsExclusive | thecargo/events/outbox.py:185-196 | a stamp keeps every row that no reclaim took from its relay with at most one relay, and not pending meanwhile |
| OutboxEffects.MessageCarriesAnId | thecargo/events/outbox.py:56 | a message carries the event id its payload brings, or the row's when that is missing or falsy, and all else of the payload unchanged |
| OutboxEffects.FalsyIff | thecargo/events/outbox.py:56 | the values that count as no event id: null, false, zero, and the empty text, list and object |
| OutboxEffects.StampSettles | thecargo/events/outbox.py:185-196 | a stamp makes published, with the time, exactly the rows its relay delivered, makes pending, with the error, those that failed, spends no attempt and touches no other row |
| OutboxEffects.ClaimTakes | thecargo/events/outbox.py:154-173 | a claim makes its rows publishing, each with one attempt more, hands them to the relay in order and touches no other row |
| OutboxEffects.ReclaimReturns | thecargo/events/outbox.py:200-208 | a reclaim makes pending exactly the rows that have been publishing for more than RECLAIM_AFTER_SECONDS |
| OutboxEffects.CleanupDropsIff | thecargo/events/outbox.py:213-220 | a cleanup drops a row if and only if it was published longer ago than the retention, and keeps the others as they are |
| OutboxEffects.CommitHandsOver | thecargo/events/outbox.py:117-130 | a commit puts every event its session staged into the table as a new pending row and, if a loop runs, in flight; other sessions' events stay staged |
| OutboxEffects.RollbackDrops | thecargo/events/outbox.py:132-134 | a rollback drops the events of its session and no other |
| OutboxEffects.PublishReports | thecargo/events/outbox.py:98-112 | an immediate publish logs its message unless it failed before reaching the broker, and a mark waits exactly if it succeeded |
| OutboxEffects.FlushPublishes | thecargo/events/outbox.py:77-87 | a flush makes published, with the time and an attempt, exactly the rows marked |
| OutboxEffects.StraightToPublished | thecargo/events/outbox.py:77-130 | from any reachable state, an event committed while a loop runs, delivered and flushed is published, reached the broker once and is nowhere on its way any more |
| OutboxEffects.StampedIsNeverClaimedAgain | thecargo/events/outbox.py:151-197 | over every run, a row that its only holder delivered and stamped stays published and is never claimed again |
| OutboxStore.Publisher.Connect | thecargo/events/publisher.py:12-23 | a failure at any of its four steps, two of them after the channel is set, leaves neither connection nor channel, so that every later delivery fails; without one every delivery is the network's affair |
| OutboxStore.Publisher.Disconnect | thecargo/events/publisher.py:26-32 | afterwards every delivery fails, and none is skipped as if it had been made |
| OutboxStore.Publisher.Publish | thecargo/events/publisher.py:35-48 | without a channel the message is skipped and the call succeeds; otherwise it reaches the broker as the network has it |
| OutboxStore.Publisher.Deliver | thecargo/events/outbox.py:46-57 | success means the stamped message has reached the broker; without an open channel it fails and nothing is sent, so publish's silent skip cannot pass for a delivery |
| OutboxStore.Process.PublishEvent | thecargo/events/outbox.py:71-74 | is the model's Stage step, and the row joins the end of its session's list |
| OutboxStore.Process.AfterCommit | thecargo/events/outbox.py:117-130 | leaves the staged rows and the publishes in flight that the model's Commit step leaves, whether or not a loop runs |
| OutboxStore.Process.AfterRollback | thecargo/events/outbox.py:132-134 | leaves the staged rows that the model's Rollback step leaves, and starts no publish |
| OutboxStore.Process.PublishOne | thecargo/events/outbox.py:98-112 | is the model's PublishNow step: exactly what the model logs goes on the wire, a mark is queued exactly where the model notes one, and the row leaves the publishes in flight either way |
| OutboxStore.Store.MarkPublished | thecargo/events/outbox.py:77-87 | the new table is the model's mark of these ids, or the old one when the transaction fails |
| OutboxStore.Store.ReclaimStuck | thecargo/events/outbox.py:200-210 | the new table is the model's reclaim |
| OutboxStore.Store.Claim | thecargo/events/outbox.py:152-173 | the new table is the model's claim, and the batch holds the rows' events in order |
| OutboxStore.Store.PublishBatch | thecargo/events/outbox.py:175-183 | what reached the broker, and the published and failed ids, are those of the model's publishes one after the other |
| OutboxStore.Store.StampBatch | thecargo/events/outbox.py:185-196 | the new table is the model's stamp, the failed ids written last; what a stamp does to each row is `OutboxEffects.StampSettles` |
| OutboxStore.Store.CleanupPublished | thecargo/events/outbox.py:213-220 | exactly the expired published rows are gone, and their number is returned |
| OutboxStore.Store.RelayOnce | thecargo/events/outbox.py:137-197 | undisturbed, one pass is reclaim, claim, publishes and stamp of the model in this order: every row of the batch spends one attempt, those whose send succeeded end published with the time, those whose send failed end pending with their error, cut to its length, and no other row changes after the reclaim; without an open channel it does nothing |
| Coalesce.Coalescer.Add | thecargo/coalesce.py:21-27 | items queue up in order, one drain is started if none waits, and a change of loop drops the old queue first |
| Coalesce.Coalescer.Take | thecargo/coalesce.py:37-39 | hands over the whole queue and leaves it empty with no drain |
| Coalesce.Coalescer.Drain | thecargo/coalesce.py:29-35 | a drain, woken or cancelled while it waits, flushes exactly what is queued |
| Coalesce.EpochEndsIff | thecargo/coalesce.py:21-39 | an addition on another loop than the waiting drain's, and no other step, drops the queue, which then holds just the new items for a drain of the new loop |
| Coalesce.RunConserves | thecargo/coalesce.py:21-39 | over any run and any number of loops, the added items are, in order, those flushed batch by batch followed by those dropped at a change of loop or still queued; at most one drain waits, and none only over an empty queue |
| Coalesce.OneLoopConserves | thecargo/coalesce.py:21-39 | on one loop the flushed batches followed by the queue are exactly what was added |
| EditDistance.Levenshtein | thecargo/templating/registry.py:511-528 | returns the edit distance of its arguments |
| EditDistance.NextRow | thecargo/templating/registry.py:520-527 | the inner loop turns one row of the distance table into the next |
| EditDistance.EntryIsDist | thecargo/templating/registry.py:520-527 | an entry of the table is the distance of the two prefixes it stands for |
| EditDistance.DistIsEditDistance | thecargo/templating/registry.py:511-528 | some script of insertions, deletions and substitutions that long turns a into b, and none is shorter |
| EditDistance.Symmetric | thecargo/templating/registry.py:511-528 | the distance is symmetric |
| EditDistance.Triangle | thecargo/templating/registry.py:511-528 | the distance satisfies the triangle inequality |
| EditDistance.ZeroIffEqual | thecargo/templating/registry.py:511-513 | the distance is zero exactly for equal strings |
| EditDistance.SuggestCorrection | thecargo/templating/registry.py:501-508 | the suggestion is the first of the nearest paths within max_distance, and there is none exactly when every path is further |
| Routing.RoutingSession.GetBind | thecargo/db/routing.py:125-130 | the engine chosen, and that the session starts writing exactly when a statement that needs a transaction, or a flush, meets no named engine; which statements those are, `Routing.OpeningStatementsWrite` and `Routing.OtherStatementsRead` say by their shape |
| Routing.RoutingSession.Connection | thecargo/db/routing.py:132-135 | a connection that does not ask for autocommit makes the session write and, unless its bind arguments name another, is the write engine's; "not writing" keeps its meaning |
| Routing.RoutingSession.BeginNested | thecargo/db/routing.py:137-139 | is the model's Savepoint step, after which a session that says it does not write has neither savepoint nor uncommitted write |
| Routing.RoutingSession.TransactionEnded | thecargo/db/routing.py:142-146 | is the model's step that ended the transaction, outermost or nested, committed or rolled back: reads are handed back only when nothing uncommitted and no savepoint is left |
| Routing.OpeningStatementsWrite | thecargo/db/routing.py:72-130 | with a read engine and none named, DML, a locking select, flagged text, a select with a transactional function or flagged text among its columns, labelled or not, and every flush are never refused, make the session write and answer as in a plain session |
| Routing.OtherStatementsRead | thecargo/db/routing.py:72-130 | a statement of any other shape runs on the read engine and leaves the session reading, unless it writes already; it is refused if and only if the guard flags it |
| Routing.WritingLasts | thecargo/db/routing.py:125-146 | once the session writes, every step but the end of its outermost transaction leaves it writing, and that end makes it read again |
| Routing.OwnWritesShow | thecargo/db/routing.py:125-130 | a statement of a writing session sees the committed rows with the session's own writes over them |
| Routing.StepRefines | thecargo/db/routing.py:125-162 | a step that is not refused answers and ends like the plain session's, a refused one changes nothing; "not writing" always means no uncommitted write and no savepoint |
| Routing.RunRefines | thecargo/db/routing.py:108-162 | over every run without a refused statement, others committing in between, the routed session gives the plain session's answers and leaves its database, and the read engine runs no flagged statement |
| Routing.NamedWriteEngineIff | thecargo/db/routing.py:125-130 | with the write engine named in the call, "not writing" stays true to its meaning if and only if the statement wrote nothing |
| Routing.NamedWriteEngineHidesTheWrite | thecargo/db/routing.py:125-130 | after such a write the session's next read misses it, a plain session's does not |
| Routing.NamedReadEngineIff | thecargo/db/routing.py:125-130 | the read engine named by the caller answers every statement that only reads like a plain session if and only if the session's uncommitted writes change nothing |
| TokenBucket.Key.TakeToken | thecargo/middleware/rate_limit.py:45-64 | the reply and the new bucket are those of refilling for the time passed and taking one token if there is one; the expiry is a full refill and a second away |
| TokenBucket.LeftFits | thecargo/middleware/rate_limit.py:51-60 | the tokens stay within 0 and the burst |
| TokenBucket.AdmissionsBounded | thecargo/middleware/rate_limit.py:45-64 | in every run the calls admitted in any interval are at most the burst plus the rate times its length |
| TokenBucket.ExpiryUnobservable | thecargo/middleware/rate_limit.py:61-62 | a key that may be gone from its expiry on gives exactly the replies of one that never expires |
| TokenBucket.RefusalCostsNothing | thecargo/middleware/rate_limit.py:54-61 | after a refusal the bucket is, at every later time, as full as if the call had not been made |
| TokenBucket.RetryAfterSuffices | thecargo/middleware/rate_limit.py:153-163 | with a burst of at least 1, after a refusal and any number of further refused calls, a call made Retry-After seconds after the refusal or later is admitted |
| TokenBucket.RetryAfterSufficesIff | thecargo/middleware/rate_limit.py:54-60 | waiting for Retry-After is enough for every bucket and time if and only if the burst is at least 1 |
| TokenBucket.AdmitsAnyIff | thecargo/middleware/rate_limit.py:54-56 | some bucket at some time admits a call if and only if the burst is at least 1 |
| TokenBucket.SpacedCallsAdmitted | thecargo/middleware/rate_limit.py:51-60 | of calls at least 1/rate apart only the first can be refused, and it is exactly when there is no token for it |
| TokenRoom.AdmittedIffBoundKept | thecargo/middleware/rate_limit.py:45-64 | from a full bucket, in every run, a call is admitted if and only if with it the calls admitted in every interval up to it stay within the burst plus the rate times its length: the bucket keeps the bound and refuses nothing that would |
| TokenRoom.ReplyIsLeastWait | thecargo/middleware/rate_limit.py:54-60 | with a burst of at least 1 the reply is the least whole number of milliseconds after which there is a token |
| TokenRoom.RetryAfterIsLeastWait | thecargo/middleware/rate_limit.py:54-60 | and Retry-After the least whole number of seconds, one or more |
| OrgLimiter.RateLimitMiddleware.Take | thecargo/middleware/rate_limit.py:137-163 | a caller is told to wait at least a second and at least the time the script named; a Redis failure lets every call through for PAUSE_AFTER_REDIS_ERROR seconds; the call meets exactly what the runs below say it may |
| OrgLimiter.PassedBounded | thecargo/middleware/rate_limit.py:137-163 | in every run of any number of processes, with Redis failing as it may, an interval lets through at most the burst, the rate times its length and the requests nobody asked the bucket about |
| OrgLimiter.UnaskedCostIff | thecargo/middleware/rate_limit.py:137-163 | intervals with at most n unasked requests stay within extra of the bucket's bound, in every run, if and only if extra is at least n, less a burst that is below one token |
| OrgLimiter.OneErrorIsEnough | thecargo/middleware/rate_limit.py:138-160 | for every number there is a run with a single error that exceeds the bucket's bound by more |
| OrgLimiter.WorstPasses | thecargo/middleware/rate_limit.py:138-160 | the run that does it: a burst, one more call as soon as there is a token, and an outage of n requests at that moment |
| OrgLimiter.QuietIntervalsKeepTheBound | thecargo/middleware/rate_limit.py:138-158 | an interval without an error in it or in the PAUSE_AFTER_REDIS_ERROR seconds before keeps the bucket's own bound |
| SlidingWindow.Key.Ask | thecargo/middleware/rate_limit.py:20-43 | the answer and the entries left are those of dropping what is older than the window and recording the call if there is room; only a recorded call renews the expiry |
| SlidingWindow.RefusedIff | thecargo/middleware/rate_limit.py:198-203 | with a limit of at least 1 the dependency refuses exactly the calls the script did not record |
| SlidingWindow.AdmissionsBounded | thecargo/middleware/rate_limit.py:20-43 | in every run every half-open window of the given length holds at most limit admissions |
| SlidingWindow.PassesBounded | thecargo/middleware/rate_limit.py:196-211 | with Redis failing at any requests, before or after the script ran, a window lets through at most limit requests and those that met an error |
| SlidingWindow.ErrorsCostIff | thecargo/middleware/rate_limit.py:196-211 | windows with at most n errors let through at most extra requests beyond the limit, in every run, if and only if extra is at least n |
| SlidingWindow.BurstPasses | thecargo/middleware/rate_limit.py:196-211 | the run that uses it up: as many requests as the window has places left, all at time 0, and n errors at the same moment, all let through |
| SlidingWindow.BoundedIff | thecargo/middleware/rate_limit.py:201-203 | that bound holds for all windows and runs if and only if the limit is at least 1 |
| SlidingWindow.AdmitsEverythingIff | thecargo/middleware/rate_limit.py:30-37 | every request of every run from an empty key is admitted if and only if the limit is below 1 |
| SlidingWindow.ExpiryUnobservable | thecargo/middleware/rate_limit.py:39-41 | EXPIRE changes no answer |
| WindowRoom.AdmittedIff | thecargo/middleware/rate_limit.py:20-43 | in every run from an empty key a request is admitted if and only if fewer than limit admissions lie in the window that ends with it, open at its start, and the count answered is theirs and its own |
| WindowRoom.ResetIsWhenRoomReturns | thecargo/middleware/rate_limit.py:30-37 | a refused request is told the moment, without its fraction, from which on a request is admitted if none comes between |
| WindowRoom.RetryAfterSufficesIff | thecargo/middleware/rate_limit.py:198-203 | waiting for Retry-After is enough if and only if there is room within a second or both that moment and the refusal's are whole seconds; it is never two seconds short |
| WindowRoom.RetryAfterMayBeShort | thecargo/middleware/rate_limit.py:198-203 | a refusal after which waiting as told is not enough |
| Negotiation.Ladder | thecargo/negotiation.py:46-61 | the loop computes the ladder that the lemmas below are about: the limit's distance split by falling weights, rounded down, without repeated prices |
| Negotiation.LadderShape | thecargo/negotiation.py:46-61 | for every positive gap and move count the ladder starts at open, climbs strictly, ends exactly at the limit, has at most one price more than moves, and a move exceeds the one before by at most ROUNDING, the last by less than twice that |
| Negotiation.RungsAreRoundedTargets | thecargo/negotiation.py:46-61 | the prices below the limit are, for the first k of m moves, the opening price moved by the gap times k(2m + 3 - k) / (m(m + 3)) rounded down to a multiple of ROUNDING; none is missing and there is no other |
| Negotiation.NoMoveIff | thecargo/negotiation.py:48-50 | the ladder is the opening price alone if and only if the limit is not beyond it or there are no moves to make |
| Negotiation.SellMirrorsBuy | thecargo/negotiation.py:46-61 | the selling ladder is the buying ladder of the mirrored band, negated |
| Negotiation.MovesMayGrow | thecargo/negotiation.py:46-61 | with 16 to go in two moves the moves are 5 and 11 |
| Shrinking.RoomThatSufficesIff | thecargo/negotiation.py:46-61 | for every real c: a gap of at least c rounding steps for each of the m(m + 3)/2 units makes the moves shrink for every side, band and number of moves if and only if c is at least 5/3 |
| Shrinking.RoomForEarlyMovesIff | thecargo/negotiation.py:54-59 | the same for the moves before the last, if and only if c is at least 1 |
| Shrinking.ShrinkIff | thecargo/negotiation.py:46-61 | with a gap of at least one rounding step a unit, the moves of a ladder shrink if and only if its last is no longer than the one before |
| Shrinking.TwoMovesNeedEnough | thecargo/negotiation.py:46-61 | in two moves every room between 8/5 and 5/3 is too little |
| Shrinking.SecondMoveGrows | thecargo/negotiation.py:54-59 | for every number of moves from three on, a gap of just under one rounding step a unit whose second move outgrows the first |
| Shrinking.MiddleMoveMayGrow | thecargo/negotiation.py:46-61 | with 22 to go in three moves the moves are 5, 10 and 7 |
| Negotiation.NextStepOk | thecargo/negotiation.py:68-90 | after the first n ladder prices an ask is accepted if and only if it is as good for us as the last price named or the one that would be named now; otherwise the next price is named if there is one, and past the end of the ladder the ask goes to a person; no price named or ask accepted passes the limit |
| Negotiation.HagglingIsSound | thecargo/negotiation.py:64-90 | whatever is asked, each answer of a whole haggle is the one just described, so the offers are the ladder's prices in order, and no more than ladder-length + 1 answers are given before the haggling ends |
| Negotiation.LimitKeptIff | thecargo/negotiation.py:46-90 | no haggle passes the limit if and only if the limit is not behind the opening price |
| LeadLabels.ScanLabels | thecargo/lead_fields.py:466-473 | the labels kept are the leftmost-longest selection of the hits: disjoint and in order, each the longest and first tried at its start, and every hit starts inside a kept one |
| LeadLabels.LeftmostLongestIsUnique | thecargo/lead_fields.py:466-473 | there is only one such selection |
| LeadLabels.SortedOk | thecargo/lead_fields.py:466 | the sort orders the hits by start and then length and keeps exactly the hits |
| LeadLabels.SortedKeepsTies | thecargo/lead_fields.py:466 | hits with equal sort keys keep the order in which the labels were tried |
| LeadFields.ValueSpansApart | thecargo/lead_fields.py:490-492 | value spans lie in the text, hold no newline, and overlap neither each other nor a kept label |
| LeadFields.FilledByFirst | thecargo/lead_fields.py:485-497 | a field and index are filled by the first of their labels with a non-blank value, and empty exactly when none has one |
| LeadFields.FoundValueIsOutsideLabels | thecargo/lead_fields.py:490-497 | a found value is non-empty, stands in the text on one line, and touches no kept label |
| LeadValues.ReadingIsExact | thecargo/lead_fields.py:485-496 | the value after a label is all the text from the label's end to the next label, the end of the line or the end of the text, whichever comes first, less the blanks, then the commas and semicolons, then the blanks at its ends; its source is the line from its start to there without blanks around it |
| LeadValues.PeelingIsUnique | thecargo/lead_fields.py:493-496 | there is one result only of taking characters off both ends as long as they are of the kind |
| LeadValues.NothingElseIsLost | thecargo/lead_fields.py:485-497 | every character after a label that is no blank, comma or semicolon is in its value, and the label's field and index are filled then |
| LeadValues.PreviewFieldOk | thecargo/lead_fields.py:499-524 | a field of the preview shows what its first label with a value gives for the smallest index that has one, matched if it is valid and for review if not, and is not found exactly if no label of its key has a value |
| LeadValues.PreviewVehicleOk | thecargo/lead_fields.py:526-527 | a vehicle's field shows the first value given for that vehicle, or is not found |
| LeadValues.VehicleRows | thecargo/lead_fields.py:483-527 | there is exactly one row for every vehicle that a label of a vehicle field names, with a value or not, in ascending order |
| LeadValues.VehicleColumns | thecargo/lead_fields.py:526-527 | the vehicle columns are the catalogue's vehicle fields, each once and in its order |
| LeadValues.CountsAreOfFields | thecargo/lead_fields.py:499-524 | the counts are the numbers of fields with each status |
| LeadFields.ReadValue | thecargo/lead_fields.py:485-496 | the value and the line read after one label are those that `LeadValues.ReadingIsExact` describes |
| LeadFields.Collect | thecargo/lead_fields.py:483-497 | the collecting loop gives each field and index its first value and finds all vehicles named |
| LeadFields.EmitAll | thecargo/lead_fields.py:499-524 | every field of the catalogue is emitted for its smallest index with a value, and the three counts are those of the fields shown and sum to the catalogue's size; what a field shows is `LeadValues.PreviewFieldOk` |
| LeadFields.Parse | thecargo/lead_fields.py:499-533 | the whole preview of the labels kept: the catalogue's fields with their counts, a row for each vehicle named, in ascending order, and as their count the number of vehicles named |
| LeadFields.VehicleValuesShown | thecargo/lead_fields.py:526-527 | every value found for a vehicle field appears in that vehicle's row under its field |
| LeadFields.ParseEmailFields | thecargo/lead_fields.py:476-533 | from the hits on: the preview of the leftmost-longest labels, whose fields and rows `LeadValues.PreviewFieldOk` and `LeadValues.PreviewVehicleOk` describe |
| Consent.LatestByBucket | thecargo/consent.py:123-130 | each bucket's newest row, the later in the list among equals, in the order the buckets first appear |
| Consent.PickEffective | thecargo/consent.py:133-165 | the first of the newest restrictive rows that speak for us, or failing any, for another line |
| Consent.WrongNumberRow | thecargo/consent.py:168-175 | the newest wrong-number row of the two whole-number buckets |
| Consent.Evaluate | thecargo/consent.py:178-223 | the verdict, and that it follows the declarative rule over the rows in force wherever rows of one bucket with the same, newest time say the same |
| Consent.VerdictMeetsRule | thecargo/consent.py:178-223 | the verdict is that of a newest row in force that bears on the message: a wrong number first, then a row for us, then one for another line, and to allow if there is none; rows of different buckets may share their time |
| ConsentRule.RuleDecides | thecargo/consent.py:178-223 | where no two bearing rows share their time, the rule leaves exactly one verdict, down to the row it names |
| ConsentRule.OrderDoesNotMatter | thecargo/consent.py:123-223 | histories with the same rows get the same decision in any order, and the same verdict where one bearing row is the newest |
| ConsentRule.SupersededRowsDoNotMatter | thecargo/consent.py:123-130 | dropping a row about whose bucket something newer was said changes no decision, and no verdict where one bearing row is the newest |
| ConsentRule.LegacyRowsNeedOurLine | thecargo/consent.py:143-151 | without a known line, dropping a row for no line in particular changes no decision, and no verdict where one bearing row is the newest |
| ConsentRule.CallBlockedIff | thecargo/consent.py:188-210 | a call is never warned about, and blocked if and only if a wrong number or any row about calls that it can see is in force |
| ConsentRule.DecisionIff | thecargo/consent.py:178-223 | on either channel the decision depends only on whether a row in force says wrong number, speaks for us or speaks for another line, on whether our line is known and on how the message is sent |
| ConsentReasons.TextDecisionIff | thecargo/consent.py:178-223 | a text is blocked if and only if a row in force says wrong number or is about texts and for the whole number, for our line, for no line when ours is known, or for any line when ours is not and the message is not written by hand; else warned about if and only if one is for another line; else allowed |
| ConsentReasons.VerdictReason | thecargo/consent.py:192-221 | for every history, a verdict without a row allows, and one with a row names one in force and gives the reason that the row's status, scope and line, our line and the kind of message determine |
| ConsentRule.TiesAreIdleIff | thecargo/consent.py:128-129 | two rows of one bucket with the same time may be listed either way for every message if and only if they say the same |
| ConsentRule.TiesGoToTheLaterInTheList | thecargo/consent.py:128-129 | two rows whose order decides the verdict |
| ConsentCache.Cache.Prefetch | thecargo/consent.py:94-120 | every number asked for gets an entry, no other entry changes, and every entry is a history that a query for its number could return |
| ConsentCache.AnswerHoldsHistories | thecargo/consent.py:108-118 | grouping the rows of one query for many numbers gives each number its own rows, each once and oldest first |
| ConsentCache.LoadConsentState | thecargo/consent.py:72-87 | the rows loaded are the number's, each once and oldest first |
| ConsentCache.CheckContactability | thecargo/consent.py:252-274 | with a cache or without one, hit or miss, the verdict is one a fresh query could lead to, the only one where a single bearing row is the newest, and the only decision where rows of one bucket and time say the same; the cache stays true to the table |
| ConsentCache.AskedAsStored | thecargo/consent.py:262-263 | the number asked about is the normalized one, or as given where that fails, and the line the normalized one, or none |
| ConsentCache.WantedIff | thecargo/consent.py:106-107 | a prefetch asks for exactly the non-empty numbers given, as the rows name them |
| Consumer.Message.Process | thecargo/events/consumer.py:48-61 | every delivery is settled exactly once and its handler runs at most once; it is sent back, after the delay, exactly if it failed, requeueing is on and it was not redelivered |
| Consumer.HandlerRunsBounded | thecargo/events/consumer.py:48-61 | over any run an event's handler runs at most twice, or once without requeueing, and once more per connection lost while the event was out |
| Consumer.LeavesAfterSuccessOrEveryTry | thecargo/events/consumer.py:48-61 | without a lost connection an event leaves the queue only after its handler survived or every allowed try failed |
| Consumer.LeavesIff | thecargo/events/consumer.py:48-61 | settling a try takes the event off the queue if and only if the handler survived, requeueing is off, or the event was sent back or lost its connection before |
| Consumer.LossSpendsTheSecondChance | thecargo/events/consumer.py:54-60 | a run in which an event is dropped after its handler failed once |
| Consumer.InvKept | thecargo/events/consumer.py:48-63 | every step keeps the account of tries against arrivals, requeues and losses, and the redelivered flag in step with it |
| UserSync.Session.HandleUserCreated | thecargo/events/user_sync.py:23-35 | the replica is added unless there is one, nothing happens without an organization, and a bad id raises |
| UserSync.Session.HandleUserUpdated | thecargo/events/user_sync.py:38-45 | exactly the profile fields the event mentions are set, never the organization; a missing replica is created |
| UserSync.Session.HandleUserOrganizationChanged | thecargo/events/user_sync.py:48-57 | the user moves only from the organization the event names, and nobody moves unless it names both |
| UserSync.Session.HandleUserDeleted | thecargo/events/user_sync.py:60-64 | the replica is gone, and its absence is no error; that no other changes is `UserSync.DeletedIsGone` |
| UserSync.Table.Dispatch | thecargo/events/user_sync.py:75-81 | a handler that raises, or a refused commit, changes nothing; an unknown key succeeds |
| UserSync.MovesAndUpdatesApart | thecargo/events/user_sync.py:38-57 | over any deletion-free run the organization is the fold of the move events alone and the profile the fold of the update events alone |
| UserSync.InterleavingDoesNotMatter | thecargo/events/user_sync.py:38-57 | runs with the same moves and the same updates, however interleaved and whatever else they hold, leave the same replica |
| UserSync.OnlyOwnEventsMatter | thecargo/events/user_sync.py:23-81 | over any run, with creations and deletions, a user's replica is what the deliveries that name the user alone make of it |
| UserSync.LastMentionWins | thecargo/events/user_sync.py:43-45 | a profile field shows what the last update to mention it said |
| UserSync.UnmentionedStays | thecargo/events/user_sync.py:43-45 | a profile field no update mentions stays as it was |
| UserSync.ImmediateRedelivery | thecargo/events/user_sync.py:23-81 | delivering any event once more right away changes nothing |
| UserSync.LateMoveActsIff | thecargo/events/user_sync.py:48-57 | a move delivered at any time acts if and only if the user is in the organization it names as left, and that is not the one joined |
| UserSync.CreateAndUpdateCommuteIff | thecargo/events/user_sync.py:23-45 | for an unknown user, creation and update give the same in either order if and only if the update names the same organization and every field the creation fills |
| UserSync.DeletedIsGone | thecargo/events/user_sync.py:60-64 | after a committed deletion its user has no replica, and every other replica is as before |
| UserSync.CreatedIsThere | thecargo/events/user_sync.py:23-45 | after a committed creation or update with an organization its user has a replica; one that was missing has that organization and every profile field from the payload or null, and a creation leaves an existing one as it is |
| UserSync.PresentIff | thecargo/events/user_sync.py:23-81 | over every run a user has a replica if and only if a committed creation or update with an organization came after the last committed deletion, or one was there from the start and no deletion came |
| UserSync.ReplicaSinceCreation | thecargo/events/user_sync.py:23-57 | over every run, a replica made by a delivery when there was none is that delivery's payload followed by the moves and the updates since, up to a deletion |
| CancelOnDisconnect.Exchange.PumpOne | thecargo/middleware/cancel_on_disconnect.py:36-42 | the message is queued, and a disconnect is noticed and ends the pump |
| CancelOnDisconnect.Exchange.BufferedReceive | thecargo/middleware/cancel_on_disconnect.py:44-45 | the app gets the oldest message queued |
| CancelOnDisconnect.Exchange.TrackingSend | thecargo/middleware/cancel_on_disconnect.py:47-54 | what has reached the client is always marked: a start, and a final body |
| CancelOnDisconnect.Exchange.WakeUp | thecargo/middleware/cancel_on_disconnect.py:59-73 | the choice between returning, awaiting the app and cancelling it |
| CancelOnDisconnect.Exchange.AppEnded | thecargo/middleware/cancel_on_disconnect.py:65-86 | what the middleware does once the app it awaited or cancelled has ended |
| CancelOnDisconnect.ReceivesInArrivalOrder | thecargo/middleware/cancel_on_disconnect.py:36-45 | in every interleaving the messages received, those queued and those still to be pumped are all that arrived, in order |
| CancelOnDisconnect.OneStartAtMost | thecargo/middleware/cancel_on_disconnect.py:47-91 | the client never sees more response starts than the app sent, or one where it sent none |
| CancelOnDisconnect.AnswersOnlyTheUnstarted | thecargo/middleware/cancel_on_disconnect.py:86-91 | a 499 goes out only when the app has ended without starting a response |
| CancelOnDisconnect.CancelsIff | thecargo/middleware/cancel_on_disconnect.py:60-73 | the app is cancelled if and only if it still runs, the disconnect was noticed and it has not sent its final body |
| CancelOnDisconnect.AnswersIff | thecargo/middleware/cancel_on_disconnect.py:73-88 | the 499 is attempted if and only if the app was cancelled, ended without an error of its own and started no response, not even while winding up |
| CancelOnDisconnect.AwaitsIff | thecargo/middleware/cancel_on_disconnect.py:60-71 | the middleware waits for the app to end by itself if and only if it still runs and either no disconnect was noticed or its final body is sent |
| CancelOnDisconnect.EndsIff | thecargo/middleware/cancel_on_disconnect.py:59-94 | each step ends the middleware if and only if the app has ended and was not cancelled before starting a response, its own answer is complete or fails, or it is cut short |
| CancelOnDisconnect.HowItEnds | thecargo/middleware/cancel_on_disconnect.py:59-94 | it ends well if and only if the app returned, ended by the middleware's own cancellation, or was answered for |
| CancelOnDisconnect.NothingIsLeftBehind | thecargo/middleware/cancel_on_disconnect.py:59-94 | in every interleaving, once it is done the pump has stopped, and it has ended well over no app that raised or still runs |
| CancelOnDisconnect.OwnAnswerIs499 | thecargo/middleware/cancel_on_disconnect.py:86-91 | of its own the middleware sends nothing but a 499 start and an empty final body, in this order and once each |

## Left out

- SQLAlchemy, asyncpg, aio-pika, Redis and asyncio themselves: a table is a map, the broker a log, coroutines switch only at an `await`, a transaction is atomic, and what a SELECT or a script call returned is a parameter.
- Savepoint events and the closing of a session without commit or rollback: which listeners fire then is SQLAlchemy's affair.
- `run_outbox_relay`, its interval and its stop event: the step system lets passes and cleanups happen at any time.
- OutboxTheorems.NothingLostNothingInvented: says nothing about a row that has used all its attempts being delivered some day; the code does not promise it.
- OutboxTheorems.TwoHoldersMeanALateReclaim: does not say where in the row's history the late reclaim lies; what lies between the two claims is `OutboxClaims.TwoHoldersMeanAnOpening`.
- OutboxStore.Store.RelayOnce: describes an undisturbed pass only, with the channel open or closed throughout; the interleaved ones are the steps of `OutboxModel`.
- The grouping of marks by the coalescer inside the step system: marks are a set flushed in any portions at any time, which allows more runs than the code has.
- A commit's created_at is the start of its transaction, so the Commit step takes any time up to now.
- Coalesce.RunConserves: does not cover a drain cancelled before its first step, nor an old event loop still running in another thread.
- OrgLimiter.PassedBounded: measures the processes' monotonic clocks and the Redis server's as one clock.
- Float rounding, the precision of Lua's `tostring`, clock skew, clocks that run backwards and collisions of the sliding-window member's random suffix: times and amounts are reals.
- The organization of a request, the reporting of refusals and shadow mode in `RateLimitMiddleware`.
- Regular expressions and Unicode: label hits, "this SQL needs a transaction", phone normalization, field validators and UUID parsing are parameters, and `lower()` is taken to keep the text's length.
- Routing.RunRefines: takes it that the guard flags every statement that writes, and leaves out callers who name an engine against the switch, which `NamedWriteEngineIff`, `NamedWriteEngineHidesTheWrite` and `NamedReadEngineIff` cover.
- Consent.VerdictMeetsRule: leaves out histories in which rows of one bucket share its newest time and say different things; `LatestByBucket` states for all histories that the later in the list is taken.
- ConsentRule.DecisionIff: is about rows as the callers write them (a status that fits its channel, a wrong number only for the whole number, no line on a row that is not about a line).
- Shrinking.ShrinkIff: does not cover a gap below one rounding step a unit, where whether the moves shrink hangs on how each of them happens to round; the bounds of `Negotiation.LadderShape` hold there too.
- ConsentCache.CheckContactability: needs phone normalization to leave a normalized number alone, and a table that does not change while the cache lives.
- LeadFields.ReadValues: reads all values before the loop that keeps them, where the program reads each in the turn that uses it; reading has no effect.
- The hint texts of the lead preview and the labels configured per broker.
- UserSync.CreateAndUpdateCommuteIff: is about events that both name an organization; replicas do not converge after a deletion followed by a late update, and the code does not promise it.
- UserSync.MovesAndUpdatesApart: takes deliveries one after the other, in the order of their commits; that the consumer has several out at once, so that one handler may read a replica before another commits, is not modelled.
- `bootstrap_users` and the declaration and binding of the consumer's queue.
- CancelOnDisconnect.OneStartAtMost: does not cover an app that hands `send` to coroutines which outlive it, nor a message the pump had received when it was cancelled.
- Requests the middleware does not watch are passed straight to the app.
- Finite tables and thin wrappers (permissions, role templates, features, deliverability, translations, schemas, HTTP clients, storage, PDF, metrics, Liquid rendering), JWT checks, load shedding and cache-aside helpers, which would add only easy members.
