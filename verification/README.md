# Event ticketing: a verified model

This project models the parts of the event ticketing backend where correctness is hard to see from
one function at a time, and proves what they promise over every run.

**The booking ledger.** `Ledger` has the three tables a booking touches (events with their seat
counter, seats, bookings) and every transaction that changes them, each as a total function from the
tables it finds to the tables and the reply it leaves. `Repositories` is the same transactions as the
repository layer writes them: a class whose methods update the tables step by step and roll back, each proved
equal to its function. `LedgerRuns` proves what holds along every run: booking, seat and counter
agree, deadlines are respected, a booking stores one payment intent ever, a seat is handed back
exactly once.

**Row locks.** `RowLocks` is each transaction as a program of SQL statements with row locks and
uncommitted row versions. `Interleaving` runs any number of them statement by statement, with
blocking and `NOWAIT` locks, rollback at any point and a clock that moves on meanwhile. It refines
the ledger in commit order, does everything the ledger does one transaction at a time, and by
`WaitGraph` it never deadlocks.

**Protocols on the ledger.** `Purchase` is `PurchaseBooking` as a step machine beside other calls,
cancels, expiries and sweeps. `BulkReserve` is one bulk call: concurrent chunks, an outcome channel
and compensation. `BulkRestore` compares a failed call with a run of the other actors alone.
`BookingService` has the sweep, the release by id, the chunking and the summary.

**The expiry queue.** `SortedSets` models Redis sorted sets, `ExpiryPartition` the partition hash (as
Go and as Lua compute it) and the partition plan, `ExpiryQueue` the queue and its claim script as a
class with the script's two loops. `QueueRuns` and `QueueDrain` prove what a poll hands out, who may
be handed it, when it comes back, and that rounds of polls drain the queue. `QueueRounds` finds when a
single round is sure to hand something out.

**Admission.** `SlidingWindow` is the pruned, expiring sorted set of the rate limiter, `EventAdmission`
the pair of expiring counters of event admission.

**Smaller machines.** `CommandQueue` is the retry and dead-letter loop of the command workers.
`HubLoop` is the WebSocket hub beside its clients as a step machine, `HubServer` the hub's own
methods, whose loops run steps of that machine. `SeatNumbers` prints and parses seat labels.

`dafny verify dfyconfig.toml` checks everything.

## Findings

- Event admission is described as sliding windows (`README.md:112` of the repository). The script
  keeps fixed windows with rollback: a stretch of one window length sees at most `2 * cap - 1`
  admissions, where `cap` is the event limit, or for a client the smaller of the two limits, and some
  run reaches that. So the limit holds in every stretch exactly when `2 * cap - 1` does not exceed it,
  which for an event means a limit of one.
- The rate limiter scores whole seconds. A real-time window holds at most the limit in every run exactly
  if it ends with the last nanosecond of a second, or goes back to before the first call could be, or the
  limit is zero or at least the number of nanoseconds in the window; twice the limit always holds.
- A round of polls over all partitions always makes progress, but it may hand out nothing although there
  is a backlog. With `S` entries in the scan window of a poll (1000 for the worker's batches of 100), a
  round is sure to hand something out exactly if there is one partition or fewer than `S` ids are at once
  due and a stale claim.
- Overlapping `PurchaseBooking` calls on one booking can end with a confirmed payment for a cancelled
  booking. They can exactly if the booking is reserved, its deadline has not passed, and it stores no
  intent or one that is not blank. With one call at a time payments and purchases agree at every moment,
  but for a purchase whose payment failed and whose revert then failed too, which is only logged.
- `BulkReserve` ignores an error of the database while it cancels what it had reserved: such a booking stays
  reserved, with its seat and its place in the counter, although the call reports failure.
- A WebSocket client that leaves before the hub has taken its registration may be kept by the hub, until its
  buffer overflows: the hub may take the leave first and ignore it. A leave is sure to be honoured exactly
  if the registration was taken.
- A command job is lost exactly if a failed delivery of its own meets a failed write; other writes may
  fail without losing it. A retry whose message cannot be written is lost while its status says `retrying`,
  and a job refused because its first message could not be written keeps the status `pending` for good.
- The counter of an event counts its available seats exactly if its seats were inserted or it has
  none; a failed second transaction of event creation leaves it counting seats that do not exist.

## Model

| member | source | states |
|---|---|---|
| SeatNumbers.SeatNumberRoundTrip | internal/repository/seat_repository.go:310-316 | a parser of seat labels recovers the ordinal of every seat from its label |
| SeatNumbers.SeatNumbersDistinct | internal/database/migrations.sql:48-49 | two seats of an event never get the same label, so bulk creation cannot violate the uniqueness of (event, seat number) |
| Ledger.SeatBlockSize | internal/repository/seat_repository.go:293-304 | the insert loop creates exactly as many different seats as the event has |
| Ledger.BookingTxRebooks | internal/repository/booking_repository.go:76-149 | every transaction that changes anything writes one booking, that booking's seat and that event's counter, and leaves the three in agreement |
| Ledger.ApplyKeepsInv | internal/repository/booking_repository.go:295-562 | every transaction, with any arguments and clock, keeps bookings, seats and counters in agreement and seats held by at most one live booking |
| LedgerRuns.ReachableInv | internal/repository/booking_repository.go:76-562 | the ledger invariant holds in every reachable state |
| LedgerRuns.SeatStatusMeaning | internal/repository/booking_repository.go:321-341 | a seat is available iff no live booking holds it, reserved iff exactly one reserved booking does, sold iff exactly one purchased booking does |
| LedgerRuns.CounterMeaning | internal/services/event_service.go:76-82 | the counter equals the number of available seats iff the event's seats were inserted or it has none |
| LedgerRuns.ReserveIgnoresClock | internal/repository/booking_repository.go:697-702 | a free seat carries no hold, so the hold guard never rejects: a reservation succeeds iff the seat exists and nobody holds it, whatever the clock |
| LedgerRuns.EventTerms | internal/repository/event_repository.go:24-54 | every event has the size and price that the transaction of the run that created it asked for |
| LedgerRuns.SeatsAsRequested | internal/services/event_service.go:67-82 | a created event keeps its requested size and price, and has exactly that many seats once they were inserted, none before |
| LedgerRuns.GrantedExactly | internal/repository/booking_repository.go:76-562 | in every reachable state each kind of request succeeds iff its stated condition holds, turns its booking row as stated and replies with it; a refused one changes nothing and names the stated cause |
| LedgerRuns.BookingEvolves | internal/repository/booking_repository.go:411-490 | between any two points of a run a booking keeps its identity, its deadline never moves back, terminal statuses stay, and a stored intent is only ever dropped by a cancellation |
| LedgerRuns.OneIntentEver | internal/repository/booking_repository.go:190-218 | over a whole run a booking stores at most one payment intent, and none again once it was dropped |
| LedgerRuns.ExtensionKept | internal/repository/booking_repository.go:447-473 | once an extension was granted the deadline is never again before what was asked for |
| LedgerRuns.BookingTerms | internal/repository/booking_repository.go:84-142 | every booking goes back to a reservation of its user for its seat, and costs the price that the creation of its event asked for |
| LedgerRuns.DeadlinesRespected | internal/repository/booking_repository.go:314-327 | a purchased booking was found reserved and completed, with success reported, by a transaction of the run started before its deadline; an expired one was found reserved and released by one started at or after it |
| LedgerRuns.SweepCatches | internal/repository/booking_repository.go:564-607 | a booking seen overdue by the sweep's query is no longer reserved after its release, extensions aside, whatever commits in between |
| LedgerRuns.Conservation | internal/repository/booking_repository.go:84-91 | at any time available = total - reservations + cancels + expiries + reverts |
| LedgerRuns.ReturnedExactlyOnce | internal/services/booking_service.go:264-295 | however often worker, sweep, user and payment path try, a booking's seat is handed back exactly once, when the booking becomes terminal |
| Repositories.Repository.CreateEvent | internal/repository/event_repository.go:24-54 | creates the event row iff the id is new, with the requested size as total and as counter and the requested price |
| Repositories.Repository.CreateBulkSeats | internal/repository/seat_repository.go:276-308 | the insert loop creates the whole block of free seats, or rolls back to the tables it found |
| Repositories.Repository.CreateReservation | internal/repository/booking_repository.go:76-149 | the step-by-step method equals the atomic reservation, replies and error order included; a failure after the counter was taken rolls back to the tables it found |
| Repositories.Repository.ReserveSeat | internal/repository/booking_repository.go:658-718 | takes the seat iff it exists, is available and is not held past now; otherwise says why |
| Repositories.Repository.SetPaymentIntentID | internal/repository/booking_repository.go:190-218 | stores an intent only on a live booking without one, returns the stored one otherwise |
| Repositories.Repository.ExtendReservation | internal/repository/booking_repository.go:411-490 | the checks and the two updates equal the atomic extension, never moving a deadline back; a failure leaves the tables as they were |
| Repositories.Repository.CompletePurchase | internal/repository/booking_repository.go:295-350 | equals the atomic completion, idempotent on a purchased booking |
| Repositories.Repository.RevertFailedPurchase | internal/repository/booking_repository.go:353-409 | equals the atomic revert: booking cancelled, sold seat freed, counter returned |
| Repositories.Repository.ReleaseReservation | internal/repository/booking_repository.go:500-562 | equals the atomic cancel or expiry, with both clock checks of the expiry; a failure leaves the tables as they were |
| Repositories.Repository.FindExpiredReservations | internal/repository/booking_repository.go:564-607 | lists each reserved booking whose deadline lies before the query, once |
| RowLocks.SoloIsAtomic | internal/repository/booking_repository.go:295-350 | a transaction run alone, statement by statement, prepares exactly the rows and the reply of the atomic one, under a clock made of its readings |
| RowLocks.SoloWritesLocked | internal/repository/booking_repository.go:302-339 | a transaction has uncommitted versions only of rows it has locked |
| RowLocks.SoloStable | internal/repository/booking_repository.go:720-754 | a transaction depends on committed tables only through the rows it has locked |
| Interleaving.SerialInCommitOrder | internal/repository/booking_repository.go:76-149 | any interleaving of statements has the committed tables and replies of running the decided transactions one at a time in commit order; aborted ones leave no trace |
| Interleaving.InterleavedInv | internal/repository/booking_repository.go:295-562 | the ledger invariant holds of the committed tables at every moment of every interleaving |
| Interleaving.EverySerialRun | internal/repository/booking_repository.go:76-149 | conversely, every run of transactions one at a time is reached by some interleaving, with the same tables and log |
| Interleaving.LockedRow | internal/repository/booking_repository.go:663-687 | a statement that finds its row locked gives up, without a trace, iff it is the seat select of a reservation or an extension; every other one waits |
| Interleaving.UnlockedRow | internal/repository/booking_repository.go:302-339 | a statement that finds its row unlocked takes the lock, or its transaction is decided as failed |
| Interleaving.WaitsUpward | internal/repository/booking_repository.go:302-339 | a transaction that waits for a lock holds only rows of lower classes (bookings, then seats, then events) |
| Interleaving.NoDeadlock | internal/repository/booking_repository.go:658-687 | no reachable state contains a circle of waits; the one inverted acquisition, event then seat, never waits |
| Interleaving.SomeoneCanMove | internal/repository/booking_repository.go:507-552 | while any transaction runs, some transaction can take its next statement or commit |
| Interleaving.StatementProgress | internal/repository/booking_repository.go:411-490 | a statement that does not end its transaction brings it nearer to its commit |
| BookingService.CleanupExpiredReservations | internal/services/booking_service.go:465-478 | a sweep expires every booking overdue at its query, frees their seats and touches no other booking |
| BookingService.ReleaseExpiredBookingByID | internal/services/booking_service.go:264-278 | releases iff the booking is known, reserved and past its deadline; every other case is no error and no change |
| BookingService.ChunkSeats | internal/services/booking_service.go:366-376 | the chunks are non-empty, of the given size but for the last, and together the request in order |
| BookingService.CalculateSeatsSummary | internal/services/event_service.go:168-181 | the summary counts the seats of each status and adds up |
| BookingService.SummaryAgreesWithCounter | internal/services/event_service.go:134-165 | in every reachable state the available count of a full scan is the event's counter |
| Purchase.PaymentsAndPurchasesAgree | internal/services/booking_service.go:129-206 | with one call in flight per booking, confirmed payments are of purchased bookings with sold seats and that stored intent; a purchased booking without a call in flight is paid unless its revert failed; a call that succeeded was the booking's own user's |
| Purchase.OnlyTheOwner | internal/services/booking_service.go:138-140 | in every run, overlaps allowed, a call that got past its first look is of the booking's own user |
| Purchase.StrangersChangeNothing | internal/services/booking_service.go:138-140 | a call on somebody else's booking changes neither tables nor payments |
| Purchase.OwnerBuys | internal/services/booking_service.go:129-206 | from every state with a purchasable booking its owner's call, left alone, ends with the booking purchased, its seat sold, its deadline at least two minutes away and the right intent confirmed |
| Purchase.OverdueIsReleased | internal/services/booking_service.go:146-149 | the owner's call on a reservation expires it iff it finds the deadline passed |
| Purchase.RefusedCompletion | internal/services/booking_service.go:175-187 | when a completion succeeds, when it leads to a second look at the booking, and that everything else ends the call |
| Purchase.FinishesPurchased | internal/services/booking_service.go:229-244 | a second look that finds the booking purchased pays with its stored or newly prepared intent, and never reverts |
| Purchase.ConfirmsOnlySold | internal/services/booking_service.go:180-206 | a payment is confirmed only while its booking is purchased and its seat sold |
| Purchase.FailedChargeGivesSeatBack | internal/services/booking_service.go:246-261 | the revert after a failed charge succeeds: booking cancelled without intent, seat free, counter returned |
| Purchase.OverlapChargesCancelledBooking | internal/services/booking_service.go:129-206 | from every state with an unexpired reservation that stores no intent or a usable one, two overlapping calls can end with a confirmed payment for a cancelled booking |
| Purchase.NeverConfirmed | internal/services/booking_service.go:129-206 | from every other state without a call at it, no number of overlapping calls ever confirms a payment for the booking |
| Purchase.OverlapExactly | internal/services/booking_service.go:246-261 | calls can end with a payment for a cancelled booking iff it is reserved, before its deadline, and stores no intent or a usable one |
| BulkReserve.ChunksMatch | internal/services/booking_service.go:309-330 | the chunks the call starts its goroutines on are those of the machine |
| BulkReserve.ChannelNeverBlocks | internal/services/booking_service.go:316-332 | the outcome channel never holds more than its capacity, so no goroutine blocks |
| BulkReserve.SuccessBooksEverySeat | internal/services/booking_service.go:337-363 | success returns one booking per requested seat number, all distinct, all of this user and event |
| BulkReserve.RefusesExactly | internal/services/booking_service.go:300-306 | exactly empty requests and those of more than 500 seats are refused, and then nothing is done |
| BulkReserve.FailsExactly | internal/services/booking_service.go:337-361 | a call answers only when every goroutine has returned, fails iff some seat was refused to it, and with the first refusal |
| BulkReserve.StopsAtRefusal | internal/services/booking_service.go:319-330 | a goroutine that was refused a seat tries no other |
| BulkReserve.CallEnds | internal/services/booking_service.go:309-361 | a call of 1 to 500 seats takes at most `2 n + 2` steps whatever others do, and until it has answered it has a step to take |
| BulkReserve.FailureLeavesNothingReserved | internal/services/booking_service.go:349-361 | a failed call leaves none of its bookings reserved but those whose cancellation failed, whatever others did meanwhile |
| BulkRestore.FailureLeavesNoTrace | internal/services/booking_service.go:349-361 | if others keep off the requested seats and the call's bookings, a failed call's bookings are cancelled and every event, seat and other booking is as the others alone would have left it, up to the bookings whose cancellation failed |
| BulkRestore.FailureRestoresEvent | internal/services/booking_service.go:349-361 | under the same condition every requested seat is back as it was, and the counter differs only by what the others' transactions added and took, up to the bookings whose cancellation failed |
| ExpiryPartition.ExpiryPartitionIndex | internal/queue/expiry_partition.go:5-16 | the Go hash is the base-31 polynomial of the bytes modulo 2^31-1, modulo the count; 0 for counts below 1 |
| ExpiryPartition.ScriptPartitionIndex | internal/queue/expiry_queue.go:114-124 | the Lua hash is the same function for every member and count of at least 1 |
| ExpiryPartition.HornerLoop | internal/queue/expiry_queue.go:114-120 | byte-by-byte accumulation equals the polynomial; every sum before its remainder is recorded, and each lies inside the exact range of doubles |
| ExpiryPartition.PlanFromConfig | internal/services/batch_release_worker.go:46-77 | which settings are refused, what they fall back to, and that an accepted plan owns only existing partitions |
| ExpiryPartition.TilesCover | internal/services/batch_release_worker.go:79-103 | plans laid side by side own every partition exactly once |
| ExpiryPartition.OneOwner | internal/services/batch_release_worker.go:46-103 | when the plans tile the partitions, every booking id has exactly one owning process |
| SortedSets.OrderedFacts | internal/queue/expiry_queue.go:134-143 | a range query lists its members once each in (score, member) order |
| SortedSets.ListingUnique | internal/queue/expiry_queue.go:134-143 | that listing is the only sorted one |
| ExpiryQueue.ExpiryQueue.Add | internal/queue/expiry_queue.go:30-36 | sets the entry's score, or fails without a connection |
| ExpiryQueue.ExpiryQueue.Remove | internal/queue/expiry_queue.go:38-46 | drops the id from both sets |
| ExpiryQueue.ExpiryQueue.RestoreStale | internal/queue/expiry_queue.go:134-140 | the first script loop moves exactly the partition's stale claims of the scan back to pending, scored now |
| ExpiryQueue.ExpiryQueue.ClaimDue | internal/queue/expiry_queue.go:142-153 | the second loop, with its early exit, claims the first `limit` of the partition's entries of the scan |
| ExpiryQueue.ExpiryQueue.PollDue | internal/queue/expiry_queue.go:62-100 | which calls are refused and with what, and that an accepted one is one poll of the specification |
| ExpiryQueue.ExpiryQueue.ProcessDue | internal/services/batch_release_worker.go:119-150 | one worker tick removes exactly the claimed ids whose release and acknowledgement succeeded |
| QueueRuns.StaleExactly | internal/queue/expiry_queue.go:134-140 | a claim comes back iff it is stale, of the partition, and fewer than the scan limit of stale claims precede it |
| QueueRuns.ClaimedExactly | internal/queue/expiry_queue.go:126-153 | an entry is claimed iff it is due, of the partition, and fewer than the scan limit of due entries and fewer than the batch limit of the partition's precede it |
| QueueRuns.PollConserves | internal/queue/expiry_queue.go:134-153 | a poll neither loses nor invents an entry |
| QueueRuns.PollElsewhere | internal/queue/expiry_queue.go:135-136 | entries of other partitions are not touched |
| QueueRuns.ClaimHides | internal/queue/expiry_queue.go:145-148 | a claimed entry is in flight for one visibility timeout and not pending |
| QueueRuns.SamePartition | internal/queue/expiry_queue.go:60-61 | two polls handed the same id are of the same partition, whatever happened in between |
| QueueRuns.OneProcess | internal/services/batch_release_worker.go:79-103 | with tiling plans only one process is ever handed a given id |
| QueueRuns.NotHandedOutAgain | internal/queue/expiry_queue.go:83-94 | a claimed id nobody adds again is not handed out before claim time plus twice the visibility timeout, in any run |
| QueueRuns.HandedOutAgain | internal/queue/expiry_queue.go:83-94 | at exactly that time a lone unacknowledged claim is handed out again |
| QueueRuns.RemovedForGood | internal/queue/expiry_queue.go:38-46 | a removed id, claimed or not, is in neither set and handed out by no later poll unless added again |
| QueueRuns.AckedIsRemoved | internal/services/batch_release_worker.go:119-150 | exactly the claimed ids that were acknowledged are removed |
| QueueDrain.PollProgress | internal/queue/expiry_queue.go:134-153 | due plus stale entries drop with every claim, and the work left drops with every restore and claim |
| QueueDrain.RoundProgress | internal/queue/expiry_queue.go:126-153 | a round over all partitions, in any order, makes progress despite the shared scan window |
| QueueDrain.RoundsDrain | internal/services/batch_release_worker.go:105-117 | as many rounds as there is work leave nothing due and no stale claim |
| QueueDrain.EveryDueEntryHandedOut | internal/services/batch_release_worker.go:105-117 | those rounds hand out every id that was due or stale |
| QueueDrain.AddedIsHandedOut | internal/queue/expiry_queue.go:30-36 | an id added with a release time that has come is handed out by as many rounds as there is work, whatever the queue held |
| QueueDrain.HandoutsShrinkBacklog | internal/queue/expiry_queue.go:142-153 | at one instant there are no more handouts than due and stale entries |
| QueueRounds.RoundHandsOut | internal/queue/expiry_queue.go:126-153 | with a backlog and fewer doubled ids (due and stale at once) than the scan window, a round over all partitions, in any order, hands out at least one entry |
| QueueRounds.RoundMayHandOutNothing | internal/queue/expiry_queue.go:126-153 | for every batch size, every count of at least two partitions and every number of doubled ids from the scan window up, some queue and round hand out nothing |
| QueueRounds.HandoutThreshold | internal/services/batch_release_worker.go:105-117 | a round is sure to hand something out iff there is one partition or the doubled ids are fewer than the scan window |
| QueueRounds.WorkerThreshold | internal/services/batch_release_worker.go:119-130 | for the workers' batches of 100 that number is 1000 |
| SlidingWindow.RateLimit.CheckRateLimit | internal/middleware/rate_limiter.go:264-283 | the script's prune, count, add and expire as one specified step |
| SlidingWindow.SameDecisions | internal/middleware/rate_limiter.go:122-143 | the pruned, expiring set admits exactly what counting the whole history admits |
| SlidingWindow.ExpiryUnobservable | internal/middleware/rate_limiter.go:275-282 | whether and when the key expires changes no decision |
| SlidingWindow.WindowLimit | internal/middleware/rate_limiter.go:271-278 | any `window` consecutive whole seconds hold at most the limit |
| SlidingWindow.AlignedSpanLimit | internal/middleware/rate_limiter.go:124-133 | a real-time window ending with a second holds at most the limit |
| SlidingWindow.UnsafeSpanOverrun | internal/middleware/rate_limiter.go:124-133 | for every limit, each real-time window that is not safe can hold more than the limit |
| SlidingWindow.SafeExactly | internal/middleware/rate_limiter.go:124-133 | a real-time window keeps the limit in every run iff it ends with a second, reaches back before the first instant, or the limit is zero or at least its nanoseconds |
| SlidingWindow.SpanLimit | internal/middleware/rate_limiter.go:122-143 | any real-time window holds at most twice the limit |
| EventAdmission.AdmissionControl.IncrWithTtl | internal/middleware/rate_limiter.go:309-315 | increments, and renews the deadline iff the key is new or has none |
| EventAdmission.AdmissionControl.CheckEventAdmission | internal/middleware/rate_limiter.go:145-173 | the script with its rollbacks as one specified step; a limit of zero or less lets everything pass |
| EventAdmission.NextAt | internal/middleware/rate_limiter.go:317-333 | per counter, a request admits, refuses without counting, or does not touch |
| EventAdmission.CounterExact | internal/middleware/rate_limiter.go:317-333 | a counter is the number of admissions since its key was created, never ends above its limit and always expires |
| EventAdmission.RefusalsRenew | internal/middleware/rate_limiter.go:317-333 | a counter that turned a request away keeps its key at least a whole time to live after the last time it did |
| EventAdmission.WindowLimit | internal/middleware/rate_limiter.go:302-334 | any stretch of one time to live sees at most `2 * cap - 1` admissions per event and per client, a client's cap being the smaller limit |
| EventAdmission.WindowLimitReached | internal/middleware/rate_limiter.go:302-334 | for all limits and every event or client counter some run and stretch see exactly that many |
| EventAdmission.SlidesExactly | internal/middleware/rate_limiter.go:145-173 | no stretch of any run exceeds a counter's limit iff `2 * cap - 1` is within it; for an event, iff its limit is one |
| CommandQueue.CommandQueue.EnqueueJob | internal/queue/queue.go:251-303 | a job is accepted iff the queue is enabled and both writes succeed, with no attempts behind it |
| CommandQueue.CommandQueue.HandleJobFailure | internal/queue/queue.go:523-593 | retries below the limit, dead-letters otherwise, and what a failed write leaves |
| CommandQueue.CommandQueue.CompleteJob | internal/queue/queue.go:513-516 | records the completion |
| CommandQueue.CommandQueue.ProcessJob | internal/services/booking_worker.go:51-74 | one delivery, with the errors of the later writes ignored |
| CommandQueue.ExactlyOnePlace | internal/queue/queue.go:251-303 | an accepted job is in exactly one of topic, completed, dead-letter topic and lost; others are nowhere |
| CommandQueue.HandledAtMost | internal/queue/queue.go:523-557 | a job is handed out at most `maxRetries + 1` times; it is dead iff it failed `maxRetries + 1` times and was not lost, and done iff one delivery did not fail |
| CommandQueue.AttemptIsFailures | internal/queue/queue.go:527-536 | a waiting message carries the number of failures so far |
| CommandQueue.CommandsKept | internal/queue/queue.go:523-593 | retrying and dead-lettering never change what a job asks for |
| CommandQueue.LostExactly | internal/queue/queue.go:559-593 | how often a job is lost is how often a delivery of its own failed and met a failed write |
| CommandQueue.LostForGood | internal/queue/queue.go:559-593 | one such delivery loses the job, and then it is in no topic and not completed in any longer run |
| CommandQueue.NothingLost | internal/queue/queue.go:559-593 | without one an accepted job waits, is completed or is dead-lettered, whatever other writes fail, and its status says which, with the retries it had, unless its completion was not recorded |
| CommandQueue.FailedRetryLosesJob | internal/queue/queue.go:529-540 | in every run, for every waiting job with attempts left, a failed delivery whose retry message is not written loses the job while its status says `retrying` |
| CommandQueue.RefusedStaysPending | internal/queue/queue.go:260-273 | in every run a job whose enqueueing wrote its status but not its message is nowhere, and its status says `pending` for good |
| CommandQueue.DeliveriesBounded | internal/services/booking_worker.go:106-121 | any run has at most `maxRetries + 1` deliveries per enqueued job, so the machine terminates |
| HubLoop.NeverPanics | internal/websocket/hub.go:168-215 | in every run no channel is closed twice or sent to after closing, and no buffer overflows |
| HubLoop.InOrderNoGap | internal/websocket/hub.go:181-215 | between messages a client in the map was sent exactly the matching messages processed since it registered, in order |
| HubLoop.RemovedSawAPrefix | internal/websocket/hub.go:200-215 | a removed client was sent the first of them and nothing else |
| HubLoop.WhyRemoved | internal/websocket/hub.go:168-215 | a client leaves the map only by unregistering or because its buffer was full |
| HubLoop.SubscriberMissesNothing | internal/websocket/hub.go:327-337 | a subscriber still in the map was sent every message on its event processed after it subscribed, each right after exactly what matched before it |
| HubLoop.NothingUnwanted | internal/websocket/hub.go:186-190 | in every run a client is sent only messages without an event or on an event it subscribed to |
| HubLoop.SubscriptionsAsked | internal/websocket/hub.go:312-331 | a client's subscriptions are exactly the events it asked for |
| HubLoop.ProcessedInOrder | internal/websocket/hub.go:242-253 | messages are processed in the order published, and none that found room in the queue is lost |
| HubLoop.LeavesExactly | internal/websocket/hub.go:148-177 | a leave is sure to take the client out of the hub iff the hub had taken its registration |
| HubLoop.LeaveForgotten | internal/websocket/hub.go:148-177 | from every idle state with the registration still queued the hub alone can end up keeping the client that left, its channel open |
| HubLoop.ReaderCatchesUp | internal/websocket/hub.go:339-350 | a client that reads gets what it was sent, in that order |
| HubLoop.AlwaysFinishes | internal/websocket/hub.go:148-165 | along any run in which the message in hand is not done, the loop has a step to take and took fewer than a number fixed when it started, whatever clients and publishers do meanwhile |
| HubServer.Server.RegisterClient | internal/websocket/hub.go:151-156 | is the register step of the machine |
| HubServer.Server.RemoveClient | internal/websocket/hub.go:168-177 | is the unregister step of the machine |
| HubServer.Server.BroadcastLocal | internal/websocket/hub.go:242-253 | never blocks, and drops the message when the queue is full |
| HubServer.Server.DeliverToClients | internal/websocket/hub.go:181-215 | its three loops are a run of the machine's steps that ends between messages |

## Left out

- Money: amounts and prices are carried along as real numbers; `float64` rounding and the conversion to cents are not modelled.
- Payment provider: preparing and confirming a payment are arbitrary successes and failures; its client, its webhooks and the path without a payment service are not part of this model.
- Event log and message broker: topics are sequences; consumer offsets, rebalancing, redelivery of the same message and the queue depth counters are left out.
- Row locks: an `UPDATE` that matches no row takes no lock and does not wait; foreign-key share locks are left out; driver errors are rollbacks.
- Event creation: in the statement-level model its inserts are one step each; they lock no existing row.
- Columns that carry no behaviour here: surrogate seat ids (a seat is addressed by event and number), `reserved_at`, sections and timestamps of record keeping.
- Interleaving.EverySerialRun: stated for transactions each of which reads a single time of the clock.
- LedgerRuns.CounterMeaning: an event whose seats were never inserted is modelled, and its counter is not exact, as the code leaves it.
- Purchase.PaymentsAndPurchasesAgree: holds for one `PurchaseBooking` call at a time per booking; Purchase.OverlapChargesCancelledBooking shows why.
- LedgerRuns.SweepCatches: an extension committed between the sweep's query and its release may save the booking, as intended.
- BulkRestore.FailureRestoresEvent: others may also act on the very seats the call asks for, or sweep its bookings; then BulkReserve.FailureLeavesNothingReserved is what holds.
- Repositories.Repository.SetPaymentIntentID: the code reads its reply in a separate query after the update (`internal/repository/booking_repository.go:206-217`), which can show a later state of the booking than the update left; here the reply is the row the update left.
- Expiry queue liveness through Redis alone: scores are whole seconds and an acknowledgement may drop an entry that was not yet expired, so only the database sweep supports the release guarantee.
- SlidingWindow.SameDecisions: assumes a clock that moves between calls, shared with Redis, and a window of whole seconds of at least one.
- EventAdmission.WindowLimit: one Redis clock and a window of at least one second; a shorter one would expire at once.
- The in-process fallback limiters and the simple fixed-window limiter: token buckets of a library, and a counter without rollback.
- CommandQueue.HandledAtMost: a job delivered twice by the broker would be handled twice.
- HubLoop: the connection itself; a reader may stop and a writer may stop receiving at any time, which the machine allows.
- Fan-out between instances, idempotency middleware, caches, replica routing, authentication, routing, configuration loading and the front end: best effort, thin, or without a guarantee to state.
- Repository methods no service calls (`UpdateStatus`, `MarkAsSold`, `ReleaseSeat`, `ReserveSeatWithLock` and the like): single-table updates.
