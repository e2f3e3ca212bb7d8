# Verified models of the indoor positioning system

This project models the parts of the indoor positioning repository whose correctness is hardest to see by reading, and
proves properties of them with Dafny 4.11. `dafny verify dfyconfig.toml` checks everything.

**The bounded queue and the asynchronous log** (bundled spdlog).
`mpmc_queue.dfy` is the lock-free multi-producer, multi-consumer ring as a step relation: any number of threads, one
atomic access to shared memory per step, in any interleaving. It covers stale position loads, spurious
compare-and-swap failures, and threads that stall between winning a ticket and publishing its cell. Its inductive
invariant gives the theorems of `mpmc_theorems.dfy`. `mpmc_word.dfy` carries them over to 64-bit words that wrap, and
`mpmc_wrap.dfy` reaches the wrap.
`bounded_queue.dfy` is the same queue on words, used by one caller at a time, as a class over an array that refines a
bounded first-in, first-out sequence. `async_worker.dfy` and `async_log.dfy` put clients, a single worker and any number
of sinks on top of the queue, under the policy that blocks and retries when the queue is full. `async_word.dfy` carries
that system over to words, `async_delivery.dfy` shows what holds there whatever `approx_size` reports, and
`async_flush_race.dfy` and `async_wrap.dfy` are two runs of it. `async_calls.dfy` follows the calls of one client into
the queue, and `async_progress.dfy` shows that nobody gets stuck and that a worker told to terminate can come to its end.

**Positioning** (`WifiNode.c`, `localization.cpp`). `kalman_filter.dfy` is the sample ring and the recursive filter over
it, `positioning.dfy` the exchange sort of access points and the positioning round, `trilateration.dfy` the geometry, and
`device_list.dfy` the linked list of devices. Numbers are reals.

**Printing, log rotation and power control.** `decimal_digits.dfy`, `decimal_format.dfy`, `decimal_writer.dfy` and
`decimal_parse.dfy` are the integer half of the bundled format library. `brace_format.dfy` is its format-string loop,
`rotating_sink.dfy` the size-based rotation of log files (whose names that loop prints), and `power_controller.dfy` the
node's power state machine with interrupts between any two statements. `power_stays.dfy` and `power_runs.dfy` relate its
states to watchdog interrupts.

`ring_arithmetic.dfy` holds the index and word arithmetic the others share.

## Where the code and what is said of it differ

- The comment at `async_log_helper.h:264` says that `flush(true)` returns only after its flush message was processed.
  That holds exactly when the worker is not still inside the dequeue that claimed the message
  (`AsyncLog.FlushMessageProcessedIff`), and it can be (`AsyncFlushRace.FlushMayReturnBeforeSinksAreFlushed`). Every
  message ticketed before the flush message has been handled in any case (`AsyncLog.FlushReturnsAfterProcessing`), short
  of the wrap described next.
- `approx_size` compares two counters that wrap. While the enqueue counter has passed a multiple of 2^64 that the dequeue
  counter has not, it reports 0 for a queue that is not empty (`MpmcWord.ApproxSizeRightIff`,
  `MpmcWrap.ApproxSizeMissesMessageAtWrap`). A flush(true) takes that for an empty queue and returns with an earlier
  message still in it (`AsyncWrap.FlushReturnsTooEarlyAtWrap`). What the sinks receive does not depend on it
  (`AsyncDelivery.WordsFollowWithoutWaiting`).
- `dequeue` can report an empty queue while a later ticket is already published
  (`MpmcTheorems.StalledEnqueuerHidesLaterTicket`).
- `parse_nonnegative_int` means to refuse numbers that do not fit, but its test misses some overflows, 6000000000 for
  one (`DecimalParse.MissedOverflow`); `DecimalParse.ReadIsMeantIff` says which.
- `ins-node/README.md:20` lets the WiFi module postpone a shutdown that has been announced. The interrupt routine
  only listens in `SLEEP_WIFI_ON`, so that branch is never taken (`PowerController.PostponeUnreachable`).
- The power controller keeps one flag for barks and re-arms the watchdog on every pass. Two barks can count as one, a
  bark can count for the next state, and wake-ups that come before the bark can put it off for any number of passes.
  So a state may end a bark late or early (`PowerRuns.StateCanEndLate`, `PowerRuns.ShutdownCanComeEarly`) or not at all
  (`PowerRuns.StaysWithoutBarks`). `PowerStays.StayInBarks` says when it is on time, and by
  `PowerStays.StayOnTimeIfBarksAsleep` it is whenever none waits at the start and each one comes while the processor
  sleeps.

## Model

| member | source | states |
|---|---|---|
| RingArithmetic.ConstructorAcceptsPowersOfTwo | server/include/external/spdlog/details/mpmc_bounded_q.h:62-69 | the constructor's bit test accepts exactly the powers of two from 2 up |
| RingArithmetic.MaskSelectsSlot | server/include/external/spdlog/details/mpmc_bounded_q.h:89-89 | for every accepted size, `pos & mask` is the remainder of pos by the size |
| RingArithmetic.SlotIgnoresWrap | server/include/external/spdlog/details/mpmc_bounded_q.h:89-89 | a position that wrapped at 2^64 selects the same cell as the unbounded one |
| MpmcQueue.InitEstablishesInv | server/include/external/spdlog/details/mpmc_bounded_q.h:62-75 | a freshly constructed queue satisfies the invariant |
| MpmcQueue.StepPreservesInv | server/include/external/spdlog/details/mpmc_bounded_q.h:83-144 | every atomic step of every thread keeps the invariant tying sequence numbers, tickets, payloads and both counters together |
| MpmcTheorems.RunKeepsInv | server/include/external/spdlog/details/mpmc_bounded_q.h:83-144 | the invariant holds after every run of any number of threads |
| MpmcTheorems.OneOwnerPerCell | server/include/external/spdlog/details/mpmc_bounded_q.h:83-134 | in every reachable state at most one thread is between its won compare-and-swap and its publication on any cell, and 0 <= enqueued - dequeued <= size |
| MpmcTheorems.EnqueueTicketsAreConsecutive | server/include/external/spdlog/details/mpmc_bounded_q.h:92-96 | the enqueue tickets won in a run are consecutive, so each is won once |
| MpmcTheorems.DequeueTicketsAreConsecutive | server/include/external/spdlog/details/mpmc_bounded_q.h:121-125 | the dequeue tickets won in a run are consecutive, so each is won once |
| MpmcTheorems.EnqueuesKeepRealTimeOrder | server/include/external/spdlog/details/mpmc_bounded_q.h:83-109 | once an enqueue has returned with its ticket, every enqueue that begins later, in whatever thread, wins a higher one |
| MpmcTheorems.DequeuesKeepRealTimeOrder | server/include/external/spdlog/details/mpmc_bounded_q.h:111-134 | once a dequeue has returned with its ticket, every dequeue that begins later, in whatever thread, wins a higher one |
| MpmcTheorems.LogsMatchHistory | server/include/external/spdlog/details/mpmc_bounded_q.h:106-132 | the payload moves observed in a run list each ticket once, with the value recorded for it |
| MpmcTheorems.ExactlyOnceTransfer | server/include/external/spdlog/details/mpmc_bounded_q.h:83-134 | the dequeuer of ticket t takes exactly the value its enqueuer stored, once; every claimed ticket is in transit, waiting in the ring or taken |
| MpmcTheorems.WaitingTicketIsInItsCell | server/include/external/spdlog/details/mpmc_bounded_q.h:106-132 | a value stored and not yet taken sits in its ticket's cell |
| MpmcTheorems.EnqueueCompares | server/include/external/spdlog/details/mpmc_bounded_q.h:92-104 | for any comparison of an enqueuer: it returns false exactly when the loaded sequence number is below its position, wins exactly when number, position and counter agree and the exchange does not fail spuriously, and else starts again with its message and the current counter |
| MpmcTheorems.DequeueCompares | server/include/external/spdlog/details/mpmc_bounded_q.h:119-130 | for any comparison of a dequeuer: it returns false exactly when the loaded sequence number is not above its position, wins exactly when they fit the counter and the exchange does not fail spuriously, and else starts again |
| MpmcTheorems.EnqueueRefusedIff | server/include/external/spdlog/details/mpmc_bounded_q.h:86-105 | whatever other threads do between its last load and its comparison, enqueue returns false exactly when at that load its position was current and either all cells were claimed or a dequeuer was still emptying the cell |
| MpmcTheorems.DequeueEmptyIff | server/include/external/spdlog/details/mpmc_bounded_q.h:114-130 | whatever other threads do in between, dequeue returns false exactly when at its last load its position was current and either no ticket was waiting or the enqueuer of that ticket had not published |
| MpmcTheorems.ApproxSizeZeroIff | server/include/external/spdlog/details/mpmc_bounded_q.h:136-144 | before any wrap, a size of 0 means that at the second load both counters equal the first value loaded |
| MpmcTheorems.ApproxSizeBounds | server/include/external/spdlog/details/mpmc_bounded_q.h:136-144 | up to the capacity the size counts the tickets outstanding at the second load and those dequeued since the first, so it is exact when none was |
| MpmcTheorems.QuiescentRingIsQueue | server/include/external/spdlog/details/mpmc_bounded_q.h:83-134 | with no operation in flight the ring is the sequence of sent and not yet received values in ticket order |
| MpmcTheorems.StalledEnqueuerHidesLaterTicket | server/include/external/spdlog/details/mpmc_bounded_q.h:111-134 | a run in which dequeue fails although a later ticket is already published |
| MpmcWord.WordStep | server/include/external/spdlog/details/mpmc_bounded_q.h:83-144 | under the conditions of `WordRunRefines`, one step on wrapping words is the wrap of one step on unbounded numbers |
| MpmcWord.WordRunRefines | server/include/external/spdlog/details/mpmc_bounded_q.h:83-144 | whole runs on wrapping words follow runs on unbounded numbers while compared numbers are less than 2^63 apart and at no second load of approx_size has the enqueue counter passed a multiple of 2^64 that the loaded dequeue counter has not |
| MpmcWord.ApproxSizeRightIff | server/include/external/spdlog/details/mpmc_bounded_q.h:136-144 | approx_size agrees with the unbounded queue exactly when the enqueue counter has not passed a multiple of 2^64 that the loaded dequeue counter has not, or when at least 2^64 enqueues separate the two loaded values and their remainders are a ring apart; otherwise it is below the unbounded size, and 0 if fewer than 2^64 enqueues separate them |
| MpmcWrap.CountersReach | server/include/external/spdlog/details/mpmc_bounded_q.h:83-134 | from the start of any queue both counters reach any value, on unbounded numbers and on words alike |
| MpmcWrap.ApproxSizeMissesMessageAtWrap | server/include/external/spdlog/details/mpmc_bounded_q.h:136-144 | a run of any queue from its start, on words, in which both loads of approx_size see the same counters, the enqueue counter alone has wrapped, and 0 is returned while the queue holds ticket 2^64 - 1 |
| BoundedQueueClass.BoundedQueue.constructor | server/include/external/spdlog/details/mpmc_bounded_q.h:62-75 | a valid size gives an empty queue of that capacity |
| BoundedQueueClass.BoundedQueue.Make | server/include/external/spdlog/details/mpmc_bounded_q.h:62-75 | construction fails exactly on sizes that are not powers of two from 2 up |
| BoundedQueueClass.BoundedQueue.Enqueue | server/include/external/spdlog/details/mpmc_bounded_q.h:83-109 | on wrapping words: fails iff full, else appends; spurious compare-and-swap failures change nothing |
| BoundedQueueClass.BoundedQueue.Dequeue | server/include/external/spdlog/details/mpmc_bounded_q.h:111-134 | on wrapping words: fails iff empty, else removes and returns the first message |
| BoundedQueueClass.BoundedQueue.ApproxSize | server/include/external/spdlog/details/mpmc_bounded_q.h:136-144 | used by one caller, the size is exact unless the enqueue counter alone has wrapped, and then 0 for a queue that is not empty |
| AsyncWorker.DoPreservesInv | server/include/external/spdlog/details/async_log_helper.h:267-350 | every step of the worker keeps its deliveries, flush requests and pending exceptions accounted for |
| AsyncWorker.DueIffGets | server/include/external/spdlog/details/async_log_helper.h:313-324 | what a sink is due is exactly the log tickets it accepts, up to the one at which a sink threw |
| AsyncWorker.DueAscends | server/include/external/spdlog/details/async_log_helper.h:313-324 | what a sink is due is strictly ascending by ticket |
| AsyncWorker.EmptyPass | server/include/external/spdlog/details/async_log_helper.h:327-350 | a pass over an empty queue in which no sink throws flushes every sink in order when a flush or terminate message asked for it or the interval has expired, and else none; it leaves nothing unflushed and no request, and ends the worker exactly when a terminate message was popped |
| AsyncLog.InitialEstablishesInv | server/include/external/spdlog/details/async_log_helper.h:201-221 | the system starts in its invariant |
| AsyncLog.HappenPreservesInv | server/include/external/spdlog/details/async_log_helper.h:225-350 | every step of every client, of the worker and of the queue keeps the system invariant |
| AsyncLog.AfterKeepsInv | server/include/external/spdlog/details/async_log_helper.h:225-350 | so every run does |
| AsyncLog.FlushReturnsAfterProcessing | server/include/external/spdlog/details/async_log_helper.h:260-265 | when flush(true) returns, every message ticketed before its flush message has been given to each accepting sink or reported to the error handler |
| AsyncLog.FlushMessageProcessedIff | server/include/external/spdlog/details/async_log_helper.h:260-265 | once flush(true) has returned, its own flush message has been processed exactly when the worker is not still inside the dequeue that claimed it |
| AsyncLog.FlushReturnedIsFlushed | server/include/external/spdlog/details/async_log_helper.h:260-350 | outside that window and with no flush request outstanding, no sink has an unflushed delivery of an earlier ticket |
| AsyncLog.SinksReceiveInTicketOrder | server/include/external/spdlog/details/async_log_helper.h:295-337 | at any time each sink has received only tickets it accepts, each at most once, in ticket order, and every handled one that did not throw |
| AsyncLog.FlushMessageFlushesEarlierDeliveries | server/include/external/spdlog/details/async_log_helper.h:340-350 | once a flush message was popped and its request served, nothing delivered before it is unflushed |
| AsyncLog.ExitDeliversEverything | server/include/external/spdlog/details/async_log_helper.h:225-350 | when the worker exits, nothing threw and nothing was pushed after the terminate message: each sink got exactly the log messages at or above its level, once, in order, and was flushed after the last |
| AsyncLog.ExitOnlyAfterTerminate | server/include/external/spdlog/details/async_log_helper.h:295-350 | the worker never exits before a terminate message was handled, and exits with every delivery flushed |
| AsyncLog.RefusedClientKeepsMessage | server/include/external/spdlog/details/async_log_helper.h:244-257 | a failed enqueue leaves the message with the client for its retry |
| AsyncCalls.CallsAreTicketedInOrder | server/include/external/spdlog/details/async_log_helper.h:244-257 | over every run, each call of a client that has left push_msg has a ticket of its own holding its message, in the order of the calls; only the call it is still in may have none |
| AsyncCalls.PushReturnsWithTicket | server/include/external/spdlog/details/async_log_helper.h:244-257 | whichever step makes a client leave push_msg, its message then has a ticket won by that client |
| AsyncProgress.NobodyIsStuck | server/include/external/spdlog/details/async_log_helper.h:225-350 | in every reachable state each client can make a step, and so can the worker until it has exited |
| AsyncProgress.WorkerExits | server/include/external/spdlog/details/async_log_helper.h:267-350 | from any state of the invariant in which no enqueue is under way past its compare-and-swap and a terminate message is ticketed, steps of the worker alone lead to its exit, with nothing thrown on the way |
| AsyncProgress.ClosingDeliversEverything | server/include/external/spdlog/details/async_log_helper.h:225-350 | so any run whose last ticket is a terminate message, with nothing thrown yet, can be completed by the worker alone, and then each sink has got exactly the messages at or above its level and was flushed |
| AsyncProgress.EveryLoggerCanClose | server/include/external/spdlog/details/async_log_helper.h:225-235 | every logger has a run in which it is told to terminate and its worker exits |
| AsyncFlushRace.FlushMayReturnBeforeSinksAreFlushed | server/include/external/spdlog/details/async_log_helper.h:260-265 | a run in which flush(true) has returned while a delivered message is still unflushed |
| AsyncWord.HappenOnWordsRefines | server/include/external/spdlog/details/async_log_helper.h:225-350 | under the conditions of `AfterOnWordsRefines`, one step of the logger over a queue of wrapping words is the wrap of one step over unbounded numbers |
| AsyncWord.AfterOnWordsRefines | server/include/external/spdlog/details/async_log_helper.h:225-350 | whole runs of the logger on words follow the unbounded ones, so the theorems about those hold of it, while compared numbers are less than 2^63 apart and at no poll has the enqueue counter passed a multiple of 2^64 that the loaded dequeue counter has not |
| AsyncWord.FlushFindsEmptyOnWordsIff | server/include/external/spdlog/details/async_log_helper.h:384-391 | for every waiting flush(true), when exactly the wrapped counters look empty to it, and when the unbounded ones do |
| AsyncDelivery.WordsFollowWithoutWaiting | server/include/external/spdlog/details/async_log_helper.h:225-350 | any run of the logger on words, early returns of flush(true) included, has the worker, sinks and queue memory of the unbounded run in which no flush waits, while compared sequence numbers are less than 2^63 apart |
| AsyncDelivery.SinksReceiveInTicketOrderOnWords | server/include/external/spdlog/details/async_log_helper.h:295-337 | so on words too each sink has received only tickets it accepts, each at most once, in ticket order, and every handled one that did not throw, whatever approx_size reported |
| AsyncDelivery.ExitDeliversEverythingOnWords | server/include/external/spdlog/details/async_log_helper.h:225-350 | and at the exit of the worker on words, when nothing threw and nothing was pushed after the terminate message, each sink got exactly the messages it accepts and was flushed after the last |
| AsyncWrap.LoggerReaches | server/include/external/spdlog/details/async_log_helper.h:225-350 | from the start of any logger a client and the worker bring both counters to any value, on unbounded numbers and on words alike |
| AsyncWrap.FlushReturnsTooEarlyAtWrap | server/include/external/spdlog/details/async_log_helper.h:260-265 | a run of any logger from its start, on words, in which a client pushes a message and its flush(true) returns while that message is published and not popped |
| KalmanFilter.ClosedForm | server/src/WifiNode.c:90-100 | after n samples the error is 20/(1+4n) and the estimate is (-50 + 4*sum)/(1+4n) |
| KalmanFilter.GainIsFraction | server/src/WifiNode.c:94-94 | every gain lies strictly between 0 and 1 |
| KalmanFilter.EstimateStaysInRange | server/src/WifiNode.c:90-100 | the estimate stays in the range spanned by -50 and the samples |
| KalmanFilter.EstimateIgnoresOrder | server/src/WifiNode.c:90-100 | permuting the samples does not change the estimate |
| KalmanFilter.RingSumIsWindowSum | server/src/localization.cpp:19-29 | the ring holds the last 4000 samples in some rotation, so its sum is theirs |
| KalmanFilter.WifiParams.InitKalmanParams | server/src/WifiNode.c:230-245 | resets the filter to its initial estimate and error |
| KalmanFilter.WifiParams.FillNodeDataPoints | server/src/localization.cpp:17-34 | writes any number of samples into the ring, leaving the last 4000 and the right count |
| KalmanFilter.WifiParams.KalmanProcess | server/src/WifiNode.c:90-100 | one step of the loop refines one update of the filter |
| KalmanFilter.WifiParams.RunFilter | server/src/WifiNode.c:73-88 | the loop refines the filter over the samples in the ring |
| KalmanFilter.WifiParams.EstimatePower | server/src/WifiNode.c:73-88 | filling and filtering m samples gives exactly (-50 + 4*S)/(1 + 4*k), with k = min(m, 4000) and S the sum of the last k |
| Trilateration.DenominatorsVanishTogether | server/src/WifiNode.c:181-194 | the two denominators are negatives of each other and vanish exactly on collinear anchors |
| Trilateration.EqualPowersIffSolves | server/src/WifiNode.c:181-194 | a point has equal power to the three circles exactly when it solves the two quotient equations |
| Trilateration.LocateIsRadicalCentre | server/src/WifiNode.c:181-194 | for non-collinear anchors and any distances the computed point is the one with equal power to all three circles |
| Trilateration.LocateFailsIffCollinear | server/src/WifiNode.c:181-194 | there is no result exactly on collinear anchors |
| Trilateration.LocateIsExact | server/src/WifiNode.c:181-194 | when the distances are those of a point, that point is computed |
| Trilateration.LocateIgnoresOrder | server/src/WifiNode.c:181-194 | reordering the anchors changes nothing |
| Positioning.SettleSlot | server/src/WifiNode.c:137-150 | the inner loop settles one slot and keeps the array a permutation |
| Positioning.OrderRSSIAscend | server/src/WifiNode.c:127-153 | the result is a permutation with all heard access points first, in ascending distance, and the others after them |
| Positioning.FirstThreeAreNearest | server/src/WifiNode.c:157-175 | when three access points are heard, slots 0 to 2 hold three heard ones and no heard one outside is nearer |
| Positioning.InsNode.Solve | server/src/WifiNode.c:181-194 | the source formulas give the point of equal power with respect to the circles around three access points, and no finite one exactly when they stand in line |
| Positioning.InsNode.TrilaterationProcess | server/src/WifiNode.c:155-203 | after sorting, the planar position has equal power with respect to the first three, not finite exactly when they stand in line; three times the third coordinate is within 1.5 of the sum of their heights, a tie going away from zero |
| Positioning.LocatedHasEqualPowers | server/src/WifiNode.c:181-194 | a located position has equal power to its three circles |
| Positioning.DeviceIsLocatedExactly | server/src/WifiNode.c:155-203 | with three heard, non-collinear access points at true distances the device's own position is found, wherever they stood in the array |
| Positioning.RoundIsNearest | server/src/WifiNode.c:195-195 | rounding gives the nearest integer, and of two that are equally near the one away from zero |
| DeviceList.List.Find | server/src/WifiNode.c:323-342 | returns the one node with that name, or none iff the name was never created |
| DeviceList.List.Walk | server/src/WifiNode.c:41-51 | the walk ends at the last node with the number the next one gets |
| DeviceList.List.Append | server/src/WifiNode.c:205-228 | links one new node at the end, moving and renaming nothing |
| DeviceList.List.Create | server/src/WifiNode.c:39-71 | registers a new name with a node numbered by its creation index; a known name gives null; existing nodes stay where they are |
| DeviceList.List.FindOrCreate | server/src/localization.cpp:36-42 | returns the node of that id, adding it exactly when it was missing |
| DeviceList.List.Serve | server/src/WifiNode.c:39-71 | any sequence of find, create and find-or-create calls registers each id once; each call returns the one node of its name, the new node at the end, or null, as `Answer` says, and no node moves or changes |
| DeviceList.RegisterAllListsEachOnce | server/src/WifiNode.c:39-71 | the list holds exactly the requested ids, each once, numbered by first request |
| DecimalDigits.ValueOfDecimal | server/include/external/spdlog/fmt/bundled/format.h:1001-1024 | reading the decimal form of n gives n |
| DecimalDigits.NumDigitsIff | server/include/external/spdlog/fmt/bundled/format.h:937-944 | n has k digits exactly when it lies between the powers of ten, and 0 has one |
| DecimalDigits.IndexBracketsNumbers | server/include/external/spdlog/fmt/bundled/format.h:942-942 | for every bit length the index `bits * 1233 >> 12` brackets all numbers of that length between two powers of ten |
| DecimalDigits.CountDigitsIsNumDigits | server/include/external/spdlog/fmt/bundled/format.h:936-969 | the multiply-and-shift count of every 64-bit and 32-bit word is its number of digits, with the table index in range |
| DecimalDigits.CountDigitsByLoop | server/include/external/spdlog/fmt/bundled/format.h:947-961 | the fallback loop computes the same number |
| DecimalFormat.DigitPairs | server/include/external/spdlog/fmt/bundled/format.cc:253-259 | entry k of the digit table is k in two digits |
| DecimalFormat.GroupedLength | server/include/external/spdlog/fmt/bundled/format.h:2932-2934 | grouped text is exactly num_digits + sep.size() * ((num_digits - 1) / 3) long |
| DecimalFormat.UngroupedGrouped | server/include/external/spdlog/fmt/bundled/format.h:978-996 | taking the separators out gives the plain digits |
| DecimalFormat.TextIsGrouped | server/include/external/spdlog/fmt/bundled/format.h:978-1024 | printing digit by digit with a mark after each third one groups by three from the right |
| DecimalFormat.ThousandsSep.Apply | server/include/external/spdlog/fmt/bundled/format.h:989-995 | after every third digit the separator is copied in front, else nothing is |
| DecimalFormat.FormatDecimal | server/include/external/spdlog/fmt/bundled/format.h:1001-1024 | writing backwards two digits at a time leaves exactly the grouped decimal form, ending where told, and touches nothing else |
| DecimalWriter.UnsignedAbsIsAbs | server/include/external/spdlog/fmt/bundled/format.h:2497-2500 | negating after the unsigned cast is the absolute value for every value of the type, the minimum included |
| DecimalWriter.SpaceIsExact | server/include/external/spdlog/fmt/bundled/format.h:2928-2936 | the space reserved is exactly what is written |
| DecimalWriter.MemoryWriter.GrowBuffer | server/include/external/spdlog/fmt/bundled/format.h:2478-2484 | makes room behind the contents, which a reallocation keeps |
| DecimalWriter.MemoryWriter.PrepareIntBuffer | server/include/external/spdlog/fmt/bundled/format.h:2507-2514 | reserves prefix and digits and writes the prefix |
| DecimalWriter.MemoryWriter.WriteUnsignedDecimal | server/include/external/spdlog/fmt/bundled/format.h:2486-2492 | the digits fill the grown space behind the prefix |
| DecimalWriter.MemoryWriter.WriteDecimal | server/include/external/spdlog/fmt/bundled/format.h:2494-2505 | appends the signed decimal form of any 32-bit or 64-bit value |
| DecimalWriter.MemoryWriter.WriteInt | server/include/external/spdlog/fmt/bundled/format.h:2851-2938 | the 'd' and 'n' conversions append '-' for a negative value, '+' or a space for another one as the flags say, and the plain or grouped digits |
| DecimalParse.ParseNonnegativeInt | server/include/external/spdlog/fmt/bundled/format.h:3601-3618 | the loop over 32-bit words reads the whole run of digits as `Read` says |
| DecimalParse.ReadBelowWrap | server/include/external/spdlog/fmt/bundled/format.h:3601-3618 | below 2^32 a number is read right, and refused exactly above INT_MAX |
| DecimalParse.ReadIsMeantIff | server/include/external/spdlog/fmt/bundled/format.h:3601-3618 | any run of digits is read right exactly when its number is not one that is too big, wraps without the kept value ever falling, and ends up at most at INT_MAX |
| DecimalParse.MisreadBelowTenRanges | server/include/external/spdlog/fmt/bundled/format.h:3605-3616 | between 2^32 and 10 * 2^32 the numbers read wrong are those with v / 10 <= v % 2^32 <= INT_MAX |
| DecimalParse.ReadsBackDecimal | server/include/external/spdlog/fmt/bundled/format.h:3601-3618 | printing and reading undo each other exactly up to INT_MAX |
| DecimalParse.MissedOverflow | server/include/external/spdlog/fmt/bundled/format.h:3605-3611 | 6000000000 is read as 1705032704 |
| BraceFormat.BasicFormatter.TakeNextArg | server/include/external/spdlog/fmt/bundled/format.h:2060-2065 | the next automatic argument, or an error after manual indexing or past the end |
| BraceFormat.BasicFormatter.TakeArg | server/include/external/spdlog/fmt/bundled/format.h:2069-2080 | an explicit argument, or an error after automatic indexing or past the end |
| BraceFormat.BasicFormatter.WriteLiteral | server/include/external/spdlog/fmt/bundled/format.h:2082-2086 | the pending literal goes out in full and nothing else does |
| BraceFormat.BasicFormatter.FormatField | server/include/external/spdlog/fmt/bundled/format.h:3653-3663 | parsing and printing one field agrees with its functional description, errors included |
| BraceFormat.BasicFormatter.Format | server/include/external/spdlog/fmt/bundled/format.h:3851-3870 | the loop prints what `Render` says and stops with the same error; only a literal before an unmatched brace is not written |
| BraceFormat.TemplateRenders | server/include/external/spdlog/fmt/bundled/format.h:3851-3870 | formatting any template of escaped literals and fields prints its pieces in turn, or fails where the first argument cannot be had |
| BraceFormat.TemplatePrintsIff | server/include/external/spdlog/fmt/bundled/format.h:2060-2080 | it prints the literals interleaved with the arguments exactly when indexing is not mixed and every argument exists |
| BraceFormat.LeftOverBrace | server/include/external/spdlog/fmt/bundled/format.h:3851-3870 | a '}' left over behind a template is unmatched; a '{' left over is a missing '}' when an argument is left, else an invalid format string; the template is printed before |
| BraceFormat.AutoTemplatePrints | server/include/external/spdlog/fmt/bundled/format.h:2060-2065 | with too few arguments the error is that the index is out of range |
| BraceFormat.EscapeRoundTrip | server/include/external/spdlog/fmt/bundled/format.h:3851-3870 | doubling braces and formatting undo each other on every NUL-free string |
| RotatingSink.SinkConserves | server/include/external/spdlog/sinks/file_sinks.h:82-91 | a message is appended to the stream, and only the oldest file can be lost |
| RotatingSink.SinkRotatesIff | server/include/external/spdlog/sinks/file_sinks.h:82-91 | a message that fits into max_size is appended to file 0 and changes no other file; one that does not fit starts a new file and drops the oldest |
| RotatingSink.RotationsAreForced | server/include/external/spdlog/sinks/file_sinks.h:84-89 | after any messages, every file closed by a rotation, together with the message that begins the next file, exceeds max_size |
| RotatingSink.RunKeepsSuffix | server/include/external/spdlog/sinks/file_sinks.h:82-137 | after any sequence of messages the files read as one stream are a suffix of the first stream and all messages |
| RotatingSink.NothingLost | server/include/external/spdlog/sinks/file_sinks.h:115-137 | nothing is lost while there were no more rotations than unused files |
| RotatingSink.RunKeepsMessagesWhole | server/include/external/spdlog/sinks/file_sinks.h:82-137 | each file holds consecutive whole messages, and the files continue each other |
| RotatingSink.StreamStartsAtMessage | server/include/external/spdlog/sinks/file_sinks.h:82-137 | so what is kept begins at the start of a message |
| RotatingSink.RunBoundsFiles | server/include/external/spdlog/sinks/file_sinks.h:84-89 | no file outgrows max_size unless a single message does; the current one is within max_size or is just the last message |
| RotatingSink.CalcFilenameIs | server/include/external/spdlog/sinks/file_sinks.h:99-107 | what the format library prints as file name |
| RotatingSink.FilenamesDistinct | server/include/external/spdlog/sinks/file_sinks.h:99-107 | different indices name different files |
| RotatingSink.RotatingFileSink.constructor | server/include/external/spdlog/sinks/file_sinks.h:68-78 | opening for append keeps the files and learns the size of the first |
| RotatingSink.RotatingFileSink.SinkIt | server/include/external/spdlog/sinks/file_sinks.h:82-91 | a message that fits is appended to file 0, one that does not starts a new file; no other file changes, and `_current_size` stays the length of file 0 |
| RotatingSink.RotatingFileSink.Rotate | server/include/external/spdlog/sinks/file_sinks.h:115-137 | removing and renaming from the oldest down moves every file up by one and empties file 0, touching no other file |
| PowerController.StepKeepsInv | ins-node/src/power_controller/power_controller.ino:178-221 | every statement of the main loop, and every interrupt between any two outside the guarded section, keeps the invariant |
| PowerController.AtLoopBoundary | ins-node/src/power_controller/power_controller.ino:128-152 | whenever loop starts over: pin high iff not SLEEP_WIFI_OFF, a signal only in SLEEP_WIFI_ON, and the time slept a multiple of the watchdog period below the state's duration |
| PowerController.StateChanges | ins-node/src/power_controller/power_controller.ino:178-221 | a state not cut short by a signal is left on exactly the ceil(D/T)-th bark credited to it, overshooting by less than T; only SLEEP_WIFI_ON can be cut short |
| PowerController.PostponeUnreachable | ins-node/src/power_controller/power_controller.ino:56-61 | the branch that postpones a shutdown is never taken |
| PowerController.SignalIffPinHigh | ins-node/src/power_controller/power_controller.ino:56-61 | in SLEEP_WIFI_ON a signal is pending exactly when the pin was found high since the state was entered |
| PowerController.LeavesOnIff | ins-node/src/power_controller/power_controller.ino:189-199 | the decision after a sleep leaves SLEEP_WIFI_ON exactly when the time is up or the pin was found high since the state was entered |
| PowerController.PeriodIs | ins-node/src/power_controller/power_controller.ino:117-119 | the ten watchdog settings last 16, 32, ... 8192 ms |
| PowerController.BarkConservation | ins-node/src/power_controller/power_controller.ino:66-69 | every bark is credited once, waits, or came while one was waiting |
| PowerStays.StayInBarks | ins-node/src/power_controller/power_controller.ino:128-221 | the watchdog interrupts during a stay in one state, and that it ends on exactly the ceil(D/T)-th of them if and only if no waiting bark was brought in, merged or left behind on balance |
| PowerStays.StayOnTimeIfBarksAsleep | ins-node/src/power_controller/power_controller.ino:128-221 | a stay that is not cut short, starts with no bark waiting and is interrupted by barks only during sleep ends on exactly the ceil(D/T)-th bark |
| PowerRuns.StateCanEndLate | ins-node/src/power_controller/power_controller.ino:128-152 | with any configuration, a run in which a state ends one bark late |
| PowerRuns.ShutdownCanComeEarly | ins-node/src/power_controller/power_controller.ino:140-216 | with any configuration, a run in which the shutdown warning ends one bark early |
| PowerRuns.StaysWithoutBarks | ins-node/src/power_controller/power_controller.ino:128-152 | any number of passes of the main loop without a single bark |
| PowerController.ShippedConfig | ins-node/src/power_controller/power_controller.ino:39-47 | the shipped constants meet the assumptions; every state needs two periods of 8192 ms |

## Left out

- MpmcWord.WordRunRefines: assumes compared positions are less than 2^63 apart, and that at no second load of approx_size the enqueue counter has passed a multiple of 2^64 that the loaded dequeue counter has not; MpmcWord.ApproxSizeRightIff says exactly what happens otherwise.
- MpmcTheorems.ApproxSizeZeroIff: speaks of unbounded counters; MpmcWord.ApproxSizeRightIff treats the wrap.
- AsyncLog.FlushReturnsAfterProcessing: speaks of unbounded counters; AsyncWord.AfterOnWordsRefines carries it over to words under its conditions, and AsyncWrap.FlushReturnsTooEarlyAtWrap is a run that breaks it without them.
- AsyncLog.FlushReturnedIsFlushed: goes one way, because sinks may also have been flushed by the interval or by another flush message.
- AsyncProgress.WorkerExits: says which steps lead to the exit, not that a scheduler takes them or that a weak compare-and-swap does not fail for ever.
- BoundedQueueClass.BoundedQueue.Make: sizes below 2^63, since no larger ring of cells can be allocated.
- AsyncLog.ExitDeliversEverything: needs that no message is ticketed after the terminate message and that no sink throws, which is the caller's part of the contract.
- Weak memory ordering: atomic accesses are sequentially consistent. A moved-from payload is an arbitrary value.
- The conversion of an unsigned difference to a signed type is taken to wrap.
- The asynchronous log: the overflow policy that discards messages, thread start and join, sleeping and yielding while waiting, the clock behind the flush interval (a flush may happen at any idle moment), and formatters.
- IEEE rounding, NaN and infinity: the filter, the sort and the trilateration use reals. The sort assumes no distance is exactly 0.1, since a float never equals the double 0.1.
- KalmanFilter.WifiParams.FillNodeDataPoints: at most 2^31 - 1 samples, the range of the C index.
- Conversion of power to distance (`log10`, `powf`), the configuration lookup of anchor positions, HTTP, SQLite and response strings.
- A positioning round fills at most as many access points as the device's fixed array has slots; the sort is modelled for any number.
- The device list assumes non-empty ids shorter than 64 characters, as the fixed name field does.
- The format library beyond decimal integers and plain fields: format specifications behind ':' (fill, alignment, width, precision, other bases), named arguments, floating point, locale lookup (the separator is a parameter) and wide characters. Truncation of a separator size to 32 bits is not modelled.
- BraceFormat.TemplateRenders: explicit indices below 2^32, because longer ones may wrap when read; DecimalParse.ReadIsMeantIff says what is read then.
- DecimalWriter.MemoryWriter.WriteInt: the conversions 'd' (also the default) and 'n' without width or precision, so without padding.
- BraceFormat.BasicFormatter.FormatField: a format specification or a named argument ends the model with a placeholder error.
- Arguments of a format call are given by their printed text.
- BraceFormat.BasicFormatter.Format: after an unmatched '}' it only says that a prefix was written, because the pending literal is not flushed then.
- The rotating sink: failing file operations, buffering below `fwrite`, and wrap-around of size_t sizes. The file system is a map from names to contents.
- The power controller is a transition system on values rather than a class, because interrupts come between statements. Waking is possible at any time; the sequence that programs the watchdog registers, pin modes, the pulse that announces a shutdown and real time are not modelled, and durations must leave one period of room in 32 bits.
- The WiFi module's sample batching, other sinks, the logger registry, the Android application and hardware files.
