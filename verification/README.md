# Event pool: a Dafny model of its stateful cores

The event pool watches contracts on several chains, stores the logs of their events, and passes
them on to subscribers. This project models the parts of it that keep state or transform data, and
proves what they keep. It has five groups of modules.

**Receipts.** `SessionHeap` is the indexed binary heap of session jobs with the algorithms of Go's
`container/heap` (objects with back-pointers, swapped in place); `SessionScheduler` is the scheduler
object on top of it; `SchedulerCore` is its specification on values -- jobs, heap, token map, lazy
cancellation -- and relates it to a plain table from token to pending receipt; `SchedulerMachine`
interleaves callers, clock, timer, trigger channel and the goroutine `run` step by step, and
`SchedulerWakeups` says over whole runs what wakes and what ends it.

**Streams.** `StreamRegistry` holds the per-key subscriber lists, the tracked connections and the
bounded event queues, as a value specification and as an object with in-place updates;
`StreamMachine` interleaves handlers, broadcasts and disconnects at the granularity of the mutex, and
`StreamLives` follows a handler and a disconnect to their ends;
`StreamDelivery` adds a record of what was broadcast, offered and dequeued; `StreamKeys` is about the
text of a subscription key; `BroadcastRace` shows what remains true when a cleanup shifts the slice
that a broadcast is walking along, and `BroadcastWalk` does it for any number of cleanups and
registrations between any two steps of the walk.

**Ingestion.** `EventStore` checks, publishes and inserts logs; `InsertRace` interleaves the lookups and
insertions of several goroutines; `Backfill` is the chunk loop of the
listener; `Handoff` interleaves that listener with the worker loop that consumes its channel,
`HandoffChoices` says what either side may do at each moment, and `HandoffStore` says what becomes of the table and of every log that was sent; `Polling` is the poll loop
of the monitor with 64-bit wrap-around, failing queries and one cursor for all contracts of a chain;
`PollingMachine` interleaves several such loops at every access of the cursor, and `PollCoverage` says
which blocks each contract has seen in any such interleaving.

**Rate limit.** `RateLimit` has the middleware, the status-recording response writer, and a machine of
concurrent requests of one address with a clock and an expiring counter.

**Texts.** `Text` and `EventSignature` are about bringing event signatures into canonical form;
`Numerals`, `HexCodec`, `EthTypes` and `JsonNumber` about numbers, byte strings, hashes, checksummed
addresses and JSON numbers; `Float64` about rounding a double to an integer.

Code that works by changing things is a class or a method with loops, proved against a function on
values; the lemmas are about those functions and about all runs of the machines. The database, Redis,
the chain node, the JSON library, the hash function, clocks and cancellation are parameters or free
choices of the machines. Ghost fields and the records of a machine (`exits`, `arrivals`, `log`,
`fetched`, `sent`, `done`, `polls`, `asked`) add nothing to the behaviour; they say what has happened.

## Where a property one would expect does not hold

The model follows the code. Each of these names a lemma with a concrete case and one that says exactly
when the property holds.

- A pop deletes the map entry of its token even if the popped job is an old, cancelled one, and live jobs
  and map disagree (`OrphanRun`). A run follows the plain table exactly if no step pops a tombstone whose
  token is mapped again (`RunRefinesIff`); for one pass `DrainRefinesIff` says the same of its start.
- The timer can be armed later than the head's due time by as much as passes between reading the clock
  and arming (`LateTimerRun`, `ArmedInTimeIff`).
- The order of the pops can be lost (`NegativeDelayRun`), exactly from states with a job due before the
  last one that left (`LosesOrderIff`), which a Schedule makes exactly if it goes below that one
  (`ScheduleKeepsFloorIff`).
- A disconnect that deletes by token can forget a stream that registered in between, and then two
  live streams share a token (`UnguardedDeleteRun`); in a run that happens exactly if a stream opens while
  a live stream of its token is not the tracked one (`OneLiveRunIff`, `DeleteKeepsTrackedIff`, `TrackedIff`).
- A broadcast outside the lock can miss one subscriber and serve another twice (`MissedAndDoubled`,
  `OnceEachIff`), and can still send to a channel that has been removed, which is closed right after its
  removal, so that the send panics (`RemovedIsReached`, `ReachesRemovedIff`). With several cleanups and
  registrations a newcomer can get the event in place of a subscriber (`NewcomerInstead`); how often each
  channel gets it is what `WalkDelivers` says.
- Two subscriptions can share a key if address or name contain a slash (`SharedKey`, `OwnKeyIff`).
- A backfill misses the head block when its distance from the start is a multiple of 2001
  (`HeadMissed`, `CoverageIff`).
- While only one contract polls, a failed batch is never fetched again if a later batch of the same poll
  succeeds (`FirstBatchFails`, `FetchedAllIff`).
- A contract can miss blocks because another contract of its chain has moved the cursor (`ComesTooLate`),
  but need not, as two contracts polling in lockstep show (`LockstepRun`). In every interleaving it has seen
  a block exactly if one of its polls read a cursor below the block, saw a head not below it, and the query
  for it succeeded (`BlockSeenIff`, `SeesAllByPollsIff`); if polls exclude each other, that comes down to who
  moves the cursor (`SeesEverythingIff`, `SeesAllIff`).
- The query of a poll asks for other blocks than meant, exactly from head 2^63 on (`HeadTooHigh`,
  `QueriesAreTrueIff`).
- The shared cursor can go back (`CursorGoesBackRun`, `CursorGoesBackIff`); near 2^64 the poll loop wraps
  around (`WrapsAround`, `LoopStopsIff`).
- A log that could not be inserted is published again (`PublishedTwice`, `RepublishedIff`), and it can be
  lost although the backfill completes (`LostLogRun`, `LossIff`).
- Two goroutines at the same log can both find it missing and both insert it (`TwoRowsRun`); the table keeps
  one row per log exactly if no insertion is preceded by a failed lookup of a row that was there or overtaken
  by another writer's (`RunUniqueIff`).
- A success can go uncounted: an empty response, one with early hints, one whose status is overridden
  (`UncountedSuccesses`, `UncountedIff`).
- A declared parameter `type name` without `indexed` keeps its name glued to its type, because spaces are
  removed first (`NameStaysGlued`, `DeclarationIff`).
- A text is taken for an address even if something other than hex digits follows the forty digits
  (`GarbageIsTaken`, `AcceptedIff`).
- A short stored value leaves bytes of the previous address in the receiver (`ShortScan`, `ScanForgetsIff`).
- A JSON number is not always rounded to the nearest integer: 2^52 + 1 is read as 2^52 + 2, the double
  below 1/2 as 1 (`NextIntegerIsRead`, `HalvesAreRead`); the exceptions are exactly the two doubles next to
  1/2 and -1/2 and the odd integers from 2^52 to 2^53 (`RoundsToNearestIff`, `IntegerIsReadIff`). Negative
  numbers are accepted exactly above -(1/2 - 2^-54) (`NumberIsReadIff`), although only positive values are
  meant to be.

## Model

| member | source | states |
|---|---|---|
| `SessionHeap.SessionJobHeap.Swap` | `pkg/grpc/session.go:23-27` | exchanges two slots and the slot numbers the jobs carry; every job still knows its slot |
| `SessionHeap.SessionJobHeap.Push` | `pkg/grpc/session.go:29-34` | appends a job that knows its slot |
| `SessionHeap.SessionJobHeap.Pop` | `pkg/grpc/session.go:36-44` | takes off the last job, marks it with slot -1, and leaves the others as they were |
| `SessionHeap.SessionJobHeap.Up` | `pkg/grpc/session.go:18-27` | from a heap in which one slot may be smaller than its parent, moving it up restores heap order with the same jobs |
| `SessionHeap.SessionJobHeap.Down` | `pkg/grpc/session.go:18-27` | moving a slot down restores the order below it, touches nothing from slot n on, and reports whether it moved; if not, only the edge to its parent can be wrong |
| `SessionHeap.SessionJobHeap.HeapPush` | `pkg/grpc/session.go:91` | a heap stays a heap and gains exactly the new job |
| `SessionHeap.SessionJobHeap.HeapPop` | `pkg/grpc/session.go:124` | returns the old root, and a heap of exactly the other jobs remains |
| `SessionHeap.SessionJobHeap.Fix` | `pkg/grpc/session.go:82` | after an arbitrary change of one key the heap is in order again, with the same jobs |
| `SessionHeap.RootIsLeast` | `pkg/grpc/session.go:123` | the job at slot 0 is due no later than any other |
| `SessionHeap.KeyChange` | `pkg/grpc/session.go:80-82` | changing one key of a heap leaves the situation `Fix` can repair |
| `SessionScheduling.SessionScheduler.ScheduleSessionReceipt` | `pkg/grpc/session.go:72-100` | the object goes from a valid state to a valid one that is the specified Schedule: an existing job of the token is re-keyed in place, otherwise a new job is pushed; the trigger is pending afterwards |
| `SessionScheduling.SessionScheduler.Reschedule` | `pkg/grpc/session.go:77-82` | re-keying in place through the slot the job carries is Schedule on an existing entry |
| `SessionScheduling.SessionScheduler.Add` | `pkg/grpc/session.go:83-93` | pushing a new job is Schedule on a missing entry |
| `SessionScheduling.SessionScheduler.CancelSessionReceipt` | `pkg/grpc/session.go:103-114` | reports whether the token had an entry; the job becomes a tombstone and stays in the heap |
| `SessionScheduling.SessionScheduler.Drain` | `pkg/grpc/session.go:120-131` | the loop pops successive heads until none is due, and hands over the uncancelled ones in that order |
| `SessionScheduling.SessionScheduler.PopHead` | `pkg/grpc/session.go:124-130` | pops a least job and forgets its token, guarded by nothing |
| `SessionScheduling.SessionScheduler.NextWait` | `pkg/grpc/session.go:134-142` | the wait until the job at the root, which no job precedes, or zero if that has passed; 24 hours if there is none |
| `SessionScheduling.StartedIsSubmitted` | `pkg/grpc/session.go:125-129` | what the loop starts, one by one, is the set of uncancelled jobs popped |
| `SchedulerCore.ScheduleKeepsInv` | `pkg/grpc/session.go:72-94` | every map entry stays an uncancelled job of its token in the heap |
| `SchedulerCore.CancelKeepsInv` | `pkg/grpc/session.go:103-114` | the same for Cancel, which also keeps live jobs and map in agreement |
| `SchedulerCore.PopKeepsInv` | `pkg/grpc/session.go:124-130` | the same for a pop with its unguarded delete |
| `SchedulerCore.PopKeepsSyncedIff` | `pkg/grpc/session.go:130` | a pop keeps live jobs and map in agreement exactly if it does not pop a tombstone whose token is mapped again |
| `SchedulerCore.ScheduleKeepsCleanIff` | `pkg/grpc/session.go:77-93` | a Schedule makes a token both mapped and tombstoned exactly if a tombstone of the token is in the heap |
| `SchedulerCore.OrphanRun` | `pkg/grpc/session.go:77-130` | Schedule, Cancel, Schedule, pop on one token: the live receipt is no longer in the map |
| `SchedulerCore.ScheduleRefines` | `pkg/grpc/session.go:72-94` | on the plain table, Schedule overwrites the entry of its token and nothing else |
| `SchedulerCore.CancelRefines` | `pkg/grpc/session.go:103-114` | on the plain table, Cancel removes the entry of its token and reports whether there was one |
| `SchedulerCore.PopsInOrder` | `pkg/grpc/session.go:123-131` | jobs popped by one pass are due, distinct, and in order of due time |
| `SchedulerCore.DrainClosedForm` | `pkg/grpc/session.go:123-131` | a pass removes exactly the due jobs from the heap and exactly their tokens from the map |
| `SchedulerCore.DrainEmits` | `pkg/grpc/session.go:123-131` | a pass submits exactly the table entries with deadline at most now, each token once |
| `SchedulerCore.DrainRefinesIff` | `pkg/grpc/session.go:123-131` | a pass leaves exactly the entries that are not due, if and only if no token has a due tombstone beside a mapped job not yet due |
| `SchedulerMachine.RunIsOk` | `pkg/grpc/session.go:72-170` | in every reachable interleaving: map entries are live jobs in the heap; heap and departures partition the jobs; the wait computed and the timer armed are in time for every job unless a trigger is pending |
| `SchedulerMachine.NoLostWakeup` | `pkg/grpc/session.go:95-99` | whenever `run` waits and the heap is not empty, a trigger is pending, or the timer has fired or is armed for no later than the head is due or the clock was read, plus the time between reading and arming |
| `SchedulerWakeups.TriggerPendingIff` | `pkg/grpc/session.go:95-99` | over every run: a signal is pending exactly if a Schedule has come since the last wake-up by the trigger |
| `SchedulerWakeups.WakeupNeedsSchedule` | `pkg/grpc/session.go:95-161` | between two wake-ups by the trigger, and before the first, there is a Schedule |
| `SchedulerWakeups.WakeupsAreBounded` | `pkg/grpc/session.go:95-161` | the trigger wakes `run` at most as often as Schedule was called, once less while a signal is pending |
| `SchedulerWakeups.TimerIsEnough` | `pkg/grpc/session.go:144-168` | whenever `run` waits and no Schedule has come since the last wake-up by the trigger, the timer has fired or is armed in time for the head |
| `SchedulerWakeups.NeverWokenEarly` | `pkg/grpc/session.go:144-159` | the timer wakes `run` only if it has fired since it was last armed, and not before the wait has passed |
| `SchedulerWakeups.CallersGetThrough` | `pkg/grpc/session.go:103-175` | outside the mutex a Cancel is always possible, and a Stop exactly if none was called before |
| `SchedulerWakeups.ReturnsIff` | `pkg/grpc/session.go:162-166` | over every run, `run` can return exactly if it waits and Stop has been called |
| `SchedulerWakeups.EndIsFinal` | `pkg/grpc/session.go:162-166` | after its end the timer is off and nothing leaves the heap |
| `SchedulerWakeups.CanEnd` | `pkg/grpc/session.go:117-168` | after a Stop, `run` can come to its end by its own steps from wherever it is |
| `SchedulerMachine.ArmedInTimeIff` | `pkg/grpc/session.go:134-155` | the deadline is within the later of due time and arming time exactly if no time passed in between or the head was already due |
| `SchedulerMachine.LateTimerRun` | `pkg/grpc/session.go:134-155` | a receipt due at 5 with the timer armed for 6 |
| `SchedulerMachine.DueHeadComesOut` | `pkg/grpc/session.go:117-168` | a head whose time has come leaves the heap after at most four steps of timer and `run`, without any caller |
| `SchedulerMachine.NeverStuckInLock` | `pkg/grpc/session.go:119-156` | inside the mutex `run` can always go on |
| `SchedulerMachine.PopsAreOrdered` | `pkg/grpc/session.go:120-131` | over a whole run in which no Schedule goes below the last departure, jobs leave in order of due time, across passes and reschedules, and none before it is due |
| `SchedulerMachine.NonNegativeDelays` | `pkg/grpc/session.go:80-91` | with non-negative delays no Schedule goes below the last departure |
| `SchedulerMachine.LosesOrderIff` | `pkg/grpc/session.go:120-131` | steps of `run`, timer and clock alone can lose the order exactly from states in which a job in the heap is due before the last one that left |
| `SchedulerMachine.ScheduleKeepsFloorIff` | `pkg/grpc/session.go:80-91` | a Schedule leads into such a state exactly if its due time is below that of the last job that left |
| `SchedulerMachine.NegativeDelayRun` | `pkg/grpc/session.go:80-91` | with a negative delay a receipt due earlier leaves later |
| `SchedulerMachine.Conservation` | `pkg/grpc/session.go:84-131` | jobs created are those in the heap plus those submitted plus those dropped; none leaves twice |
| `SchedulerMachine.CancelIsFinal` | `pkg/grpc/session.go:107-129` | a job whose Cancel returned true stays cancelled and is never submitted, whatever is scheduled on its token later |
| `SchedulerMachine.RunRefinesIff` | `pkg/grpc/session.go:72-130` | every step of a run is the corresponding step on the plain table, exactly if no step pops a tombstone whose token is mapped again |
| `SchedulerMachine.NoReuseRefines` | `pkg/grpc/session.go:72-130` | in particular every run does in which no token is scheduled while its tombstone is in the heap |
| `SchedulerMachine.PassPops` | `pkg/grpc/session.go:119-131` | whatever interleaves, a pass of the machine does to the core what the drain loop does |
| `SchedulerMachine.PassEmitsDueEntries` | `pkg/grpc/session.go:119-131` | a complete pass submits exactly the entries due when it began, and leaves exactly the rest if and only if no due tombstone stands beside a later mapped job of its token |
| `SchedulerMachine.NoReuseIsSafe` | `pkg/grpc/session.go:77-130` | without reuse of a token over its tombstone, both conditions hold throughout |
| `StreamRegistry.RemoveFirst` | `pkg/grpc/server.go:181-187` | the removal loop takes out the first occurrence and keeps the order of the rest |
| `StreamRegistry.WithoutAt` | `pkg/grpc/server.go:181-187` | removal is the list without the slot of the channel |
| `StreamRegistry.WithoutOk` | `pkg/grpc/server.go:181-187` | it removes that channel, no other, and makes no duplicate |
| `StreamRegistry.RegisterKeepsInv` | `pkg/grpc/server.go:160-173` | lists stay duplicate-free lists of open channels of their own key, and tracked connections stay listed streams of their token |
| `StreamRegistry.UnlistKeepsInv` | `pkg/grpc/server.go:180-192` | the same for the cleanup, after which the channel is in no list |
| `StreamRegistry.EvictKeepsInv` | `pkg/grpc/server.go:162-165` | the same for evicting, and for deleting the tracked connection |
| `StreamRegistry.BroadcastKeepsInv` | `pkg/grpc/server.go:252-268` | a broadcast as one step touches no closed channel and changes queues only |
| `StreamRegistry.Server.Open` | `pkg/grpc/server.go:160-173` | the object registers a stream as specified: evict, append, track |
| `StreamRegistry.Server.CloseTracked` | `pkg/grpc/server.go:162-165` | cancels the tracked connection of a token, if any |
| `StreamRegistry.Server.Cleanup` | `pkg/grpc/server.go:180-192` | removes the channel from its list and, only if it is still the tracked one, the connection of its token |
| `StreamRegistry.Server.BroadcastEvent` | `pkg/grpc/server.go:252-268` | appends the event to every listed queue of the key that is not full, and to no other |
| `StreamRegistry.Server.Disconnect` | `pkg/grpc/server.go:369-403` | as one step: reports whether a connection was tracked, cancels it, forgets it |
| `StreamMachine.RegistryIsSafe` | `pkg/grpc/server.go:160-194` | in every interleaving a channel is listed once, under its key, from registration to cleanup and nowhere afterwards; it is closed only once unlisted; a tracked connection is the newest handler of its token and not cleaned up |
| `StreamMachine.DeleteKeepsTrackedIff` | `pkg/grpc/server.go:400-403` | a delete by token loses a live stream exactly if the token names an uncancelled stream by then |
| `StreamMachine.OneLiveStream` | `pkg/grpc/server.go:160-191` | at most one registered, uncancelled stream per token in every reachable state, if each disconnect deletes what it read or nothing |
| `StreamMachine.StepKeepsOneLiveIff` | `pkg/grpc/server.go:160-191` | only a registration can make a second live stream of a token, and does so exactly if some live stream of the token is not tracked |
| `StreamMachine.OneLiveRunIff` | `pkg/grpc/server.go:160-403` | all states of a run have at most one live stream per token exactly if no stream registers while a live one of its token is not tracked |
| `StreamMachine.TrackedIff` | `pkg/grpc/server.go:160-191` | all live streams are tracked exactly if no registration could make a second one |
| `StreamMachine.EvictedCleanupSparesSuccessor` | `pkg/grpc/server.go:189-191` | the cleanup of a stream that has a successor removes no tracked connection |
| `StreamMachine.SupersededForGood` | `pkg/grpc/server.go:160-173` | a stream that has a successor never becomes the newest again |
| `StreamMachine.UnguardedDeleteRun` | `pkg/grpc/server.go:369-403` | a run in which a disconnect forgets the successor and two live streams share a token |
| `StreamLives.HandlerCanEnd` | `pkg/grpc/server.go:176-200` | wherever it stands, a handler can leave, unlist itself, close its channel and cancel its context, one after the other, and is then in no list, closed and cancelled |
| `StreamLives.DisconnectInOrder` | `pkg/grpc/server.go:369-403` | over every run a disconnect begins only where a connection is tracked, cancels once what it read, and deletes once, after that |
| `BroadcastRace.ShiftInPlace` | `pkg/grpc/server.go:184` | removing slot p shifts the later slots down in the same array and leaves the last slot as it was |
| `BroadcastRace.OnceEachIff` | `pkg/grpc/server.go:255-265` | with one cleanup, after `loaded` slots have been loaded, every remaining subscriber gets the event once exactly if the removed slot was the last or at most one slot was left to load |
| `BroadcastRace.ReachesRemovedIff` | `pkg/grpc/server.go:180-265` | a send after the cleanup goes to the removed channel, which is closed then, exactly if its slot was loaded and not yet sent to, or was the last and not yet loaded |
| `BroadcastRace.MissedAndDoubled` | `pkg/grpc/server.go:255-265` | three subscribers: one misses the event and one gets it twice |
| `BroadcastRace.RemovedIsReached` | `pkg/grpc/server.go:180-265` | two subscribers, either of them removed: a send to it is still to come |
| `BroadcastWalk.WalkDelivers` | `pkg/grpc/server.go:167-265` | whatever cleanups and registrations fall between any loads and sends, a channel gets the event as often as it was subscribed when the walk began, plus the balance of what each of them changed ahead of the walk |
| `BroadcastWalk.SendsToCome` | `pkg/grpc/server.go:180-265` | from any moment on, the sends to a channel still to come are the one in hand, its copies ahead, and that balance |
| `BroadcastWalk.MovesIff` | `pkg/grpc/server.go:167` | a registration moves the list to a new array exactly if the old one is full |
| `BroadcastWalk.OutOfReach` | `pkg/grpc/server.go:167` | from then on the walk sees nothing of what happens to the list |
| `BroadcastWalk.RegistrationsAreHarmless` | `pkg/grpc/server.go:160-265` | without a cleanup during the walk, exactly the channels subscribed at its beginning get the event, once each |
| `BroadcastWalk.NewcomerInstead` | `pkg/grpc/server.go:160-265` | one cleanup and one registration: the newcomer gets the event, a subscriber misses it |
| `StreamDelivery.RunKeepsHistory` | `pkg/grpc/server.go:157-268` | in every recorded run, for every stream: what was dequeued followed by its queue is what was accepted of the events of its key between registration and cleanup |
| `StreamDelivery.Delivery` | `pkg/grpc/server.go:226-268` | that is an order-preserving, duplicate-free subsequence, no queue exceeds 100, and an event is missing only if the queue held exactly 100 |
| `StreamDelivery.TraceDelivered` | `pkg/grpc/server.go:252-268` | from what is known of one stream, its subsequence and the reason for every gap |
| `StreamDelivery.QueueFills` | `pkg/grpc/server.go:157-265` | a subscriber with an empty queue that dequeues nothing accepts exactly the first hundred of any events broadcast to its key |
| `StreamDelivery.QueueDrains` | `pkg/grpc/server.go:226-243` | a serving handler can dequeue its queue event by event, in order, until it is empty |
| `StreamKeys.KeysMatchIff` | `pkg/grpc/server.go:151-253` | slash-free addresses and names get one key exactly if chain ids are equal and address and name are equal up to case |
| `StreamKeys.OwnKeyIff` | `pkg/grpc/server.go:151-253` | a subscription shares its key with no other exactly if neither address nor name contains a slash |
| `StreamKeys.SharedKey` | `pkg/grpc/server.go:151-253` | name `c` of address `a/b` and name `b/c` of address `a` share a key |
| `EventStore.Client.ProcessEventLog` | `pkg/ethereum/client.go:94-174` | look up, publish, insert, in that order and with every early return; a header is asked for only if the cache of the query does not have it |
| `EventStore.Client.FilterLogs` | `pkg/ethereum/client.go:81-91` | one failing log does not stop the others; no header is asked for again once it has been found |
| `EventStore.Client.HasRow` | `pkg/ethereum/client.go:107-118` | finds a row exactly if one has contract, block, transaction and index of the log |
| `EventStore.UniqueIff` | `pkg/ethereum/client.go:107-172` | a call makes a second row exactly if the lookup fails, the row is there and the insertion succeeds |
| `InsertRace.SecondRowIff` | `pkg/ethereum/client.go:106-169` | with lookups and insertions of any number of goroutines interleaved, an insertion meets a row of its key exactly if its lookup failed over one or another goroutine has inserted one since |
| `InsertRace.RunUniqueIff` | `pkg/ethereum/client.go:106-169` | over a whole run the table keeps one row per log exactly if that happens to no insertion |
| `InsertRace.ApartIsUnique` | `pkg/ethereum/client.go:106-169` | so it does if no lookup fails and no two goroutines are at the same log at a time |
| `InsertRace.TwoRowsRun` | `pkg/ethereum/client.go:106-169` | two goroutines, no failure, two rows of one log |
| `EventStore.RepublishedIff` | `pkg/ethereum/client.go:130-172` | a new log is published again by the next fetch exactly if its insertion failed |
| `EventStore.PublishedTwice` | `pkg/ethereum/client.go:130-172` | a log whose insertion fails, published by two fetches |
| `EventStore.IngestIsProcessAll` | `pkg/ethereum/client.go:81-91` | ingesting without faults is the loop with every lookup and insertion succeeding |
| `EventStore.IngestAdds` | `pkg/ethereum/client.go:81-172` | without faults a query appends one row per added log, in order, and publishes those that decode |
| `EventStore.AddedMeaning` | `pkg/ethereum/client.go:107-118` | the added logs are new, distinct, and all the new ones |
| `EventStore.RerunChangesNothing` | `pkg/ethereum/client.go:107-118` | fetching what is stored inserts and publishes nothing |
| `EventStore.StoreIsTheUnion` | `pkg/ethereum/client.go:81-172` | any sequence of overlapping windows leaves a table with unique keys its old rows and adds exactly one row for each log of their union that had none |
| `EventStore.StoredIff` | `pkg/ethereum/client.go:81-172` | afterwards a log of the chain has a row exactly if it had one or lies in the union |
| `EventStore.IngestionIsConfluent` | `pkg/ethereum/client.go:81-172` | histories with the same union turn the same table into the same, up to order |
| `EventStore.RefetchChangesNothing` | `pkg/ethereum/client.go:81-172` | a window inside the union of the past changes nothing, whatever the table was at first |
| `EventStore.WindowsAreOneQuery` | `pkg/ethereum/client.go:81-91` | successive queries amount to one query for the concatenated logs |
| `Backfill.EventListener.Backfill` | `internal/listener/listener.go:55-107` | without a head nothing happens; otherwise it succeeds exactly if every chunk goes through: then all windows were fetched, exactly their logs sent, and the status entry is gone; if not, it stopped at the first chunk that did not, the entry is the end of what was completely sent, and beyond that nothing was fetched or sent if the query failed or the context was cancelled before it, and otherwise that window was fetched and as many of its logs sent as were before the cancellation |
| `Backfill.EventListener.Chunk` | `internal/listener/listener.go:72-96` | a chunk is fetched and sent whole; or nothing of it is fetched or sent, if its query fails or the context is cancelled before it; or it is fetched and exactly the logs before the cancellation are sent |
| `Backfill.WindowsClosedForm` | `internal/listener/listener.go:65-98` | ceil((end - start)/2001) windows, the k-th known outright: ascending, contiguous, at most 2001 blocks |
| `Backfill.CoverageIff` | `internal/listener/listener.go:71-98` | the union is [start, end], without the last block exactly if (end - start) mod 2001 = 0 |
| `Backfill.HeadMissed` | `internal/listener/listener.go:71-98` | from block 0 with the head at 2001, block 2001 is never asked for |
| `Backfill.DoneCovers` | `internal/listener/listener.go:71-100` | at every round the windows done cover exactly the blocks from the start up to the position published |
| `Handoff.RunIsOk` | `internal/worker/worker.go:133-223` | in every interleaving: the loop stands where its status entry says; what was sent is what was fetched, in order, and equals what was taken plus what is in the channel; the channel is closed exactly after normal completion; the backfilling flag is down exactly after the producer has ended or the consumer has seen the cancellation |
| `Handoff.NeverSendsOnClosed` | `internal/listener/listener.go:51-95` | no send on, and no second close of, a closed channel, under every choice of every select |
| `Handoff.NeverStuck` | `internal/worker/worker.go:150-223` | until both sides have ended, a step of one of them is possible that needs neither a failure nor a cancellation |
| `Handoff.EveryRunEnds` | `internal/worker/worker.go:150-223` | every run, with whatever failures and cancellations, is at most as long as a number fixed at its start, and ends with both sides ended |
| `Handoff.StatusIsTrue` | `internal/listener/listener.go:69-117` | whenever the entry holds c, every block of [start, c) has been fetched and its logs sent; the entry is absent exactly after the loop completed |
| `Handoff.StatusGrows` | `internal/listener/listener.go:69-117` | during the run the entry never goes back |
| `HandoffChoices.SignalsIff` | `internal/listener/listener.go:51-95` | over every run the two channels are closed and the context is cancelled exactly if the step that does it has happened |
| `HandoffChoices.ConsumerChoices` | `internal/worker/worker.go:157-180` | in its select the consumer can take a log exactly if one sent was not taken; it can stop on the closed channel exactly if all were taken and the channel was closed, on the done channel exactly if that was, and for a cancellation exactly if there was one |
| `HandoffChoices.ChunkChoices` | `internal/listener/listener.go:71-107` | between chunks the listener goes on, gives up or completes, according to whether windows are left and the context was cancelled |
| `HandoffChoices.SendChoices` | `internal/listener/listener.go:88-95` | it can send exactly if a fetched log is left and fewer than a hundred are waiting, give up exactly if one is left and the context was cancelled, and go on exactly if none is left |
| `HandoffChoices.FailuresCanHappen` | `internal/listener/listener.go:55-86` | wherever a head or a query is asked for it may fail, and a cancellation may come once at any time |
| `HandoffChoices.RecordsAreSteps` | `internal/listener/listener.go:83-98` | every log sent or taken and every window fetched or passed is one step of its kind, and what was sent is always the beginning of what was fetched, however the listener ended |
| `HandoffStore.TableIsTheQueries` | `internal/worker/worker.go:181-222` | while nothing fails, the table is what the queries alone made of it: the consumer finds every log that reaches it |
| `HandoffStore.ReachOfHead` | `internal/listener/listener.go:63-107` | the blocks a completed backfill reaches are those from start to head, the head excepted at multiples of 2001, as long as the head is below 2^63, and none from there on |
| `HandoffStore.BackfillIsExact` | `internal/worker/worker.go:150-222` | a completed backfill leaves a table with unique keys its old rows and adds exactly one row for every log from start to head that had none, the head block excepted as in `CoverageIff`, however many events the consumer abandons |
| `HandoffStore.RowIff` | `internal/worker/worker.go:193-218` | in every run the contract has a row for a log exactly if it had one before or some insertion for the log, by a query or by the consumer, went through |
| `HandoffStore.LossIff` | `internal/worker/worker.go:150-222` | once the consumer has stopped, a log that was sent is without a row of its contract exactly if it had none before, every insertion of the queries for it failed and every insertion the consumer tried failed; and then it was abandoned in the channel, or such a try failed, or at its lookup another contract had a row of the same block, transaction and index |
| `HandoffStore.StoredIffBufferStored` | `internal/worker/worker.go:150-222` | if the consumer never fails so, all logs sent have their rows exactly if all logs left in the channel have |
| `HandoffStore.QueriesSuffice` | `pkg/ethereum/client.go:81-89` | if the insertions of the queries go through, every log sent has its row, whatever else is cancelled or fails |
| `HandoffStore.LostLogRun` | `internal/worker/worker.go:157-180` | a run in which a log whose insertion failed is abandoned in the channel and lost, although the backfill completes |
| `HandoffStore.LookupFinds` | `internal/worker/worker.go:193-203` | as long as nothing has failed, the contract has a row for every log the consumer looks up, and the consumer skips it |
| `HandoffStore.LookupSkipsIff` | `internal/worker/worker.go:193-218` | the consumer skips a log exactly if its lookup succeeds and some contract has a row with the block, transaction and index of the log; otherwise it goes on to insert it |
| `Polling.Monitor.Begin` | `internal/monitor/monitor.go:215-220` | a new monitor sets the cursor of its chain only if there is none |
| `Polling.Monitor.Poll` | `internal/monitor/monitor.go:253-298` | fetches the batches above the cursor in order, skipping failed ones, and moves the cursor to the end of the last that succeeded; other chains keep theirs |
| `Polling.Monitor.FetchBatches` | `internal/monitor/monitor.go:262-298` | the batch loop of one poll, in 64-bit arithmetic, fetches the batches of the specification and stores the end of each that succeeds |
| `Polling.BatchAt` | `internal/monitor/monitor.go:262-267` | the k-th batch outright: five blocks from from + 5k, cut at the head |
| `Polling.LoopStopsIff` | `internal/monitor/monitor.go:263` | the loop ends after its last batch exactly if the block after it fits into 64 bits; otherwise it goes on with one of the first five blocks |
| `Polling.WrapsAround` | `internal/monitor/monitor.go:263` | from block 2^64 - 2 the loop goes on at block 3 |
| `Polling.HeadsBelowTopAreSafe` | `internal/monitor/monitor.go:263` | heads up to 2^64 - 6 never wrap |
| `Polling.QueriesAreTrueIff` | `internal/monitor/monitor.go:276-277` | the signed bounds of all queries mean the same blocks exactly if the head is below 2^63 |
| `Polling.HeadTooHigh` | `internal/monitor/monitor.go:276-277` | at head 2^63 the query asks for block -2^63 |
| `Polling.PollsTile` | `internal/monitor/monitor.go:247-298` | for any heads at which the loop does not wrap (up to 2^64 - 6), the windows of a whole run without failures are consecutive, at most five blocks, and tile exactly the blocks after the initial one up to the cursor, which is the highest head seen |
| `Polling.TilesOnce` | `internal/monitor/monitor.go:263-298` | in a tiling every block lies in exactly one window |
| `Polling.FetchedAllIff` | `internal/monitor/monitor.go:281-294` | with failures, everything up to the cursor has been fetched exactly if in no poll a batch failed before one that succeeded |
| `Polling.FirstBatchFails` | `internal/monitor/monitor.go:281-294` | block 1 fails, blocks 6 and 7 succeed: block 1 is never asked for again |
| `Polling.SeesEverythingIff` | `internal/monitor/monitor.go:254-292` | with whole polls as turns, a contract has seen all blocks up to the shared cursor exactly if no other contract of the chain ever moved it |
| `Polling.ComesTooLate` | `internal/monitor/monitor.go:254-292` | the second of two contracts that see the same head misses its blocks |
| `PollingMachine.NoBlockIsLost` | `internal/monitor/monitor.go:247-298` | however many contracts interleave, as long as none records a batch after a failed one of the same poll, every block up to the shared cursor has been fetched by at least one of them |
| `PollingMachine.HeadsThatFitIff` | `internal/monitor/monitor.go:263` | the heads of the machine are exactly those at which no loop, wherever it begins, wraps around |
| `PollCoverage.BlockSeenIff` | `internal/monitor/monitor.go:247-298` | in every interleaving, between two polls of a contract, it has seen a block exactly if one of its polls read a cursor below the block, saw a head not below it, and the query of its batch succeeded |
| `PollCoverage.SeesAllByPollsIff` | `internal/monitor/monitor.go:247-298` | it has seen every block up to the cursor exactly if the block above the initial one, those above the heads its polls saw, and the first ones of its failed batches have been seen, as far as they are not above the cursor |
| `PollCoverage.SeenBySomeoneIff` | `internal/monitor/monitor.go:247-298` | while nobody polls, some contract has seen a block exactly if it lies in a successful batch of some poll |
| `PollCoverage.LockstepRun` | `internal/monitor/monitor.go:247-298` | two contracts overwrite the cursor under each other and both have seen every block |
| `PollingMachine.SeesAllIff` | `internal/monitor/monitor.go:247-298` | if no contract writes the cursor between an access and the next write of another, a contract has seen every block up to the cursor exactly if all writes were its own and each recorded a batch right above the cursor |
| `PollingMachine.CursorGoesBackIff` | `internal/monitor/monitor.go:253-294` | a write makes the cursor go back exactly if another contract has written it since the writing one last read or wrote it, and the last such write was above its own |
| `PollingMachine.CursorGrows` | `internal/monitor/monitor.go:253-294` | without such interference the cursor never goes back in a run |
| `PollingMachine.CursorGoesBackRun` | `internal/monitor/monitor.go:253-294` | two contracts starting from one cursor can move it back |
| `RateLimit.Limiter.Begin` | `internal/api/rate_limit.go:121-150` | 401, 500, 429 or admission, and which when; an admission reports what is left |
| `RateLimit.Limiter.End` | `internal/api/rate_limit.go:162-174` | exactly a success increments the counter as it is by then and refreshes its expiry, if the pipeline works; the header is lowered by a success either way; nothing else changes |
| `RateLimit.StatusResponseWriter.WriteHeader` | `internal/api/rate_limit.go:104-107` | records the code and passes it on |
| `RateLimit.StatusResponseWriter.Write` | `internal/api/rate_limit.go:109-114` | a body without a code records 200 |
| `RateLimit.RecordedIsSentIff` | `internal/api/rate_limit.go:104-114` | a handler that sets its status at most once, and first, is judged by what the client gets, exactly if it did anything and the status is not informational |
| `RateLimit.FirstFinalHeader` | `internal/api/rate_limit.go:104-107` | of two headers the client gets the second exactly if the first is informational: 100 or 102 to 199 |
| `RateLimit.UncountedIff` | `internal/api/rate_limit.go:104-162` | a success goes uncounted exactly if the handler wrote nothing, or its first call that decides is a body or a success header and its last header is no success |
| `RateLimit.UncountedSuccesses` | `internal/api/rate_limit.go:104-162` | an empty, an overridden and an early-hints response |
| `RateLimit.StepKeepsOk` | `internal/api/rate_limit.go:130-173` | every step keeps: count plus requests in service stays below limit + K, and older successes are a full window away |
| `RateLimit.BoundedSuccesses` | `internal/api/rate_limit.go:130-173` | in every run every half-open interval of one window holds at most limit + K - 1 counted successes |
| `RateLimit.SequentialLimit` | `internal/api/rate_limit.go:130-173` | with one request at a time it is the limit |
| `RateLimit.BudgetReturns` | `internal/api/rate_limit.go:130-173` | however full the counter, once its window has passed without another success the next request is admitted |
| `RateLimit.FailuresAreFree` | `internal/api/rate_limit.go:130-173` | a request that is no success leaves everything as it was |
| `RateLimit.BoundIsReached` | `internal/api/rate_limit.go:130-173` | for every limit and every K there is a run that reaches limit + K - 1 |
| `EventSignature.ParseEventSignature` | `pkg/ethereum/utils.go:38-85` | the parser, with its loop over the parameter list, hashes exactly the canonical text, or rejects |
| `EventSignature.CutParams` | `pkg/ethereum/utils.go:59-76` | the in-place loop cuts every parameter at `indexed`; its branches for spaces are never taken |
| `EventSignature.SpacesDoNotMatter` | `pkg/ethereum/utils.go:41` | the result depends only on the text without spaces |
| `EventSignature.CanonicalIsIdempotent` | `pkg/ethereum/utils.go:41-81` | the canonical text is its own canonical text |
| `EventSignature.CanonicalOf` | `pkg/ethereum/utils.go:49-78` | of an assembled text, every parameter is cut on its own and the name is kept |
| `EventSignature.RecognisedIff` | `pkg/ethereum/utils.go:59-76` | a declared parameter is cut to its type exactly if it is marked, unnamed, or has a name starting with the mark |
| `EventSignature.DeclarationIff` | `pkg/ethereum/utils.go:41-81` | a whole declaration becomes name(type,...) exactly if that holds for each of its parameters |
| `EventSignature.NameStaysGlued` | `pkg/ethereum/utils.go:41-81` | `T(a b)` does not become `T(a)` |
| `EventSignature.NameOfCanonical` | `pkg/ethereum/utils.go:87-94` | the display name is found exactly for valid texts that have a name and do not end in a space, and is the name of the canonical text up to spaces |
| `Text.SplitJoinIff` | `pkg/ethereum/utils.go:59-78` | splitting takes a joined list apart again exactly if no part contains the separator |
| `Text.JoinSplit` | `pkg/ethereum/utils.go:59-78` | joining the parts of a split gives the text back |
| `Text.CutMeaning` | `pkg/ethereum/utils.go:62-69` | cutting keeps the text before the first occurrence of the word, which does not contain it |
| `Numerals.ParseUint` | `helper/hex/hex.go:56-61` | the digit loop with its two overflow tests computes the specified parse |
| `Numerals.ParseMeaning` | `helper/hex/hex.go:60` | parsing succeeds exactly on non-empty digit strings whose value fits into 64 bits, and yields that value |
| `Numerals.ParseFormat` | `helper/hex/hex.go:48-61` | parsing a print gives the number back, in every base up to 16 |
| `HexCodec.DecodeEncode` | `helper/hex/hex.go:16-35` | decoding the encoding of any bytes gives them back |
| `HexCodec.EncodeDecode` | `helper/hex/hex.go:16-35` | encoding what was decoded gives the part that was read, in lower case |
| `HexCodec.DecodeMeaning` | `helper/hex/hex.go:26-35` | decoding reads the longest run of digit pairs and succeeds exactly if nothing is left |
| `HexCodec.CaseDoesNotMatter` | `helper/hex/hex.go:26-35` | texts with the same digits in any case decode alike |
| `HexCodec.HexRoundTrip` | `types/encoding.go:56-76` | byte strings survive with the prefix and without |
| `HexCodec.Uint64RoundTrip` | `types/encoding.go:12-70` | every 64-bit value survives its hex print, through either parser, and its decimal print |
| `HexCodec.ParseUint64orHex` | `types/encoding.go:12-26` | missing means zero, prefixed means hex, otherwise decimal |
| `HexCodec.Uint64Meaning` | `types/encoding.go:12-26` | a text is accepted exactly if it denotes a 64-bit number in the base its prefix says, and is read as that number |
| `EthTypes.BytesToFixed` | `types/types.go:49-58` | copying into a fixed array pads with zeros or cuts on the left |
| `EthTypes.PadLeftOrTrim` | `helper/common/common.go:166-180` | computes the same padding or cut as the conversion to a hash or an address |
| `EthTypes.FitValue` | `types/types.go:157-166` | as a big-endian number the result is the original modulo 256^size |
| `EthTypes.HashTextRoundTrip` | `types/types.go:64-200` | the text of every hash is read back |
| `EthTypes.ChecksumEncode` | `types/types.go:90-111` | the text has the digits of the address, with a letter in upper case exactly if the four bits of the hash at its position are at least 8 |
| `EthTypes.ChecksumUnique` | `types/types.go:90-111` | that determines the text |
| `EthTypes.AddressTextRoundTrip` | `types/types.go:117-204` | whatever the 32-byte hash function, the checksummed text is read back as the address |
| `EthTypes.AcceptedIff` | `types/types.go:168-196` | a text is taken for an address exactly if, after the prefix, it starts with forty hex digits, or thirty-nine if its length is odd, and does not go on with another two; the address is the number these digits denote |
| `EthTypes.AcceptedMeans` | `types/types.go:168-196` | printed again, the address is these digits in lower case, with the missing one a zero in front |
| `EthTypes.DigitsAreRead` | `types/types.go:168-178` | a text of hex digits, odd or even in number, is read as the number it denotes, in half as many bytes, rounded up |
| `EthTypes.HashOfDigits` | `types/types.go:168-185` | so a hash read from digits is their number modulo 2^256 |
| `EthTypes.GarbageIsTaken` | `types/types.go:168-196` | an address followed by `zz` is taken for that address |
| `EthTypes.Address.UnmarshalText` | `types/types.go:187-196` | exactly for the texts that start with the digits of an address the receiver gets the number they denote; otherwise it is left alone |
| `EthTypes.Address.Scan` | `types/types.go:129-143` | the receiver gets the decoded bytes over its front, or is left alone on an error |
| `EthTypes.Address.MarshalText` | `types/types.go:202-204` | the checksummed text of the receiver |
| `EthTypes.ScanForgetsIff` | `types/types.go:129-143` | the previous value cannot be seen after a scan exactly if the scanned value is long enough |
| `EthTypes.ShortScan` | `types/types.go:129-143` | a one-byte value leaves the other nineteen bytes as they were |
| `EthTypes.ScanRoundTrip` | `types/types.go:125-143` | scanning the stored form restores the address over any previous value |
| `Float64.RoundsToNearestIff` | `helper/common/common.go:63-65` | the magnitude is rounded to a nearest integer, away from zero half-way, exactly for all doubles but the neighbours of 1/2 and -1/2 towards zero and the odd integers from 2^52 to 2^53 |
| `Float64.RoundedIsNearest` | `helper/common/common.go:63-65` | the rounded sum is a nearest number of 53 bits |
| `Float64.IntegerIsKeptIff` | `helper/common/common.go:63-65` | an integer double is rounded to itself exactly if it is not odd with a magnitude from 2^52 to 2^53 |
| `Float64.RoundsToZeroIff` | `helper/common/common.go:63-65` | a magnitude is rounded to zero exactly if it is below 1/2 - 2^-54 |
| `JsonNumber.JSONNumber.MarshalJSON` | `helper/common/common.go:126-128` | the result is quoted, what is in the quotes denotes the value, and a reader gets the value back or, from 2^63 on, an error |
| `JsonNumber.JSONNumber.UnmarshalJSON` | `helper/common/common.go:130-148` | exactly for text that denotes a number below 2^63 and for acceptable numbers the receiver gets that number, always below 2^63; for any other value -- true, null, a list, an object, malformed input -- it is left alone |
| `JsonNumber.ReadIff` | `helper/common/common.go:47-148` | which of all JSON values are read, and as what number |
| `JsonNumber.TextIsReadIff` | `helper/common/common.go:47-148` | a text is accepted exactly if it denotes a number below 2^63, and is read as that number |
| `JsonNumber.JsonRoundTrip` | `helper/common/common.go:126-148` | reading a print returns the value if it is below 2^63 and fails otherwise |
| `JsonNumber.NumberIsReadIff` | `helper/common/common.go:47-148` | a double that rounds into the 64-bit range is accepted exactly if it has no minus sign or is above -(1/2 - 2^-54), and read as its rounded magnitude; any other exactly if the platform converts it to a non-negative number |
| `JsonNumber.IntegerIsReadIff` | `helper/common/common.go:47-148` | a non-negative integer double in range is read as itself exactly if it is not odd from 2^52 to 2^53 |
| `JsonNumber.NextIntegerIsRead` | `helper/common/common.go:47-148` | 2^52 + 1 is read as 2^52 + 2 |
| `JsonNumber.HalvesAreRead` | `helper/common/common.go:47-148` | the doubles next to 1/2 and -1/2: one is read as 1, one is rejected; -1/4 is read as 0 |

## Left out

- Redis, Postgres through Prisma, asynq, Ethereum RPC and the gRPC and HTTP transports: they appear as maps, rows, free choices and bounded queues.
- JWT handling, the token blacklist, shared-secret and CORS middleware, signature verification, the keystore: a token is an input.
- Keccak: the hash function is a parameter.
- ABI unpacking and the JSON rendering of decoded events: decoding is a function of the log, together with whether it succeeds.
- `GetEvents`, `GetContracts`, configuration, commands, logging: easy members only.
- WebSocket branches of `activeConnection.Close` and of the disconnect: nothing sets the WebSocket connection, so only the cancellation is modelled.
- The byte counter per token and the receipt that a stream schedules when it ends uncleanly: the scheduler and the stream machine are not connected.
- The fields that the disconnect writes to Redis after it is done.
- Stale timer values: arming the timer replaces whatever it held, as Stop, drain and Reset do.
- The overflow test on slot numbers in `container/heap`: heaps of that size do not exist.
- `queryCounterMiddleware` and the request-counting `rateLimitMiddleware`: easy members.
- Counters of several addresses in the rate-limit machine: keys are independent, so the machine has one; the object has all.
- Panics of net/http on status codes outside 100 to 999; informational headers reach the client but do not count as its status.
- The narrowing of block numbers and log indices to 32-bit database columns: rows hold Go's `int`.
- Reorganisations: the logs of a chain do not change during a run, and `Consistent` says that a key belongs to one log.
- Two backfill tasks of one contract that both pass the check for a running backfill: the handoff has one task. Its entry in the status map is modelled alone, with whatever an earlier task left there.
- The queue of the event producer, on which publishing blocks when 100 events are waiting: the publisher takes events at once, so `NeverStuck` and `EveryRunEnds` suppose that it is served.
- `RegisterContract` and `checkForNewContracts`, which may start two goroutines for one contract: `PollingMachine` has one loop per name; two loops of one contract are two names.
- Case folding beyond single characters: lower-casing of keys is any character function that neither makes nor removes a slash and leaves digits alone.
- The value of a float outside the 64-bit range: Go leaves its conversion to the platform, so it is a parameter. How the JSON library rounds a decimal text to a double: the double is an input.
- Big integers in `types/encoding.go` and `helper/hex/hex.go`, `RoundFloat` with a precision, `HexToAddress` and `HexToHash`: easy members or library code.
- OneLiveStream: needs the disconnect's read and delete not to be separated by a registration on the token; `OneLiveRunIff` is the exact condition for a run.
- BroadcastKeepsInv: a broadcast is one step here, and so it is in `BroadcastEvent`; `BroadcastRace` has the sends outside the lock.
- BroadcastEvent: the sends are part of the step, see `BroadcastKeepsInv`.
- Disconnect: read, cancellation and deletion are one step of the object; `StreamMachine` has them as three.
- OnceEachIff: one cleanup and no registration during the walk; `BroadcastWalk` has any number of both.
- ReachesRemovedIff: one cleanup and no registration during the walk; `SendsToCome` has any number of both.
- WalkDelivers: a send to a closed channel panics and ends the walk; the machine goes on after it.
- UniqueIff: lookup and insertion are one step; `RunUniqueIff` has them apart.
- RunUniqueIff: publishing, which comes between lookup and insertion, is left out of `InsertRace`; a log inserted twice is published twice.
- BackfillIsExact: for runs without cancellation and failing lookups, insertions, queries and headers; `RowIff`, `LossIff` and `QueriesSuffice` are about all other runs.
- Poll: for polls whose loop variable does not wrap around; `LoopStopsIff` says exactly when that is and where the loop goes otherwise.
- PopsAreOrdered: needs that no Schedule goes below the last departure; `LosesOrderIff` and `ScheduleKeepsFloorIff` are the exact conditions.
- NoReuseRefines: for runs that schedule no token over its tombstone; `RunRefinesIff` is the exact condition for all runs.
- PollsTile: needs successful queries, no second contract and heads at which the loop does not wrap; `FetchedAllIff`, `SeesEverythingIff`, `BlockSeenIff`, `SeenBySomeoneIff` and `LoopStopsIff` say what holds otherwise.
- SeesEverythingIff: takes a whole poll as one turn and supposes successful queries; `BlockSeenIff` and `SeesAllByPollsIff` do neither.
- SeesAllIff: for runs in which no contract writes the cursor between an access and the next write of another; `SeesAllByPollsIff` is for all runs.
- CursorGrows: for the same runs; `CursorGoesBackIff` is for all.
- NoBlockIsLost: needs that no contract records a batch after a failed one of the same poll; `SeenBySomeoneIff` is for all runs.
- BlockSeenIff: for heads up to 2^64 - 6, at which no loop wraps around; so is everything about `PollingMachine`.
- BoundedSuccesses: INCR and EXPIRE are one step, and a key may outlive its expiry but not disappear before it.
