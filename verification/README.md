# Verified protocols of rust-rdkafka

rust-rdkafka wraps librdkafka, and on top of it adds protocols of its own: streams that share a queue and a
slab of wakers, producers that hand boxed senders to native code and get them back in delivery reports, a
poll loop with a time budget, a polling thread that has to be stopped and joined. This project models those
protocols in Dafny and proves what they are for, in every run and every interleaving.

librdkafka itself appears only through stated contracts: a queue calls back once when it turns from empty to
non-empty; a produced message is reported exactly once; native's message count falls when a report event is
destroyed, and a flush succeeds exactly when that count is zero; a native poll blocks no longer than the
milliseconds it is given; a list's `add` appends and its `find` returns the first match; a disabled callback
has stopped running.

## How it is laid out

Concurrency is a transition system per protocol: `Enabled` and `Apply` give the atomic steps, `ValidRun` and
`Exec` the runs, and the main lemmas speak of every run or every reachable state. Where the source works by
changing state, there is a class or a method with a loop as well, proved to be a run of the same steps with
anything that other threads do in between.

| file | what it holds |
|---|---|
| `Wrappers.dfy`, `Counting.dfy` | `Option`; facts about the sizes of sets |
| `Timeouts.dfy`, `ClientEvents.dfy` | timeouts and their 32-bit form; what each native event means |
| `PollEngine.dfy` | the consumer's poll loop: meaning, conservation, time |
| `StreamWakeup.dfy`, `MessageStreams.dfy` | the wakeup protocol of message streams, and its methods |
| `StreamTiming.dfy` | the same protocol with a clock, against `max.poll.interval.ms` |
| `CallbackTarget.dfy` | who keeps a waker slab alive while native may call into it |
| `ProducerDelivery.dfy` | delivery reports and opaque ownership |
| `ProducerRuns.dfy`, `BaseProducer.dfy` | poll and flush as functions, and their laws; send, poll, flush, commit, drop |
| `FutureProducer.dfy` | the queue-full retry loop and the awaited result |
| `ThreadedProducer.dfy` | clone, stop, join and drop of the threaded producer |
| `FutureLifecycle.dfy` | awaited sends over both: delivery and the producer's life |
| `AtLeastOnce.dfy` | the at-least-once example as runs with crashes |
| `OffsetCodec.dfy`, `TopicPartitionList.dfy` | the offset encoding; the list that should behave like a map |
| `AdminClient.dfy` | admin requests, responses and shutdown |

## Where the code and its documentation part company

- `BaseConsumer::poll` says that it does not block for more than the timeout (src/consumer/base_consumer.rs:123-124).
  It can: a skipped event sends the loop round with a budget that is not refreshed. `NeverOverrunsIff` says exactly
  when it cannot, whatever is on the queue: when the smaller of timeout and interval comes to 0 ms for native.
  `PollTimeBound` and `PollTimeBySkips` give the allowance otherwise, one `min(timeout, interval)` for each skipped
  event, and `StaleBudgetOverruns` shows that it is reached for any number of them.
- The at-least-once example says that messages are not lost (examples/at_least_once.rs:1-4). It sets no
  `auto.offset.reset`; with a reset to the latest offset, a crash before the first commit can lose a received
  message (`LatestLosesBeforeFirstCommit`). `NeverLosesIff` says exactly which pipelines lose nothing: those that
  store by hand, in order, and reset to the earliest offset. Whatever the reset, `NothingCommittedIsLost` holds from
  where the group began.
- `TopicPartitionList`'s `==` is neither reflexive nor symmetric on lists with repeated keys
  (`EqFailsOnDuplicates`); `ReflexiveIff` and `SymmetricIff` say exactly when it is.
- `Offset::to_raw` overflows for tails above `i64::MAX - 1999`, where a release build yields an absolute offset;
  `OffsetRoundTrip`, `SameRawIff` and `MapRoundTripIff` say exactly when a value comes back.
- `commit_transaction` flushes first, but another thread may send between the flush and the native commit, so the
  commit does not always go out in a drained state: `CommitWithLateSends` makes one that leaves any number of records
  outstanding, and `CommitDrainedIff` says that it is sure to be drained exactly when nothing is accepted in between.
- `TopicPartitionList`'s two builders, adding by key and collecting from an iterator, give different lists when a key
  repeats, unless all its entries have the offset Invalid (`BuildersAgreeIff`).
- Splitting a partition again, as the documentation asks for after every `assign`
  (src/consumer/stream_consumer.rs:347-349), and then dropping the earlier split disables the callback of the later
  one (`SecondSplitSilenced`), whose streams are then not woken. `CallbackRegisteredIff` says exactly how long a split
  has its callback.
- The admin thread is meant to send what is queued before it stops (src/admin.rs:448-450). It reads the stop flag in
  a second step after its empty poll, so a response queued before `drop` is called can be left unsent
  (`ResponseCanBeLeft`). `DropSendsAllIff` says exactly when none is.

## Model

| member | source | states |
|---|---|---|
| `Timeouts.AsMillisExactness` | src/util.rs:79-86 | The timeout given to librdkafka is the duration in whole milliseconds, rounded down, exactly for durations below 2^31 ms; otherwise the cast changes it |
| `PollEngine.PollEvent` | src/client.rs:303-339 | The client dispatches an event to at most one context call and forwards the rest; an error, and nothing else, is both reported to the context and forwarded |
| `PollEngine.PollQueue` | src/consumer/base_consumer.rs:138-199 | The loop computes the reference run: same result, same events used, same timeouts passed to native, same context calls, same time; an item returned is what the last event taken says |
| `PollEngine.DispatchedInOrder` | src/client.rs:303-339 | Every event taken off the queue is dispatched to the context exactly as its kind demands, once and in order, and one timeout is passed per native poll |
| `PollEngine.PollMeaning` | src/consumer/base_consumer.rs:143-198 | Only the last event taken can carry an item and no item is swallowed; "none" means that the last native poll was empty and the time is up; "event consumed" names the event kinds that allow it |
| `PollEngine.ItemMeaning` | src/consumer/base_consumer.rs:202-268 | A message returned was fetched by the last event taken; an error is the one that event reports, the end of a partition exactly for code -191, fatal exactly if native calls it so, and never code 0 |
| `PollEngine.ItemsOfKinds` | src/consumer/base_consumer.rs:202-268 | Exactly a fetch with a message and an error with a code carry an item; exactly empty fetches, errors that are none and unknown kinds are skipped |
| `PollEngine.CallsOfKinds` | src/client.rs:303-339 | What the context is told of each kind of event, with the event's own code |
| `PollEngine.NeverReturnsOnlyItems` | src/consumer/base_consumer.rs:812-818 | With no timeout the poll ends only with an item, so `Iter::next` returns from its first inner poll |
| `PollEngine.ZeroTimeoutPoll` | src/consumer/stream_consumer.rs:125-132 | A stream's zero-timeout poll stops at the first reply that is empty or not skipped, with that reply's meaning |
| `PollEngine.PollTimeBound` | src/consumer/base_consumer.rs:143-197 | A call with timeout T takes at most T, plus min(T, interval) per round since the last refresh of the budget, plus handler time, if min(T, interval) fits in 32-bit milliseconds |
| `PollEngine.TimeBoundedIff` | src/consumer/base_consumer.rs:143-197 | That bound holds for every queue exactly when min(T, interval) fits in 32-bit milliseconds; otherwise the cast can tell native to block for ever |
| `PollEngine.PollTimeBySkips` | src/consumer/base_consumer.rs:153-197 | The same by what is on the queue: one min(T, interval) per skipped event taken, so at most T plus handler time if there is none |
| `PollEngine.NeverOverrunsIff` | src/consumer/base_consumer.rs:123-197 | Every call keeps to its timeout, whatever is on the queue and whenever it arrives, exactly when min(timeout, interval) comes to 0 ms in its 32-bit form |
| `PollEngine.StaleBudgetOverruns` | src/consumer/base_consumer.rs:153-163 | The allowance is reached for every number of skipped events and every timeout, above and below the interval, if the smaller is a whole number of milliseconds, although native honours every timeout |
| `PollEngine.DefaultOpsInRange` | src/consumer/mod.rs:130-132 | With the default interval every timeout passed to native is between 0 and 1000 ms, whatever the caller asked for |
| `PollEngine.ProducerDispatch` | src/producer/base_producer.rs:376-430 | On the producer path an error event, and nothing else, reaches the context twice; any other event reaches it as the client dispatches it, at most once |
| `StreamWakeup.StepKeepsInv` | src/consumer/stream_consumer.rs:63-85 | Every atomic step by anybody keeps: own slots, no spare slots, and the wakeup guarantee of every stream |
| `StreamWakeup.NoLostWakeup` | src/consumer/stream_consumer.rs:138-172 | In every reachable state a stream that returned Pending and is not notified has its own waker in its slot, and the queue is empty or a callback is still to come |
| `StreamWakeup.WaitingStreamGetsEvent` | src/consumer/stream_consumer.rs:35-38 | Whenever an event is queued and a stream waits, at most one callback notifies the stream and its next poll takes the event at the head |
| `StreamWakeup.PollOfEmptyQueue` | src/consumer/stream_consumer.rs:138-172 | A call left alone on an empty queue waits with its own task's waker in its slot and its earlier notification used up, and changes nothing else |
| `StreamWakeup.LostWakeupWithoutRecheck` | src/consumer/stream_consumer.rs:157-161 | Without the second poll some interleaving leaves a stream waiting for ever with an event queued |
| `StreamWakeup.EventsConserved` | src/consumer/stream_consumer.rs:125-179 | In every reachable state, with streams created and dropped anywhere, the events enqueued are those taken, once each and in order, then those queued; each reader has yielded exactly the items and made exactly the context calls of what it took, in order, but for an event in hand; no call takes anything after the event that ended it |
| `StreamWakeup.NothingLeftBehind` | src/consumer/stream_consumer.rs:174-179 | A stream that was dropped, or is between two calls, has returned or dispatched every event it ever took |
| `MessageStreams.WakerSlab.WakeAll` | src/consumer/stream_consumer.rs:63-70 | Wakes exactly the stored wakers and leaves every slot empty |
| `MessageStreams.WakerSlab.Register` | src/consumer/stream_consumer.rs:72-75 | Inserts an empty entry at a vacant key and changes nothing else |
| `MessageStreams.SharedQueue.PollZero` | src/consumer/stream_consumer.rs:125-132 | Rounds of the poll engine on one native reply each, among other threads' steps, are a run of the protocol; the answer agrees with where the stream is then, and the context calls are those of the events taken |
| `MessageStreams.SharedQueue.PollNext` | src/consumer/stream_consumer.rs:138-172 | `poll_next` among other threads is a run of the protocol; Pending means waiting with no wakeup lost, an item is the one of the last event taken, and the context calls are those of the events taken |
| `MessageStreams.OpenStream` | src/consumer/stream_consumer.rs:99-123 | A new stream takes a vacant slot of the slab: the protocol's registration step |
| `MessageStreams.CloseStream` | src/consumer/stream_consumer.rs:174-179 | Dropping a stream gives back its slot, waker and all, and keeps the invariant of the others |
| `MessageStreams.WakeStreams` | src/consumer/stream_consumer.rs:63-70 | Waking the slab is the protocol's wake step: exactly the streams whose task has a waker stored are newly notified |
| `MessageStreams.StoreWaker` | src/consumer/stream_consumer.rs:82-85 | Storing a waker arms the stream |
| `StreamTiming.PollGapBounded` | src/consumer/stream_consumer.rs:238-263 | In every timed run a stream that waits on the consumer's own queue has polled within half the interval plus the executor's delay, however long others keep their items |
| `StreamTiming.IntervalKeptIff` | src/consumer/stream_consumer.rs:223-263 | Every waiting stream stays within the poll interval exactly when its slab has the background loop, and half the interval plus the delay is within it |
| `StreamTiming.UnboundedGap` | src/consumer/stream_consumer.rs:355-371 | The slab of a partition queue has no background loop, and a stream that waits on it may go unpolled for any time |
| `CallbackTarget.CallbackTargetsAlive` | src/consumer/stream_consumer.rs:561-568 | In every order of creating and dropping, a registered callback points to a slab that has a strong owner |
| `CallbackTarget.StepKeepsInv` | src/consumer/base_consumer.rs:777-796 | Every part of every drop keeps the reference counts equal to the owners, and callbacks registered only while their owner is whole |
| `CallbackTarget.ReleasesAreCounted` | src/consumer/stream_consumer.rs:625-632 | Whoever still has a reference to release finds it counted, so no drop underflows or gets stuck |
| `CallbackTarget.DanglingIfConsumerFirst` | src/consumer/stream_consumer.rs:565-567 | With `_consumer` declared before `queue`, some run frees the slab while its callback is registered |
| `CallbackTarget.CallbackRegisteredIff` | src/consumer/stream_consumer.rs:355-371 | In every run, a split partition queue has its callback, aimed at its own slab, exactly until that queue is split again or any split of it is dropped |
| `CallbackTarget.SecondSplitSilenced` | src/consumer/stream_consumer.rs:625-632 | A queue split twice is left without a callback, with the second split in use, when the first is dropped |
| `ProducerDelivery.StepKeepsInv` | src/producer/base_producer.rs:400-421 | Every step keeps each accepted message in exactly one place and native's count equal to what is alive |
| `ProducerDelivery.OpaqueInOnePlace` | src/producer/base_producer.rs:477-512 | In every reachable state an accepted opaque is held by native, in a batch, in a running callback, or reclaimed once, and in only one of these |
| `ProducerDelivery.CallbacksAreTruthful` | src/producer/base_producer.rs:415-420 | Every delivery callback gets its own record's opaque and the outcome settled for that record |
| `ProducerDelivery.FlushMeansDrained` | src/producer/base_producer.rs:528-545 | When native's count is zero every accepted message has had its callback completed exactly once, whoever polled |
| `ProducerDelivery.DrainedPrefixStays` | src/producer/base_producer.rs:607-626 | After a flush, whatever others do, the records accepted by then stay delivered exactly once and at most as many messages are outstanding as were accepted since |
| `ProducerDelivery.DrainAlwaysPossible` | src/producer/base_producer.rs:376-398 | From every reachable state with a polling thread some run delivers everything without accepting more |
| `ProducerDelivery.PoppedIsUnderway` | src/producer/base_producer.rs:380-421 | Along every run, a report in an event that a thread has taken is still with that thread or has been delivered |
| `BaseProducer.Producer.Send` | src/producer/base_producer.rs:457-513 | A record is taken exactly when its topic has no NUL and native does not refuse it, and is then the last accepted, held and counted; otherwise it comes back identical, opaque and headers included, with its own error and native unchanged |
| `BaseProducer.Producer.HandleDeliveryReport` | src/producer/base_producer.rs:400-421 | Runs the callback of every message of the event before the event is destroyed |
| `BaseProducer.Producer.Poll` | src/producer/base_producer.rs:376-398 | The loop computes the reference poll; every report of every event it has taken has been delivered, the event it found first among them; it returns only once the timeout has passed |
| `ProducerRuns.QuietPollDrains` | src/producer/base_producer.rs:376-421 | A poll that nobody interferes with and that has the time delivers the whole queue, every report once and in order |
| `ProducerRuns.LastLookInTime` | src/producer/base_producer.rs:393-395 | No look at native but the first is begun after the deadline |
| `BaseProducer.Producer.Flush` | src/producer/base_producer.rs:528-545 | The loop computes the reference flush; success means drained, and comes at once if native is; if messages are outstanding in time, the event then found is delivered before it returns; a timeout means that messages were outstanding and the time had passed |
| `ProducerRuns.FlushServes` | src/producer/base_producer.rs:533-541 | A flush that finds messages outstanding in time polls, and all that the poll delivers is delivered when it returns |
| `ProducerRuns.LastPollInTime` | src/producer/base_producer.rs:533-541 | Every poll of a flush was begun before its deadline with messages outstanding |
| `ProducerRuns.PollDeadlineMeaning` | src/producer/base_producer.rs:540-541 | Such a poll lasts 100 ms or to the flush's own deadline, whichever comes first |
| `BaseProducer.Producer.CommitTransaction` | src/producer/base_producer.rs:607-626 | The native commit is issued exactly after a successful flush, in the state that others have made of the flushed one; every record accepted before the call has then been called back exactly once, and what is outstanding was accepted since the flush; without it the flush had run out of time with messages outstanding |
| `BaseProducer.CommitDrainedIff` | src/producer/base_producer.rs:607-626 | Whatever others do between flush and commit, the commit is sure to go out drained exactly when no record is accepted in between |
| `BaseProducer.CommitWithLateSends` | src/producer/base_producer.rs:607-626 | A commit for which any number of records, sent by another thread after the flush, are outstanding |
| `BaseProducer.Producer.Drop` | src/producer/base_producer.rs:643-657 | Every message native still held is settled, as purged from the queue or in flight unless native settled it first, and its report published; then it flushes, for half a second at most before it gives up; if that succeeds each was called back exactly once |
| `FutureProducer.SendRetrying` | src/producer/future_producer.rs:306-358 | Every attempt offers the identical record, with the sender's fields, and channel; only "queue full" is retried; a failure returns topic, key, payload, timestamp, partition and headers as they were given and the last attempt's error; a timeout t allows at most ceil(t / 100 ms) + 1 attempts |
| `FutureProducer.RetryBoundReached` | src/producer/future_producer.rs:318-335 | That number of attempts is reached for every timeout |
| `FutureProducer.FutureGetsOwnResult` | src/producer/future_producer.rs:189-203 | In every reachable state an enqueued send's channel has either its sender still owed and nothing sent, or exactly one result, that of its own record; so it is never found cancelled |
| `FutureLifecycle.AwaitNeverCancelled` | src/producer/future_producer.rs:324-341 | In every run of producers cloned and dropped and sends made, refused and abandoned, while a send is awaited the polling thread runs, neither producer is dropped, and its channel has its sender still owed or exactly the result of its own record |
| `FutureLifecycle.AwaitCanResolve` | src/producer/future_producer.rs:336-341 | From every such state the brokers and the polling thread alone can bring the await to return |
| `FutureProducer.RecordRoundTrip` | src/producer/future_producer.rs:363-377 | A record refused by `send_result` comes back as the future record it was made from |
| `ThreadedProducer.LifecycleSafe` | src/producer/base_producer.rs:812-830 | In every interleaving at most one clone stops and joins, stop is requested only when no clone holds the handle, and the base producer is dropped at most once, after the thread has finished and every clone is gone |
| `ThreadedProducer.LifecycleComplete` | src/producer/base_producer.rs:802-830 | When all clones are dropped, exactly one has joined and the base producer has been dropped |
| `ThreadedProducer.DropProgresses` | src/producer/base_producer.rs:701-712 | From every reachable state a clone being dropped is at most five steps of its own and of the thread from its end, and no other clone has to be made or dropped for it |
| `AtLeastOnce.NothingCommittedIsLost` | examples/at_least_once.rs:140-167 | Over every run with crashes and failed stores, whatever is below the committed offset has been copied with its content to every output; behind a running position only the message in hand may be missing |
| `AtLeastOnce.NeverLosesIff` | examples/at_least_once.rs:1-74 | No run ever loses a received message, nor skips one behind its position, exactly when there are no outputs, or offsets are stored by hand, in order, with a reset to the earliest |
| `AtLeastOnce.OriginFixedOnceCommitted` | examples/at_least_once.rs:60-64 | Once there is a committed offset the beginning of the guarantee never moves |
| `AtLeastOnce.LatestLosesBeforeFirstCommit` | examples/at_least_once.rs:55-67 | With a reset to the latest offset and any outputs, a crash before the first commit can lose a received message |
| `AtLeastOnce.StoringEarlyLoses` | examples/at_least_once.rs:6-9 | Storing on receipt, with any outputs and any reset, admits a run that commits and loses a received message |
| `AtLeastOnce.OutOfOrderLoses` | examples/at_least_once.rs:6-9 | So does finishing out of order |
| `AtLeastOnce.Pipeline.CopyToOutputs` | examples/at_least_once.rs:146-159 | With reports in any order and commits going on between them, succeeds exactly when no output fails, and then every output has the message |
| `AtLeastOnce.Pipeline.HandleMessage` | examples/at_least_once.rs:145-165 | One message, with commits and new input going on throughout: the process survives exactly when no output fails, and then every output has the message, the position has moved past it and, if storing worked, so has the stored offset; only what had been stored before is committed |
| `AtLeastOnce.Pipeline.Run` | examples/at_least_once.rs:140-167 | Every turn on a partition with a message left handles one: it is copied everywhere, the position moves by one and, if storing works, the stored offset follows; a partition keeps up with its turns until it runs out; the process is gone exactly after a turn that could not copy everywhere |
| `OffsetCodec.OffsetRoundTrip` | src/topic_partition_list.rs:53-79 | An encodable offset decodes to itself exactly when its encoding does not overflow, that is for tails up to i64::MAX - 1999 |
| `OffsetCodec.RawRoundTrip` | src/topic_partition_list.rs:53-79 | An integer survives decoding and encoding exactly if it is non-negative, one of the four named values or below -2000; all others keep their value (-2000 as an empty tail) in an offset that cannot be encoded |
| `OffsetCodec.NamedValues` | src/topic_partition_list.rs:53-79 | The integers of the four named offsets, of absolute offsets and of tails, and which offsets have none |
| `OffsetCodec.SameRawIff` | src/topic_partition_list.rs:69-79 | Two encodable offsets share an encoding exactly when they are equal or one is a tail that overflows onto the other; so it is injective on tails up to i64::MAX - 1999 |
| `OffsetCodec.FromRawInjective` | src/topic_partition_list.rs:53-62 | Different integers decode to different offsets |
| `TopicPartitionList.EqIsMapEquality` | src/topic_partition_list.rs:381-394 | With no repeated key on the left, `==` is equality of count and of the maps to offset and metadata |
| `TopicPartitionList.EqIsEquivalence` | src/topic_partition_list.rs:381-394 | It is reflexive and symmetric there, carries freedom from duplicates over, and is transitive on all lists |
| `TopicPartitionList.ReflexiveIff` | src/topic_partition_list.rs:381-394 | In general a list equals itself exactly when elements with the same key are equal |
| `TopicPartitionList.SymmetricIff` | src/topic_partition_list.rs:381-394 | An equality turns round exactly when the right has no key of its own and its repeats agree |
| `TopicPartitionList.EqFailsOnDuplicates` | src/topic_partition_list.rs:381-394 | With duplicates symmetry and reflexivity can both fail |
| `TopicPartitionList.List.SetPartitionOffset` | src/topic_partition_list.rs:276-300 | Sets the first element with the key; fails, changing nothing, on an offset that cannot be encoded or an unknown key |
| `TopicPartitionList.List.AddPartitionOffset` | src/topic_partition_list.rs:303-311 | Appends and then sets the first match; on failure the fresh element stays |
| `TopicPartitionList.List.SetAllOffsets` | src/topic_partition_list.rs:331-341 | Sets every offset or none; on an empty list it succeeds with any offset |
| `TopicPartitionList.List.FromTopicMap` | src/topic_partition_list.rs:218-226 | Succeeds exactly when every offset can be encoded, and then has one element per entry, in iteration order |
| `TopicPartitionList.List.FromIter` | src/topic_partition_list.rs:402-423 | The same list from an iterator, where keys may repeat |
| `TopicPartitionList.BuildersAgreeIff` | src/topic_partition_list.rs:303-311 | Adding entries by key gives one element per entry, as the iterator does, exactly when entries that share a key all have the offset Invalid |
| `TopicPartitionList.BuildersDifferOnDuplicates` | src/topic_partition_list.rs:303-311 | The two ways of building do differ on some repeated key with other offsets |
| `TopicPartitionList.List.AddEach` | src/topic_partition_list.rs:218-226 | Adding entries one by one succeeds exactly when every offset can be encoded, and gives the list built by key |
| `TopicPartitionList.RebuiltAt` | src/topic_partition_list.rs:303-311 | In a list built by key, an element that repeats a key stays Invalid and the first with its key ends up with the offset of the last |
| `TopicPartitionList.MapRoundTripIff` | src/topic_partition_list.rs:373-378 | For every iteration order, a map of encodable offsets comes back unchanged exactly when no encoding overflows |
| `TopicPartitionList.OrdersAgree` | src/topic_partition_list.rs:218-226 | Two iteration orders of one map give lists that are `==` |
| `AdminClient.ResponseReachesItsRequest` | src/admin.rs:440-463 | In every run a request is resolved at most once and by the response given to that very request, in the order given |
| `AdminClient.DropDeliversWhatWasQueued` | src/admin.rs:428-438 | When drop has returned, exactly the responses queued before the thread's last empty poll were sent; what is unresolved is still held by native or was answered later |
| `AdminClient.DropSendsAllIff` | src/admin.rs:428-455 | Whatever happens during drop, every response queued when it is called has been sent when it returns exactly if the thread was not, at the call, between an empty poll and its look at the flag with a response queued since |
| `AdminClient.ResponseCanBeLeft` | src/admin.rs:446-452 | A run in which a response queued before drop is called is still unsent when it has returned |
| `AdminClient.Convert` | src/admin.rs:722-777 | An item is converted exactly when none of its strings has a NUL, its assignment fits its number of partitions, and native takes it |
| `AdminClient.Client.SubmitRequest` | src/admin.rs:76-100 | A channel is made and its sender handed over exactly when every conversion of items and options has succeeded; otherwise nothing has changed |
| `AdminClient.Client.PollLoop` | src/admin.rs:440-463 | The loop computes the reference loop; what was queued is sent after as many polls, stop or no stop; the thread leaves only with stop requested, having sent exactly the responses that were queued by its last empty poll, and then after at most two operations more than there are responses to send |

## Left out

- librdkafka itself (brokers, fetching, partitioners, transactions, group coordination): only the contracts above.
- Handlers of a rebalance: a rebalance is an event that runs one context call; what the context does is not modelled.
- Error codes other than "timed out" from a native flush: the count contract says that there are only two answers.
- Errors, statistics and logs on the producer's own queue: the delivery model's queue holds report events only; what the context sees for the others is `ProducerDispatch`.
- `Drop` of `BaseConsumer` after it has disabled its callback (the loop that polls until closed): it discards events.
- Requests and sends that are still unresolved when a client is destroyed: stated as unresolved, not assumed cancelled.
- StreamTiming.PollGapBounded: a call of `poll_next`, handlers included, takes no time of its own, and timers fire on time.
- StreamWakeup.NoLostWakeup: the queue's callback is registered throughout; when that is so for a split partition is `CallbackRegisteredIff`.
- StreamWakeup.EventsConserved: the context calls and the result of one event are one step; a handler in the middle of its work is not modelled.
- CallbackTarget.CallbackTargetsAlive: one stream consumer with its partition queues; consumers share no objects.
- BaseProducer.Producer.Flush: with `Timeout::Never` or a script that ends first the model says "still flushing" and promises nothing.
- AdminClient.Client.SubmitRequest: the seven operations share one shape and are one method; what native says to an item or option is a yes or no.
- Waker identity is a task number; a notified task is taken to poll every stream whose latest poll it made.
- Metadata, groups, statistics, mocking, configuration, logging, OAuth tokens, message accessors, builders and generated bindings: accessors and mappings with nothing hard to prove.
- `NativePtr`, `CString` and UTF-8 handling: topics, keys and payloads are abstract values, and only a NUL in a topic is looked at.
