# A verified model of the qbusbridge C++ SDK

qbusbridge wraps two message queue clients, librdkafka and the Pulsar client, behind one
producer and one consumer. Most of it forwards calls. This project models the parts that keep
state of their own and proves what that state guarantees, on every run:

- **Kafka consumer**: who owns each polled message, when it is destroyed, what is committed and
  in which order, in the three commit modes, through timed flushes, rebalances and `stop`.
- **Kafka producer**: which records the delivery callback resends and which are given up, across
  `uninit`, whose report a synchronous send takes for its own, and the partitioner.
- **Pulsar producer**: the queue-full loop around callbacks that resubmit themselves on timeout.
- **Pulsar consumer**: the latest id per topic, acknowledged cumulatively under a timer.
- **Pause and resume**: the set of partitions and the two flags, shared between threads.

`dafny verify dfyconfig.toml` checks everything.

## How it is modelled

librdkafka, the Pulsar client, the user's callbacks, the random source and the clock are the
environment. What they choose is an argument of an event (`Enabled` says what they may choose);
what the SDK does about it is `Next`. A `Run` is any finite history of enabled events, and the
main results speak of all of them. For the two consumers and the Kafka producer a class holds the
real maps, flags and handles and updates them in place, method by method as the source does; each
method is proved to take exactly the state machine's step, so what holds of runs holds of every
use of the class. What a run says about the outside world is always tied back to its events: the
calls, deliveries, commits and acknowledgements in a trace are proved to be exactly what the events
give. The Pulsar send loop, the timer, the partitioner and the partition set are
methods proved against functions whose own properties are then proved.

| file | about |
|---|---|
| `MapWalk.dfy` | visiting every key of a map once, in any order |
| `WaitingKey.dfy` | the name of a message's waiting slot, and when two partitions share one |
| `KafkaConsumerSpec.dfy` | the consumer's state machine |
| `KafkaOwnership.dfy` | exactly-once release |
| `KafkaCommitOrder.dfy` | order and origin of commits |
| `KafkaStop.dfy` | what flushes and `stop` leave committed |
| `KafkaHistory.dfy` | user-manual mode: history as released part, slot, vector |
| `KafkaFlushRate.dfy` | when timed flushes take place, from the calls alone |
| `KafkaEffects.dfy` | polls, deliveries and commits as the events give them |
| `KafkaPull.dfy` | what a call of `consume` gives in the build without a polling thread |
| `KafkaTurns.dfy`, `KafkaConsumer.dfy` | turns of the loop and calls of `consume`; the consumer class |
| `KafkaProducer.dfy`, `KafkaProducerImp.dfy`, `Partitioner.dfy` | the Kafka producer: machine, classes, partitioner |
| `PulsarSend.dfy`, `PulsarSendResult.dfy`, `PulsarSendLoop.dfy` | the Pulsar producer: machine and bounds; results; callback and loop |
| `PulsarConsumer.dfy`, `PulsarConsumerLoop.dfy`, `PulsarTimer.dfy` | the Pulsar consumer: machine, class, timer |
| `PartitionSuffix.dfy` | the reported topic name |
| `PauseGate.dfy` | partition set, flags, interleavings |

### What is assumed of the environment

- A polled message is a fresh pointer, named by its serial number; only live pointers are compared.
- Where offsets matter, librdkafka hands out each partition's messages in increasing offset order.
- Maps may be walked in any order that visits every key once.
- `commitOffset` of the Kafka consumer runs as one step on the thread that polls, on a message that the user has not
  passed with a commit yet. What happens otherwise is `CommitOffsetNeedsAHeldMessage`.
- The configuration leaves auto commit off in user-manual mode (`KafkaConsumer.Consumer.constructor`).
- No response code of librdkafka is -12345. Real Pulsar message ids differ from the empty id.
- Assignments alternate with revocations; random partitions are in range.

### Where the code does less than one might expect

Each of these is proved, with the exact condition under which the expectation holds.

- The waiting key has no separator between topic and partition. The slots tell partitions apart
  exactly when no topic is another one followed by a positive number small enough to begin a
  partition number (`KeysDistinctIff`); exactly then `stop` commits everything
  (`StopAlwaysKeepsUpIff`). Ownership does not depend on it.
- `commitOffset` leaves a message in one place exactly if the user has committed neither it nor a
  later message of its key before (`CommitOffsetNeedsAHeldMessage`).
- In the pull build, `consume` commits a message before it returns it exactly if the consumer
  commits on its own and the flush of that call is due (`CommittedBeforeReturnedIff`); the returned
  pointer is then dangling (`ReturnedPointerLiveIff`).
- A Pulsar `produce` that returns false may still be followed by a successful send, exactly when
  timeouts are retried (`FailureIsFinalIff`).
- A synchronous Kafka send takes any report for its own; it cannot be wrong exactly when nothing
  was outstanding before (`SyncAttributionIff`).
- Pause and resume look at the start flag and at the "has assigned" flag before they list the
  partitions, and nothing holds the gates open. A schedule gives a complete list whatever is
  assigned exactly if the assignment in force was stored since the set was last cleared
  (`SafeScheduleIff`). For a call that passed both gates it is enough that `stop` has not cleared
  the set since it passed the first and nothing was assigned since it passed the second
  (`GateMeansComplete`). Neither can be dropped: a rebalance (`GateCanBeStale`), even one whose
  revocation came before the second gate (`RevokedBeforeTheGate`), leaves a stale list, and `stop`,
  which clears the set before it joins the polling thread, an empty one (`StopEmptiesTheList`).
- The suffix is cut off a Pulsar topic by looking at the last character only (`CutWronglyIff`).
- `stop` and the destructor of the Pulsar consumer acknowledge pending ids also with manual
  acknowledgement, whether or not the user committed them (`RoundAcksEverything`).
- The comment at cxx/src/pulsar/timer.h:19 says the timer restarts when the interval is exceeded;
  the code restarts it when the interval is reached, and so does the model. The comment at
  cxx/src/pulsar/qbus_consumer.h:58 names the suffix "-partitioned-n"; the code looks for
  "-partition-".

## Model

| member | source | states |
|---|---|---|
| KafkaOwnership.OwnedExactlyOnce | cxx/src/kafka/qbus_consumer.cc:389-588 | at every step of every run, in the callback build and in the pull build, in each mode, for any key function, a polled message is destroyed or owned by exactly one of: the thread's hand, one slot, one vector cell |
| KafkaOwnership.NeverTouchedAfterDestroy | cxx/src/kafka/qbus_consumer.cc:435-588 | nothing is delivered, requested, committed or destroyed after it was destroyed, or without having been polled |
| KafkaOwnership.StopReleasesExactlyOnce | cxx/src/kafka/qbus_consumer.cc:257-278 | after `stop`, each message ever polled has been destroyed exactly once |
| KafkaOwnership.UserCommitEffect | cxx/src/kafka/qbus_consumer.cc:487-523 | a user commit splits the vector at the message: what precedes it is destroyed, it takes the slot, what follows stays |
| KafkaOwnership.NextKeeps | cxx/src/kafka/qbus_consumer.cc:526-588 | every event keeps the ownership invariant: maps hold live messages under their own keys in poll order, and no live message is lost |
| KafkaCommitOrder.CommitsInPollOrder | cxx/src/kafka/qbus_consumer.cc:567-595 | commit attempts on a waiting key are strictly in poll order |
| KafkaCommitOrder.CommittedOffsetsIncrease | cxx/src/kafka/qbus_consumer.cc:567-595 | with increasing offsets per partition, committed offsets of a partition strictly increase |
| KafkaCommitOrder.DeliveredBeforeCommit | cxx/src/kafka/qbus_consumer.cc:526-588 | in the callback build, whenever an offset is committed, by timer, rebalance or `stop`, every message of its partition at or below it was delivered before |
| KafkaCommitOrder.RequestedByTheUser | cxx/src/kafka/qbus_consumer.cc:435-442 | in user-manual mode a message waits for commit exactly if the user committed it, and only such messages are committed |
| KafkaCommitOrder.RequestedByTheSdk | cxx/src/kafka/qbus_consumer.cc:534-541 | in SDK-commit mode exactly the error-free messages polled and no longer in hand have been put up for commit |
| KafkaCommitOrder.AutoCommitsNothing | cxx/src/kafka/qbus_consumer.cc:542-560 | in auto-commit mode the consumer commits nothing itself |
| KafkaStop.StopCommitsTheLastRequest | cxx/src/kafka/qbus_consumer.cc:257-278 | after `stop`, the last commit attempt on each partition is its last request, if requests sharing a key are of one partition |
| KafkaStop.StopCommitsTheLastPolled | cxx/src/kafka/qbus_consumer.cc:257-278 | in SDK-commit mode that is the partition's last polled message |
| KafkaStop.FlushCommitsTheLastRequest | cxx/src/kafka/qbus_consumer.cc:567-588 | the same after every revocation, every forced flush, and every timed flush at least an interval after the last flush that took place |
| KafkaStop.StopAlwaysKeepsUpIff | cxx/src/kafka/qbus_consumer.cc:257-278 | `stop` leaves nothing behind on all runs over a set of topics if and only if the waiting keys are distinct |
| KafkaStop.CollidingRun | cxx/src/kafka/qbus_consumer.cc:509-523 | for any two topics whose keys collide, a run after whose `stop` one partition was never committed |
| KafkaHistory.HistorySplits | cxx/src/kafka/qbus_consumer.cc:471-523 | in user-manual mode the poll history of a key is a destroyed part, the slot, the vector and the message in hand, in that order |
| KafkaHistory.CommitOffsetNeedsAHeldMessage | cxx/src/kafka/qbus_consumer.cc:435-442 | from any reachable callback, `commitOffset` leaves a polled message in exactly one place if and only if the user committed neither it nor a later message of its key before; exactly then its vector holds it |
| KafkaPull.ReturnedPointerLiveIff | cxx/src/kafka/qbus_consumer.cc:407-431 | the pointer that `consume` returns is alive if and only if commits are the user's, or the consumer's own and this call's flush is not due |
| KafkaPull.CommittedBeforeReturnedIff | cxx/src/kafka/qbus_consumer.cc:409-431 | a call commits its message before returning it if and only if the consumer commits on its own and this call's flush is due |
| KafkaFlushRate.LastMsIsLatest | cxx/src/kafka/qbus_consumer.cc:567-588 | on every run the noted commit time is that of the last flush that took place, forced or due, and 0 before the first |
| KafkaFlushRate.DueIfNoneLately | cxx/src/kafka/qbus_consumer.cc:570 | a timed flush is due if every flush that took place so far is at least an interval ago: checking alone postpones nothing |
| KafkaFlushRate.FlushRateBounded | cxx/src/kafka/qbus_consumer.cc:567-588 | with a clock that does not go back, n timed flushes within a window of L ms satisfy (n - 1) * interval <= L |
| KafkaEffects.CommitsIff | cxx/src/kafka/qbus_consumer.cc:567-595 | each event of each run, in both builds, commits exactly this: a revocation, a forced flush or a timed flush that is due commits the newest uncommitted request of every key; nothing else commits |
| KafkaEffects.PollsAreReturned | cxx/src/kafka/qbus_consumer.cc:532-533 | the polled messages of a trace are, in order, those the polls returned |
| KafkaEffects.DeliveriesAreAccepted | cxx/src/kafka/qbus_consumer.cc:534-551 | the callback gets exactly the error-free polled messages, each once, in poll order |
| WaitingKey.KeysDistinctIff | cxx/src/kafka/qbus_consumer.cc:444-451 | the keys of a set of topics are distinct if and only if no topic is another one plus a positive decimal n with 10n < 2^31 |
| WaitingKey.DecimalPrefix | cxx/src/kafka/qbus_consumer.cc:447 | every proper beginning of a printed partition number is itself a printed positive number, at least ten times smaller |
| WaitingKey.DecimalReadsBack | cxx/src/kafka/qbus_consumer.cc:447 | the printed partition number has only digits, no leading zero, and reads back as the number; negative ones get a minus sign |
| KafkaConsumer.Consumer.constructor | cxx/src/kafka/qbus_consumer.cc:709-739 | user-manual commit turns auto commit off; the maps start empty |
| KafkaConsumer.Consumer.GetWaitOffsetKey | cxx/src/kafka/qbus_consumer.cc:444-451 | the key of a message's slot |
| KafkaConsumer.Consumer.CommitOffset | cxx/src/kafka/qbus_consumer.cc:435-442 | what any call does to the maps; a legal one takes the user-commit step of the run; a null message does nothing |
| KafkaConsumer.Consumer.Consume | cxx/src/kafka/qbus_consumer.cc:389-433 | a call adds exactly its rebalances, its poll with what became of the message, and its timed flush to the run, and returns exactly an accepted message; a stopped consumer only flushes |
| KafkaConsumer.Consumer.ClearWaitDestroyMsgs | cxx/src/kafka/qbus_consumer.cc:453-469 | destroys every vector's messages once and leaves the map as it is |
| KafkaConsumer.Consumer.AddWaitDestroyMsgs | cxx/src/kafka/qbus_consumer.cc:471-485 | appends to the key's vector, creating it if needed |
| KafkaConsumer.Consumer.RemoveWaitDestroyMsgs | cxx/src/kafka/qbus_consumer.cc:487-507 | the search, the destroy loop and the erase drop the prefix up to the message and destroy all of it but the message; an absent message changes nothing |
| KafkaConsumer.Consumer.AddWaitCommitOffset | cxx/src/kafka/qbus_consumer.cc:509-523 | the message takes its slot, a displaced occupant is destroyed |
| KafkaConsumer.Consumer.ManualCommitWaitOffset | cxx/src/kafka/qbus_consumer.cc:567-588 | commits, destroys and empties all slots exactly if forced or due, and then notes the time |
| KafkaConsumer.Consumer.RevokePartitions | cxx/src/kafka/qbus_consumer.cc:846-856 | the revoke branch is a forced flush unless auto commit is on |
| KafkaConsumer.Consumer.ReceivedConsumeMsg | cxx/src/kafka/qbus_consumer.cc:598-622 | delivery, then the callback's commits, each a step of the run |
| KafkaConsumer.Consumer.PollTurn | cxx/src/kafka/qbus_consumer.cc:531-556 | one iteration adds exactly its rebalances, its poll, the callback with its commits, and its timed flush to a legal run, in that order |
| KafkaConsumer.Consumer.ConsumePollThread | cxx/src/kafka/qbus_consumer.cc:526-564 | the polling thread adds the events of any legal sequence of turns, in order, and ends with a timed flush |
| KafkaConsumer.Consumer.Stop | cxx/src/kafka/qbus_consumer.cc:257-278 | the flag goes down, the partition set is cleared, the polling thread (where there is one) ends after at most one more turn, then forced flush and clearing; all polled messages are then destroyed exactly once; nothing on a stopped consumer |
| KafkaProducer.UserCallsAreSends | cxx/src/kafka/qbus_producer.cc:106-150 | on every run, in both modes, librdkafka gets for the user exactly the payloads and keys of the sends that find the producer initialized, in order; the log's reports are those librdkafka made |
| KafkaProducer.AcceptedIsAccountedFor | cxx/src/kafka/qbus_producer.cc:106-194 | on every run, across failures, resends and `uninit`, the (payload, key) multiset of the user's accepted sends equals librdkafka's queue plus what was delivered plus what was given up |
| KafkaProducer.CallbackResendsIff | cxx/src/kafka/qbus_producer.cc:184-194 | the callback makes a produce call exactly on a failure of an asynchronous send reported before `uninit` began, at once and with that message's payload and key |
| KafkaProducer.GivenUpIff | cxx/src/kafka/qbus_producer.cc:184-194 | a failed message is given up if and only if the send was synchronous, its failure came after `uninit` began, or the resend was refused |
| KafkaProducer.DrainTerminates | cxx/src/kafka/qbus_producer.cc:84-104 | once the flag is cleared, whatever happens, each report leaves one outstanding message fewer and nothing is accepted, so draining ends |
| KafkaProducer.ReportShrinksIff | cxx/src/kafka/qbus_producer.cc:184-194 | on every run a report shrinks the queue by one exactly if no resend is taken |
| KafkaProducer.ResendsForever | cxx/src/kafka/qbus_producer.cc:186-194 | before that, from any state with something outstanding, n failures in a row leave the same records outstanding |
| KafkaProducer.SuccessIsLastReport | cxx/src/kafka/qbus_producer.cc:110-133 | a synchronous send succeeds if and only if the last report since it was made is error-free |
| KafkaProducer.SyncSuccessIsOwn | cxx/src/kafka/qbus_producer.cc:119-133 | with nothing outstanding, a synchronous send succeeds if and only if this message is reported delivered within 30 polls |
| KafkaProducer.SyncAttributionIff | cxx/src/kafka/qbus_producer.cc:119-133 | in every reachable state, every success is the message's own if and only if nothing was outstanding on entry |
| KafkaProducer.TimedOutSendStays | cxx/src/kafka/qbus_producer.cc:119-133 | a send whose polls bring nothing returns false and stays outstanding, so the next success may be another's |
| KafkaProducerImp.QbusProducerImp.MsgDeliveredCallback | cxx/src/kafka/qbus_producer.cc:173-194 | records the error, or calls librdkafka with the reported payload and key, or does nothing |
| KafkaProducerImp.QbusProducerImp.AwaitReport | cxx/src/kafka/qbus_producer.cc:121-125 | polls until the first poll with reports, at most 30 times |
| KafkaProducerImp.QbusProducerImp.InternalProduce | cxx/src/kafka/qbus_producer.cc:106-140 | a send adds exactly itself and the reports of its polls to the run: one poll if asynchronous, up to 30 if synchronous, none if refused; and its result |
| KafkaProducerImp.QbusProducerImp.Produce | cxx/src/kafka/qbus_producer.cc:142-150 | false without effect when not initialized, otherwise exactly that send; nothing accepted is lost |
| KafkaProducerImp.QbusProducerImp.Uninit | cxx/src/kafka/qbus_producer.cc:84-104 | each flushed report takes a message out of the queue for good, nothing is sent any more, the handle is gone, nothing accepted is lost |
| Partitioner.DjbHash | cxx/src/kafka/qbus_producer.cc:220-224 | the shift-and-add loop on unsigned 32-bit values and signed bytes equals (5381 * 33^n + sum of key[i] * 33^(n-1-i)) mod 2^32 |
| Partitioner.HashConcat | cxx/src/kafka/qbus_producer.cc:220-224 | hash(a + b) = hash(a) * 33^len(b) + poly(b) mod 2^32 |
| Partitioner.HashFromTheStart | cxx/src/kafka/qbus_producer.cc:221-224 | the hash starts at 5381 and goes from h to 33 * h + byte mod 2^32 |
| Partitioner.ChooseByKey | cxx/src/kafka/qbus_producer.cc:216-232 | the hash residue if that partition is available, partition 0 otherwise |
| Partitioner.ChooseKeyless | cxx/src/kafka/qbus_producer.cc:233-256 | exits with a pick just seen available, or after every partition was seen unavailable |
| Partitioner.PartitionHashFunc | cxx/src/kafka/qbus_producer.cc:212-262 | the choice between the two, always in range |
| Partitioner.LoopExitsIff | cxx/src/kafka/qbus_producer.cc:239-256 | the drawing ends if and only if some draw is available when drawn or the draws reach every partition |
| Partitioner.FairDrawsTerminate | cxx/src/kafka/qbus_producer.cc:239-256 | with a random source that reaches every partition it always ends |
| Partitioner.FixedAvailability | cxx/src/kafka/qbus_producer.cc:239-256 | while availability does not change, the result is available whenever any partition is |
| PulsarSend.AtMostOneLiveChain | cxx/src/pulsar/qbus_producer.cc:145-163 | under any interleaving of completions only the newest chain can be live, so at most one copy of the payload is outstanding |
| PulsarSend.QueueFullIsDead | cxx/src/pulsar/retryable_send_callback.cc:11-35 | a chain whose cell reads "queue is full" has nothing in flight and never resubmits |
| PulsarSend.GaveUpMeansNothingSentLater | cxx/src/pulsar/qbus_producer.cc:145-163 | a "queue is full" return leaves nothing in flight, and nothing is submitted afterwards |
| PulsarSend.SubmissionsBounded | cxx/src/pulsar/qbus_producer.cc:145-163 | at most Q * (1 + max(0, T)) submissions, all of the same payload and key |
| PulsarSend.BoundIsReached | cxx/src/pulsar/retryable_send_callback.cc:15-22 | that bound is reached, for every Q and T |
| PulsarSend.LateTimeoutsBounded | cxx/src/pulsar/qbus_producer.cc:145-163 | at most Q + max(0, T) when timeouts complete only after the return |
| PulsarSendResult.ReadIff | cxx/src/pulsar/qbus_producer.cc:152-160 | the loop goes on exactly after "queue is full" and returns any other result as it is: the last one that came in for the iteration, Ok only if that was Ok or none came |
| PulsarSendResult.ReturnedIsRead | cxx/src/pulsar/qbus_producer.cc:145-163 | on every run the returned result is what the last read found, or "queue is full" after giving up |
| PulsarSendResult.SubmitsIff | cxx/src/pulsar/retryable_send_callback.cc:11-35 | an iteration submits once, a callback exactly if its copy timed out and at most T copies of the iteration did; nothing else submits |
| PulsarSendResult.FailureIsFinalIff | cxx/src/pulsar/qbus_producer.cc:152-160 | a failure return means the message is out of the producer's hands on all runs if and only if timeouts are not retried or nothing is sent |
| PulsarSendLoop.RetryableSendCallback.Invoke | cxx/src/pulsar/retryable_send_callback.cc:11-35 | writes the shared cell; resubmits a copy with one more retry, the same cell and payload, exactly on a timeout with retries left |
| PulsarSendLoop.RetryableSendCallback.constructor | cxx/src/pulsar/retryable_send_callback.h:12-24 | a new callback has a cell of its own that reads Ok |
| PulsarSendLoop.RetryableSendCallback.Copy | cxx/src/pulsar/retryable_send_callback.h:12-38 | a copy shares the cell and carries the count, the payload and the key |
| PulsarSendLoop.SendOnce | cxx/src/pulsar/qbus_producer.cc:148-152 | one iteration with early completions is a run of the machine; its result and the number of submissions follow from the results that came early |
| PulsarSendLoop.SendAsync | cxx/src/pulsar/qbus_producer.cc:145-163 | the loop returns the result of the first iteration that does not find the queue full, and does what the machine does on that run |
| PulsarSendLoop.Produce | cxx/src/pulsar/qbus_producer.cc:121-134 | true exactly if that result is Ok; nothing is sent when not initialized |
| PulsarTimer.Timer.Stop | cxx/src/pulsar/timer.cc:9-18 | the truncated milliseconds; re-arms exactly when they reach the interval |
| PulsarTimer.FiresIff | cxx/src/pulsar/timer.cc:9-18 | despite two truncations a check fires if and only if a whole interval of real time has passed |
| PulsarTimer.FiredIff | cxx/src/pulsar/timer.cc:9-18 | a check fires if and only if the start and every earlier check that fired are at least an interval of real time ago: neither too often nor too rarely |
| PulsarTimer.RoundsNeedTime | cxx/src/pulsar/timer.cc:7-18 | n rounds need at least n whole intervals since the start |
| PulsarConsumer.ExternalIsHistory | cxx/src/pulsar/qbus_consumer.cc:177-258 | but for the consumer's own acks, the trace is exactly what was received, each message's delivery under its name without the suffix, and an ack of each id the user committed, in order |
| PulsarConsumer.OwnAcksIff | cxx/src/pulsar/qbus_consumer.cc:232-250 | each event acks of the consumer's own accord exactly this: in a round, the latest id of every topic not acked since, once, with the client's answer; otherwise nothing |
| PulsarConsumer.PendingEntry | cxx/src/pulsar/qbus_consumer.cc:177-240 | a topic's entry is the empty id exactly if its latest message was acked since, and that message's id otherwise, whatever acks failed |
| PulsarConsumer.AckedAfterDelivery | cxx/src/pulsar/qbus_consumer.cc:194-250 | an id acked by the consumer itself is the topic's latest and was delivered, as was everything consumed |
| PulsarConsumer.ManualAcksNothingBeforeStop | cxx/src/pulsar/qbus_consumer.cc:242-258 | with manual acknowledgement only `commitOffset` acks before the first `stop` or the destruction, and no other step than these makes the consumer ack, through restarts, too |
| PulsarConsumer.RoundAcksEverything | cxx/src/pulsar/qbus_consumer.cc:166-174 | `stop`, the destructor and a due check attempt every pending id; if all are granted the last acked id is the last consumed id on every topic |
| PulsarConsumer.TimedRoundsNeedTime | cxx/src/pulsar/qbus_consumer.cc:242-250 | on every run n timer-driven rounds need n whole intervals since the loop last started |
| PulsarConsumerLoop.Consumer.AcknowledgeAll | cxx/src/pulsar/qbus_consumer.cc:232-240 | attempts every pending id; granted ones become the empty id, refused ones stay |
| PulsarConsumerLoop.Consumer.CheckTimeThenAcknowledgeAll | cxx/src/pulsar/qbus_consumer.cc:242-250 | the deferred step of a legal run, in either mode |
| PulsarConsumerLoop.Consumer.Handle | cxx/src/pulsar/qbus_consumer.cc:177-217 | a received id is remembered first and delivered next |
| PulsarConsumerLoop.Consumer.LoopTurn | cxx/src/pulsar/qbus_consumer.cc:196-218 | one iteration adds exactly what it received, the callback with its commits, and the deferred check to the run |
| PulsarConsumerLoop.Consumer.ConsumeLoop | cxx/src/pulsar/qbus_consumer.cc:194-219 | the loop adds the events of any legal sequence of iterations, in order |
| PulsarConsumerLoop.Consumer.Stop | cxx/src/pulsar/qbus_consumer.cc:156-175 | if all acks are granted, every topic's last acked id is its last consumed one; nothing when not running |
| PulsarConsumerLoop.Consumer.Start | cxx/src/pulsar/qbus_consumer.cc:136-154 | a stopped consumer loops again with its map kept and its timer restarted; a running one is left alone |
| PulsarConsumerLoop.Consumer.Destruct | cxx/src/pulsar/qbus_consumer.cc:32-36 | the same for the destructor, in either mode |
| PartitionSuffix.RemovesWhatWasAdded | cxx/src/pulsar/qbus_consumer.cc:20-28 | for every base topic and number, removing the suffix from base + "-partition-" + number gives base |
| PartitionSuffix.ChangesIff | cxx/src/pulsar/qbus_consumer.cc:20-28 | a name changes if and only if it has the marker and ends in a digit; the cut is at the last marker |
| PartitionSuffix.CutWronglyIff | cxx/src/pulsar/qbus_consumer.cc:22-24 | a name of no partition is cut if and only if it ends in a digit and has a non-digit behind its last marker |
| PauseGate.TopicPartitionSet.Add | cxx/src/kafka/qbus_topic_partition_set.cc:9-23 | `init` with a list inserts its partitions one by one |
| PauseGate.InsertAllMeans | cxx/src/kafka/qbus_topic_partition_set.cc:15-22 | afterwards the set holds exactly what it held and the list's partitions |
| PauseGate.TopicPartitionSet.FindTopics | cxx/src/kafka/qbus_topic_partition_set.cc:25-42 | the nested loops list the named topics in turn, each in ascending partition order |
| PauseGate.ListingMeans | cxx/src/kafka/qbus_topic_partition_set.cc:25-42 | a partition is listed if and only if its topic is named and it is in the set |
| PauseGate.ListingDistinct | cxx/src/kafka/qbus_topic_partition_set.cc:25-42 | naming each topic once lists no partition twice |
| PauseGate.ListingOrdered | cxx/src/kafka/qbus_topic_partition_set.cc:25-42 | the list follows the order of the named topics and, within a topic, the partition numbers |
| PauseGate.StateIsHistory | cxx/src/kafka/qbus_consumer.cc:836-873 | the flags, the pending assignment and the topics asked for are what the events say |
| PauseGate.GatesIff | cxx/src/kafka/qbus_consumer.cc:312-320 | a call goes on exactly if `stop` has not lowered the start flag and then exactly if the last mark was that partitions are assigned |
| PauseGate.FoundIff | cxx/src/kafka/qbus_consumer.cc:322 | what a call gets is exactly its topics' partitions from the assignments stored since the set was last cleared, in the order of the topics and then by number |
| PauseGate.CompleteIff | cxx/src/kafka/qbus_consumer.cc:264-357 | wherever a call makes its list, it gets every assigned partition of its topics if and only if the assignment in force was stored since the last clear or all it has of the topics was stored by others since |
| PauseGate.SafeScheduleIff | cxx/src/kafka/qbus_consumer.cc:264-357 | an order of events gives the call at its end everything, whatever partitions are assigned, if and only if the assignment in force was stored since the last clear |
| PauseGate.GateMeansComplete | cxx/src/kafka/qbus_consumer.cc:311-326 | a call that passed both gates gets every assigned partition of its topics if the set was not cleared since the first and nothing was assigned since the second |
| PauseGate.GateCanBeStale | cxx/src/kafka/qbus_consumer.cc:311-326 | after a revocation and a new assignment behind the second gate the call misses a partition |
| PauseGate.RevokedBeforeTheGate | cxx/src/kafka/qbus_consumer.cc:854-855 | so they do when the revocation began before the second gate, because the flag is lowered last |
| PauseGate.StopEmptiesTheList | cxx/src/kafka/qbus_consumer.cc:264-270 | after `stop` between the gates and the list the call gets an empty list while the partition is assigned and the flag is up |
| PauseGate.Gates.PauseOrResume | cxx/src/kafka/qbus_consumer.cc:311-357 | an uninterrupted call: refused at either gate without a list, otherwise exactly its topics' partitions in the set, and librdkafka's answer |

## Left out

- Restarting a stopped Kafka consumer: `clearWaitDestroyMsgs` leaves destroyed messages in the map, so a second
  lifecycle starts from a broken state.
- KafkaConsumer.Consumer.CommitOffset: models the two locked sections of `commitOffset` as one step on the polling
  thread, so calls from other threads are covered only as far as the maps go.
- KafkaConsumer.Consumer.Stop: assignments during the last turn, which fill the partition set again, are events of
  `PauseGate` and not of the consumer class.
- KafkaConsumer.Consumer.RemoveWaitDestroyMsgs: does not store nulls in the cells that are erased right afterwards.
- PauseGate.GateMeansComplete: with other threads in between, pause and resume are a state machine of single accesses; torn
  reads of the unlocked map are left out. It covers one start and stop.
- KafkaProducerImp.QbusProducerImp.Uninit: messages still outstanding when the flush ends are dropped by librdkafka; here
  they stay in its queue. `uninit` clears the flag between two callbacks, not inside one.
- PulsarConsumerLoop.Consumer.Destruct: not while a message is on its way to the callback, which would be a data race.
- `force_stop` and `force.destroy`, which give up the guarantees on purpose.
- Configuration loading, subscription and client setup: single lookups and forwarding calls; only the resulting modes matter.
- The facade classes and the PHP producer caches: forwarding and one-step lookups, which would only add easy members.
- Logging, recording failed messages to files, formatting, examples and bindings: input and output.
- Pulsar batching, partition routing and redelivery, and librdkafka's group protocol: inside the client libraries.
