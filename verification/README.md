# QWER-Q, verified core

A Dafny model of the QWER-Q message broker: the in-memory queue with leases, the handlers
that keep memory and disk in step, the dead-letter queue, crash recovery, the append-only
streams with retention, the storage keys, and the codecs. `dafny verify dfyconfig.toml`
checks everything.

The model keeps the form of the code. Objects the broker updates in place (`Queue`,
`Broker`, `Storage`, `StreamQueue`, `FrameDecoder`, `WriteBatcher`, `IdempotencyTracker`)
are classes with the same fields and loops. Each method is proved equal to a function on
values, and the theorems over whole runs are about those functions.

| files | part of the program |
|---|---|
| `QueueModel`, `QueueRuns`, `QueueTheorems`, `QueueEffects`, `QueueHoldings`, `QueueObject` | one queue: delivery, leases, order, ordering keys, channels, policy |
| `BrokerModel`, `Durability`, `Handlers`, `HandlerEffects`, `Purging`, `Retry`, `Recovery`, `BrokerRuns`, `BrokerObject` | handlers, store, DLQ, restart |
| `StreamProtocol`, `StreamKeys`, `StreamStorage`, `StreamQueue`, `StreamRetention` | streams: delivery protocol, keys, scans, numbering, retention |
| `Varints`, `RecordCodec`, `Frames`, `Protobuf`, `Payloads` | codecs |
| `Batcher`, `Dedup` | write batching, idempotency keys |
| `Types`, `Arith` | shared values and arithmetic |

Time is a parameter of every operation, and so is the storage: a `Pattern` says which of the
calls to come succeed. The store keeps the disk image after every call, so that a crash
between any two calls is a statement about one of those images. Every queue operation
appends to a log of events; conservation, order, lease, channel and policy properties are about
that log.

## What the proofs found

Some promises hold only under a condition. Each is stated with the exact condition.

- Accepted messages survive every pattern of failing storage calls except four writes, as long as
  no restart finds a message recorded twice (`AcceptedSurvive`). When one of the writes fails, or
  the broker crashes inside a handler, a restart right away spares everyone but the message being
  moved or what a failing purge had deleted (`LostBy`, `HandleSpares`).
  - The move to the dead-letter queue ignores its errors: the message stays on disk if and only
    if its save succeeded or the delete before it failed (`MoveKeepsIff`), and even when all
    goes well there is a moment without any record (`MoveHasAGap`).
  - A retry that cannot put the record back leaves the next retry able to lose the message
    (`TwoRetriesCanLose`); a pass keeps its head under every failure pattern if and only if the
    head's own record is there (`PassKeepsHeadIff`).
  - A retry keeps every accepted message where recovery finds it, under every failure pattern,
    if and only if the target queue's configuration is on disk (`RetryKeepsIff`), which in every
    run means if and only if the queue exists (`RetryNeedsTarget`). Otherwise the record can end
    up under a name recovery does not know, and the missing queue is then used.
  - A purge deletes records in batches of 500 and keeps the messages in memory if one fails. It
    succeeds or keeps them all on disk, under every failure pattern, if and only if there are at
    most 500 (`PurgeKeepsIff`).
- A restart from a disk with every accepted message makes a safe broker if and only if no message
  has two records (`RestartSafeIff`). A retry leaves two exactly when the rollback that should
  remove the copy failed (`LeftoverIff`), a move exactly when its save succeeded and the delete
  before it failed (`MoveLeftoverIff`). Recovery then brings the message back twice
  (`LeftoverDoubles`), and it can be lost with no unprotected write failing: a retry whose rollback
  works takes one record, a purge of the dead-letter queue the other, and the message is still
  pending in its target (`DoubledCanLose`).
- A message moved to the dead-letter queue and then recovered is invisible if and only if the
  queue had delivered it at once and that lease has not run out: the lease is saved with it
  (`MovedVisibleIff`). A run that starts with visible messages and enqueues visible ones is never
  held up by visibility (`RunVisible`).
- Size retention computes window starts by unsigned subtraction. The scan runs into a start
  below zero if and only if `newest % 100 != 99`, `newest % 100 >= oldest`, and what it counts
  above `newest % 100` is within the limit (`SizeRetention`, `UnderflowIff`); in a stream without
  gaps that count is the payload stored above `newest % 100` (`OverrunsSolid`). From there the
  code scans on from the top of the 64-bit range. A stream whose oldest number is at least 99 is
  never affected.
- A size pass over a stream without gaps that completes deletes the newest message if and only if
  that message alone is over the limit (`NewestKeptIffSmall` in `SizeRetention`), and exactly then
  a restart uses its number again (`RestartExactIffNewestKept`, `DeletingReuses`). A pass that
  underflows deletes nothing.
- The bottom window of that scan is moved up to the oldest message and still loads a hundred, so
  messages it shares with the window above are counted twice. In a stream without gaps a pass keeps
  everything if and only if the payloads and that overlap together are within the limit; otherwise
  the last message it deletes did not fit with all newer ones, the overlap counted in at the bottom
  (`DeletesLeast`). Where windows do not overlap it deletes no more than it must
  (`DeletesLeastAligned`); elsewhere it can delete messages of a stream that fits (`OverlapCosts`).
- A publisher that finds a consumer at the tail with a full channel skips it, to be caught up with
  later. Nothing does that: with no goroutine at work the consumer is sent nothing more until it
  seeks (`LeftBehindForever`), and a hundred and one publishes without a receive suffice
  (`FullChannelLeavesBehind`). Without retention, and until it leaves, a consumer is sent the whole
  log from its start on if and only if that never happens to it (`CaughtUpIff`, `WholeLogSent`).
- A restart that cannot read the newest number starts again at 1 and says nothing. Numbering is
  exact all along a stream's life if and only if no restart after the first publish fails to read
  the newest number or finds the newest message deleted (`NumbersForeverIff`). After a failed read
  the next publish overwrites message 1 (`ForgettingOverwrites`).
- The frame decoder's output is independent of where the bytes are cut if and only if no
  length is invalid or the first one is (`CutsDoNotMatterIff`): frames in front of an invalid
  length are lost when they arrive in the same chunk.
- A scan of one stream meets keys of another if and only if the other's name extends the
  first's by a colon (`PrefixMeets`). Two messages share a key exactly when one queue name goes
  on after the other with a colon and the start of the other's id (`MsgKeysCollideIff`). Names
  without colons are apart.
- Recovery creates each queue with the defaults, which rewrites its stored configuration
  (`LoadFromStorage`). A queue has the same settings after a second restart as after the first if
  and only if the stored ones amount to the defaults (`SettingsTwiceIff`).
- The server's frame encoder uses 32-bit lengths. Both ends take back what it was given if and only
  if that is within their limits, for payloads of any length (`EncodedFrameIff`); one whose length
  wraps to a small number is cut off without an error (`WrappedIsCut`).
- Headers named "" and "__proto__", and no others, do not come back from the client's map decoder
  (`PublishRequestRoundTrip`): it skips the one, and assigning the other to a plain object calls
  the prototype's setter. A number comes back from its varint decoder if and only if it is not
  negative (`NumberComesBackIff`).

## Model

| member | source | states |
|---|---|---|
| QueueTheorems.HeldCount | internal/broker/queue.go:100-386 | After every run, from any queue in agreement and with any settings, pending ids are distinct and none is in flight; pending plus in flight are exactly the ids enqueued and not acked, dropped, dead-lettered, retried, removed or purged, and their numbers add up. |
| QueueTheorems.DeliveryContract | internal/broker/queue.go:128-386 | Every run, from any queue in agreement, with any settings and any changes of them: leases are exclusive; deliveries follow the order in which messages began to wait; keys stick to their consumer, and key assignments point at connected consumers; a channel holds, and a consumer receives, what the last delivery to it sent; nothing goes to a consumer that has left. |
| QueueTheorems.LeaseExclusive | internal/broker/queue.go:128-203 | Between two deliveries of a message there is a requeue, or an expiry at a time past the deadline last recorded by delivery or extension, or the end of that message (its id may then be used again). |
| QueueTheorems.LeaseDeadline | internal/broker/queue.go:451-460 | The visibility time held for a leased message is the last deadline in the log. |
| QueueTheorems.DeliveriesInOrder | internal/broker/queue.go:128-161 | A message is delivered only after every message that began to wait before it, by a publish, a nack or an expired lease, was delivered or left the queue. |
| QueueTheorems.UnreadWasSent | internal/broker/queue.go:166-215 | What a consumer has not received yet is the message of the last delivery to it, as it was then, with the next attempt number and under the same id and key; nothing has touched the channel since. |
| QueueTheorems.AgreedChannels | internal/broker/queue.go:166-231 | In every queue in agreement each channel holds exactly that. |
| QueueTheorems.NothingAfterLeaving | internal/broker/queue.go:128-252 | After a consumer left nothing is delivered to it until it connects again. |
| QueueTheorems.StickyKeys | internal/broker/queue.go:166-184 | Two deliveries of one ordering key go to the same consumer unless that consumer left in between. |
| QueueTheorems.KeyStays | internal/broker/queue.go:166-252 | From its assignment on, delivered yet or not, and as long as its consumer does not leave, a key keeps its owner over every run and every delivery of it goes there. |
| QueueTheorems.DeliveryStops | internal/broker/queue.go:128-161 | Delivery ends with nothing pending, no consumers, an invisible head, or a head blocked by full channels: its owner's if keyed, everyone's if not. |
| QueueTheorems.DeliversFront | internal/broker/queue.go:128-161 | What delivery leaves pending is a suffix of what was pending. |
| QueueTheorems.TryReaches | internal/broker/queue.go:188-203 | The round-robin walk from any start index tries every consumer. |
| QueueTheorems.NeverHeldByVisibility | internal/broker/queue.go:128-161 | If pending messages are visible, the invisible-head exit is never taken. |
| QueueTheorems.RunVisible | internal/broker/queue.go:337-377 | With a monotone clock, from a queue whose messages are visible and enqueueing visible ones, every run keeps all pending messages visible. |
| QueueRuns.RunAgrees | internal/broker/queue.go:53-508 | Every run, from any queue in agreement, new or recovered, with any settings, keeps queue and log in agreement: contents, order, routing, and every event lawful where it happened. |
| QueueRuns.NewAgrees | internal/broker/queue.go:41-78 | A new queue is in agreement, whatever its settings. |
| QueueRuns.ApplyAgrees | internal/broker/queue.go:100-508 | Each single operation keeps that agreement. |
| QueueRuns.TryDeliverAgrees | internal/broker/queue.go:128-203 | Delivery keeps it, for any number of messages. |
| QueueRuns.ExpireAgrees | internal/broker/queue.go:367-386 | Requeueing expired leases in any map order keeps it. |
| QueueRuns.RemoveConsumerAgrees | internal/broker/queue.go:236-252 | Removing a consumer keeps it: nothing is lost, and key assignments still point at connected consumers. |
| QueueRuns.LeavesForGood | internal/broker/queue.go:236-252 | Exactly that consumer is gone and exactly its keys have no owner; all others keep theirs. |
| QueueRuns.DispatchStaffed | internal/broker/queue.go:166-215 | A delivery goes to a connected consumer with an empty channel, under its own timeout, and fills that channel with the head of the queue and no other. |
| QueueEffects.StepCauses | internal/broker/queue.go:100-508 | Each event an operation logs has its cause: only a nack requeues, dead-letters or drops, as policy and attempts say; only an expired lease expires; only an accepted message is enqueued; and times are those of the operation. |
| QueueEffects.RunCauses | internal/broker/queue.go:100-508 | Over every run each event goes back to one step and the state it met. |
| QueueEffects.PolicyRules | internal/broker/queue.go:293-350 | While the policy is to dead-letter nothing is dropped, and while it is not nothing is dead-lettered, over every run. |
| QueueEffects.RetriesRule | internal/broker/queue.go:293-350 | Over every run with settings that stay: a message goes back only on a nack that asks for it and with tries left; a nack that asks for it ends a message only under dead-letter or drop and with the attempts used up, counted on the log. |
| QueueEffects.StepSettings | internal/broker/queue.go:53-78 | Only the setters change limit, policy and retries. |
| QueueEffects.EnqueueTells | internal/broker/queue.go:100-113 | Enqueue refuses, with no effect, if and only if there is a limit and that many messages are pending. |
| QueueEffects.AckTells | internal/broker/queue.go:260-275 | An ack is done if and only if the message is in flight and the hook succeeded, and ends it exactly then. |
| QueueEffects.NackTells | internal/broker/queue.go:293-350 | For each policy, attempt count and hook outcome: what a nack answers and what happens to the message. |
| QueueEffects.ExpireTells | internal/broker/queue.go:367-386 | A lease ends in the pass if and only if it has run out, once each. |
| QueueEffects.ReceiveTells | internal/broker/queue.go:205-231 | A consumer receives what its channel holds, and the channel is then free. |
| QueueEffects.RemoveTells | internal/broker/queue.go:482-498 | Found if and only if pending or in flight, and ended exactly then. |
| QueueEffects.PurgeTells | internal/broker/queue.go:501-508 | Nothing is live after a purge; consumers, keys and settings stay. |
| QueueEffects.MembersTell | internal/broker/queue.go:218-252 | Connecting and leaving change who is connected by exactly that consumer, with its timeout. |
| QueueEffects.LeavesIdle | internal/broker/queue.go:100-386 | After an enqueue, a new consumer, an ack, a requeueing nack and an expiry pass nothing is left that could be delivered. |
| QueueEffects.NextInTurn | internal/broker/queue.go:188-203 | After an unkeyed delivery the next one goes to the consumer behind it if that has room by then. |
| QueueEffects.PlacedByHash | internal/broker/queue.go:166-184 | A key without an owner is given to the consumer its hash picks, and no other key changes hands. |
| QueueHoldings.HeldIsLive | internal/broker/queue.go:100-386 | The messages a queue holds are, message for message, those its log says are live. |
| QueueObject.Queue.constructor | internal/broker/queue.go:41-50 | A new queue is empty, with the default limits and policy. |
| QueueObject.Queue.SetMaxSize | internal/broker/queue.go:53-57 | Changes the limit and nothing else. |
| QueueObject.Queue.SetFailurePolicy | internal/broker/queue.go:67-71 | Changes the policy and nothing else. |
| QueueObject.Queue.SetMaxRetries | internal/broker/queue.go:74-78 | Changes the retry limit and nothing else. |
| QueueObject.Queue.TryDeliver | internal/broker/queue.go:128-161 | The loop computes the delivery function on the whole state. |
| QueueObject.Queue.DeliverOrdered | internal/broker/queue.go:166-184 | A keyed head goes to its key's owner, assigned by hash if there is none, or waits. |
| QueueObject.Queue.DeliverRoundRobin | internal/broker/queue.go:188-203 | An unkeyed head goes to the next consumer with room, and the turn moves on. |
| QueueObject.Queue.Enqueue | internal/broker/queue.go:100-113 | Rejects at the size limit with nothing changed; otherwise appends and delivers. |
| QueueObject.Queue.EnqueueDirect | internal/broker/queue.go:117-125 | Appends without the limit and delivers. |
| QueueObject.Queue.Dequeue | internal/broker/queue.go:218-231 | Adds a consumer with an empty channel and delivers. |
| QueueObject.Queue.RemoveConsumer | internal/broker/queue.go:236-252 | Removes the consumer and its key assignments; messages and the turn index stay. |
| QueueObject.Queue.AckWithHook | internal/broker/queue.go:260-275 | Unknown ids change nothing; a failing hook leaves the message in flight; otherwise it is gone. |
| QueueObject.Queue.NackWithHooks | internal/broker/queue.go:293-350 | Policy and attempts decide between dead-letter, drop and requeue; hook failures leave the message in flight. |
| QueueObject.Queue.RequeueExpired | internal/broker/queue.go:367-386 | Exactly the expired leases return to the queue, each once, in some order. |
| QueueObject.Queue.ExtendVisibility | internal/broker/queue.go:451-460 | Moves the deadline of an in-flight message; reports an unknown one. |
| QueueObject.Queue.Remove | internal/broker/queue.go:482-498 | Takes a pending or in-flight message out; says whether it found one. |
| QueueObject.Queue.Purge | internal/broker/queue.go:501-508 | Empties the queue and returns how many messages it held. |
| BrokerRuns.AcceptedSurvive | internal/broker/handlers.go:14-190 | In every run of handlers, restarts, and crashes at any moment inside a handler followed by a restart, with storage calls failing in any pattern, every accepted message is on disk with its content, except what a crash inside a handler or after an unprotected write takes (`LostBy`). Excluded: going on without a restart after one of the four unprotected writes has failed; retries whose target is neither there nor saved; restarts that find a message recorded twice. |
| BrokerRuns.AcceptedReloaded | internal/broker/broker.go:185-235 | After every such run recovery reloads each of them with the content it was published with. |
| BrokerRuns.StoreIsExact | internal/broker/handlers.go:14-190 | In every run with restarts and crashes, while rollbacks succeed and the DLQ has room or a restart follows at once, stored records are exactly the held messages, with equal content and no later attempt. |
| BrokerRuns.HandleSpares | internal/broker/handlers.go:14-190 | Whatever fails, every disk of every handler has every accepted message but the one being moved, or those a failing purge had deleted. |
| BrokerRuns.CrashSafe | internal/broker/broker.go:185-235 | A restart from any disk of any handler that has no message twice makes a safe and exact broker for the rest. |
| BrokerRuns.CleanFromNothing | internal/broker/handlers.go:14-190 | From an empty broker, a clean run keeps every accepted message, and records and held messages equal. |
| BrokerRuns.LifetimesNames | internal/broker/broker.go:244-274 | In every run, whatever fails, the configurations on disk are those of exactly the queues in memory. |
| BrokerRuns.RetryNeedsTarget | internal/broker/dlq.go:58-75 | A retry keeps every accepted message under every failure pattern if and only if its target queue exists. |
| BrokerRuns.CrashAnywhere | internal/broker/handlers.go:52-190 | A crash between any two storage calls of any handler but a completed DLQ move and a purge that fails half way: recovery finds every message accepted before and after the handler. |
| BrokerRuns.HandleSafe | internal/broker/handlers.go:14-190 | Each handler keeps every accepted message on disk. |
| BrokerRuns.HandleExact | internal/broker/handlers.go:14-190 | Each handler keeps records and held messages equal. |
| HandlerEffects.PublishTells | internal/broker/handlers.go:52-70 | Which calls and which capacity lead to each answer of a publish; only an accepted message is in the queue, and one that is not is on disk only if taking it back failed; no other queue changes. |
| HandlerEffects.ConsumeTells | internal/broker/handlers.go:75-90 | The consumer is connected with its timeout if and only if the queue is there or could be made, and what it can have is on its way. |
| HandlerEffects.HandleAckTells | internal/broker/handlers.go:94-116 | An ack is done if and only if the message is in flight and its record was deleted; then both are gone, otherwise neither. |
| HandlerEffects.HandleNackTells | internal/broker/handlers.go:120-190 | For each policy, attempt count and storage outcome: whether the message is moved, dropped or requeued, and its record with it; a requeued one is stored as it waits. |
| HandlerEffects.MoveTells | internal/broker/handlers.go:174-187 | The message ends in its queue; the DLQ gets it as it was, under its own name and visible at once, if and only if it is there or could be made and has room. |
| HandlerEffects.HandlePurgeTells | internal/broker/dlq.go:37-48 | A purge succeeds if and only if there is no such queue or every batch was deleted; the queue is then empty, otherwise as it was. |
| Handlers.PublishSafe | internal/broker/handlers.go:52-70 | A publish that reports success has stored its message; one that fails, rollback included, harms no other. |
| Handlers.AckSafe | internal/broker/handlers.go:94-116 | An ack removes record and message together, or neither, and every other accepted message stays stored at every point between calls. |
| Handlers.DropSafe | internal/broker/handlers.go:126-171 | The same for a drop. |
| Handlers.RequeueSafe | internal/broker/handlers.go:132-171 | A requeue saves the message before it leaves the lease; a failed save leaves it leased. |
| Handlers.MoveSafe | internal/broker/handlers.go:174-187 | The move keeps every accepted message if its save succeeds, and keeps store and memory equal if all its steps succeed. |
| Handlers.MoveKeepsIff | internal/broker/handlers.go:181-186 | The moved message has a record if and only if the save succeeded or the delete failed. |
| Handlers.MoveLeftoverIff | internal/broker/handlers.go:181-186 | The move leaves the message under both names if and only if its save succeeded and the delete before it failed. |
| Handlers.MoveImages | internal/broker/handlers.go:174-187 | No disk during the move misses any other message. |
| Handlers.MoveHasAGap | internal/broker/handlers.go:181-186 | Even a successful move passes through a disk without the message. |
| Purging.PurgeSafe | internal/broker/dlq.go:37-48 | Unless it fails half way, a purge takes the queue's own messages from disk and memory and leaves all others, or takes nothing. |
| Purging.PurgeKeepsIff | internal/storage/badger.go:159-191 | Under every failure pattern a purge succeeds or keeps all its messages on disk, if and only if they fit into one batch. |
| Purging.PurgeImages | internal/storage/badger.go:159-191 | A purge that fails takes only the messages whose records are gone by then. |
| Purging.DeleteBatchesAll | internal/storage/badger.go:159-191 | When all batches succeed none of the queue's records is left. |
| Purging.DeleteBatchesPrunes | internal/storage/badger.go:159-191 | On every disk on the way only records of that queue have gone. |
| Retry.RetryStores | internal/broker/dlq.go:51-96 | At every point between the storage calls of a retry, for every failure pattern and with or without the target queue, each message of the DLQ is stored under one of the two names and nobody else's record has changed. |
| Retry.PassStores | internal/broker/dlq.go:60-84 | The same for one pass and its head. |
| Retry.PassImages | internal/broker/dlq.go:60-84 | If recovery knows the target's name, no disk during a pass misses an accepted message. |
| Retry.LoopSafe | internal/broker/dlq.go:51-96 | Over the whole loop each message is in exactly one of the two queues; if recovery knows the target's name every disk keeps every accepted message; if the target exists the broker is safe afterwards unless a record could not be put back. |
| Retry.RetriesPrefix | internal/broker/dlq.go:51-96 | What is retried is a prefix of the DLQ, in order; the count is its length; without an error it is all; without a target queue it is nothing. |
| Retry.PassKeepsHeadIff | internal/broker/dlq.go:64-84 | A pass leaves its head on disk under every failure pattern if and only if the head's own record is there when it starts. |
| Retry.TwoRetriesCanLose | internal/broker/dlq.go:76-84 | When the target is full, two failing calls over two retries lose the message. |
| Retry.RetryKeepsIff | internal/broker/dlq.go:58-75 | A retry keeps every accepted message findable under every failure pattern if and only if recovery knows the target queue beforehand. |
| Retry.UnsavedTargetLoses | internal/broker/dlq.go:58-75 | The failing pattern: the target's configuration is not saved, and the head's record ends up where recovery does not look. |
| Retry.LeftoverIff | internal/broker/dlq.go:64-84 | A pass leaves the head under both names if and only if the rollback of its copy failed. |
| HandlerEffects.PassTells | internal/broker/dlq.go:60-90 | Which calls, and whether the target is there and has room, lead to each outcome of a pass. |
| HandlerEffects.PassLeaves | internal/broker/dlq.go:60-90 | For each outcome, which of the two records is on disk and with what content. |
| HandlerEffects.RetryTells | internal/broker/dlq.go:51-96 | The count is the number of messages that left the DLQ and arrived, attempts reset, at the target in order; no error if and only if that is all of them; nothing without a DLQ. |
| Recovery.RecoveryFinds | internal/broker/broker.go:185-235 | Recovery from any catalogued disk finds every message stored on it. |
| Recovery.RestartExact | internal/broker/broker.go:185-235 | From an exact broker a restart restores exactly the live messages, each as recorded; acked and dropped ones stay gone. |
| Recovery.RestartSafeIff | internal/broker/broker.go:185-235 | A restart from a disk with every accepted message makes a safe broker if and only if no message has two records on it; the broker is then exact. |
| Recovery.DoubledCanLose | internal/broker/dlq.go:37-96 | After a restart with a message recorded twice, a retry with a working rollback and a successful purge leave an accepted message in memory with no record. |
| Recovery.SettingsTwiceIff | internal/broker/broker.go:209-219 | Settings are the same after a second restart if and only if the stored ones amount to the defaults. |
| Recovery.RecoveredSettings | internal/broker/broker.go:209-219 | A recovered queue has each stored setting, or the default where none is stored. |
| Recovery.LeftoverDoubles | internal/broker/broker.go:185-235 | A message left under both names is recovered into both queues. |
| Recovery.RecoveredVisibleIff | internal/broker/broker.go:220-231 | A recovered queue's messages are visible by a time if and only if its records say so. |
| Recovery.MovedVisibleIff | internal/broker/handlers.go:174-187 | A moved and recovered message is invisible if and only if the DLQ delivered it at once and that lease still runs. |
| BrokerObject.Broker.HandlePublish | internal/broker/handlers.go:52-70 | Create, save, enqueue, roll back: the handler computes the publish function on broker and store. |
| BrokerObject.Broker.HandleConsume | internal/broker/handlers.go:75-90 | Creates the queue if needed and adds the consumer with the requested timeout, or thirty seconds. |
| BrokerObject.Broker.HandleAck | internal/broker/handlers.go:94-116 | Deletes the record as the ack's hook. |
| BrokerObject.Broker.HandleNack | internal/broker/handlers.go:120-190 | Runs the right hook, then drops, requeues or moves to the DLQ. |
| BrokerObject.Broker.DepositInDLQ | internal/broker/handlers.go:174-187 | Enqueue, delete, save, all errors ignored; the message saved is the one delivery may have updated. |
| BrokerObject.Broker.RetryDLQ | internal/broker/dlq.go:51-96 | The loop with its rollbacks computes the retry function and its count; it terminates. |
| BrokerObject.Broker.PurgeQueue | internal/broker/dlq.go:37-48 | Storage first, memory only if that succeeds; returns the count, 0 if there is no such queue or the delete failed. |
| BrokerObject.Broker.GetOrCreateQueueWithError | internal/broker/broker.go:244-274 | An existing queue as it is, or a new one if its configuration could be saved. |
| BrokerObject.Broker.LoadFromStorage | internal/broker/broker.go:185-235 | Rebuilds every configured queue from its configuration and records, all fields but the sequence number, keeps the records, and rewrites the configurations with defaults; a failed load leaves the records, the names, and the queues rebuilt so far. |
| BrokerObject.Storage.SaveMessage | internal/storage/badger.go:141-149 | One record is written, or nothing. |
| BrokerObject.Storage.DeleteMessage | internal/storage/badger.go:152-156 | One record is gone, or nothing. |
| BrokerObject.Storage.DeleteQueueMessages | internal/storage/badger.go:159-191 | The loop deletes the queue's records a batch of at most 500 at a time, until none is found or a batch fails. |
| StreamProtocol.SentInOrder | internal/broker/stream.go:64-170 | Every interleaving of publisher steps, one catch-up goroutine and retention: numbers sent strictly increase and each carries the message published under it. |
| StreamProtocol.SentIsTheLog | internal/broker/stream.go:64-170 | Without retention what is sent is the log from the start on: no gap, no duplicate, even when a batch includes a message whose publisher still holds the lock. |
| StreamProtocol.WholeLogSent | internal/broker/stream.go:64-170 | And all of it: without retention and while the consumer stays, once the goroutine is done and no publish is under way, the consumer has been sent exactly the log from its start to its end, if no publisher skipped it. |
| StreamProtocol.CaughtUpIff | internal/broker/stream.go:64-170 | Over every such run the consumer is caught up whenever no goroutine is at work, if and only if no publisher found it at the tail with a full channel and nobody catching up. |
| StreamProtocol.StepCaughtUp | internal/broker/stream.go:64-170 | Each step keeps that, if and only if it is not such a skip. |
| StreamProtocol.EndsCaughtUp | internal/broker/stream.go:128-170 | A goroutine that ends by itself has sent everything. |
| StreamProtocol.NotifySends | internal/broker/stream.go:84-94 | A publisher sends its message, once, to a consumer at its number with room, and nothing to others. |
| StreamProtocol.LoadBrings | internal/broker/stream.go:138-153 | From a whole stream a load is not empty and begins at the consumer's offset. |
| StreamProtocol.SubscribeStarts | internal/broker/stream.go:102-125 | Subscribing at 0 means the tail; wherever it starts, the goroutine or the publishers are responsible for everything from there on. |
| StreamProtocol.LeftBehindForever | internal/broker/stream.go:84-96 | A consumer behind the tail with no goroutine at work is never sent anything again unless one is started. |
| StreamProtocol.FullChannelLeavesBehind | internal/broker/stream.go:84-96 | A run that leaves a consumer behind: a hundred and one publishes before it receives. |
| StreamProtocol.ChannelBounded | internal/broker/stream.go:102-170 | The channel never holds more than a hundred messages. |
| StreamProtocol.StepInv | internal/broker/stream.go:84-170 | Each step keeps the invariant: what was sent is genuine and ascending, and while the goroutine has a message in hand the publisher's number is past the consumer's offset. |
| StreamQueue.StreamQueue.constructor | internal/broker/stream.go:32-48 | Numbering resumes after the highest stored number; at 1 if there is none or it cannot be read. |
| StreamQueue.StreamQueue.Publish | internal/broker/stream.go:64-82 | The message is stored under the next number, or the number is given back. |
| StreamQueue.StreamQueue.AgeRetention | internal/broker/stream.go:243-255 | Deletes exactly what precedes the first message not older than the cutoff; nothing if all are older. |
| StreamQueue.StreamQueue.Count | internal/broker/stream.go:282-288 | Stops at the newest entry that takes the running total over the limit. |
| StreamQueue.StreamQueue.SizeRetention | internal/broker/stream.go:258-300 | Terminates; for every log, a completed pass deletes up to the message at which the scan's count passes the limit and no further, and nothing if it never does; what is left is within the limit; it underflows if and only if the scan overruns, and has then deleted nothing; without gaps it keeps the newest message if and only if that fits. |
| StreamRetention.DeletesLeast | internal/broker/stream.go:258-300 | Without gaps: nothing is deleted if and only if payloads and overlap fit together; otherwise the last message deleted did not fit with all newer ones, the overlap counted in at the bottom. |
| StreamRetention.DeletesLeastAligned | internal/broker/stream.go:258-300 | Without overlap: everything is kept if it fits; otherwise the last message deleted and all newer ones are over the limit. |
| StreamRetention.CountBottom | internal/broker/stream.go:272-293 | The bottom window counts what is stored from a number on, and the overlap a second time. |
| StreamRetention.OverlapCosts | internal/broker/stream.go:272-293 | A stream of 1500 bytes of which a pass with a limit of 1600 deletes messages. |
| StreamQueue.StreamQueue.RunRetention | internal/broker/stream.go:232-303 | Age first, exactly; then the size pass on what that left, with its whole contract; each if configured. |
| StreamQueue.WindowCovers | internal/broker/stream.go:272-293 | A window's entries account for every stored byte from their floor to its top. |
| StreamQueue.UnderflowIff | internal/broker/stream.go:272-276 | A window the scan reaches starts below zero if and only if the bottom window is short, reaches the oldest, and what is counted above it fits. |
| StreamQueue.OverrunsSolid | internal/broker/stream.go:272-293 | Without gaps, what is counted above it is the payload stored above it. |
| StreamQueue.BatchBytes | internal/storage/badger.go:330-361 | From any of its entries on, a loaded window adds up to the payloads numbered so or higher among the first hundred stored from its start, whatever the gaps. |
| StreamQueue.SolidKept | internal/broker/stream.go:64-98 | Publishing after the newest and deleting the oldest leave no gap. |
| StreamQueue.NumberedStep | internal/broker/stream.go:32-98 | A publish, a failed publish, an age pass, any size pass, or a restart keeps numbering exact, if and only if it is not a restart, after something was published, that cannot read the newest number or finds the newest message deleted; an age pass deletes only older messages and never the newest. |
| StreamQueue.ForgettingOverwrites | internal/broker/stream.go:39-98 | After a failed read the next publish takes number 1 and overwrites it. |
| StreamQueue.DeletingReuses | internal/broker/stream.go:39-98 | After a size pass that deleted everything, a restart that reads well starts again at 1. |
| StreamQueue.RestartExactIffNewestKept | internal/broker/stream.go:39-45 | After a size pass a restart resumes at the right number if and only if the pass kept the newest message. |
| StreamQueue.NumbersForeverIff | internal/broker/stream.go:32-98 | Over every life of a stream, successful publishes get 1, 2, 3, ... with no gap and no reuse all along, if and only if no such restart happens. |
| StreamKeys.StreamKeyOrder | internal/storage/badger.go:309-311 | Byte order of a stream's keys is numeric order. |
| StreamKeys.StreamKeyParse | internal/storage/badger.go:426-453 | The number read back from a key is the one it was made from. |
| StreamKeys.StreamKeyInjective | internal/storage/badger.go:309-311 | Different streams or numbers have different keys, for all names. |
| StreamKeys.PrefixMeets | internal/storage/badger.go:330-361 | A stream's scan meets another stream's key if and only if the other's name extends it by a colon. |
| StreamKeys.ColonFreeApart | internal/storage/badger.go:309-311 | With colon-free names scans never meet. |
| StreamKeys.OtherKindsApart | internal/storage/badger.go:129-136 | Message, configuration and offset keys are never in a stream's scan. |
| StreamKeys.MsgKeysApart | internal/storage/badger.go:129-136 | With colon-free names message keys are distinct and a queue's scan meets that queue's alone. |
| StreamKeys.MsgKeysCollideIff | internal/storage/badger.go:129-136 | Two messages share a key if and only if they are the same, or the longer queue name goes on with a colon and the start of the other's id. |
| StreamStorage.WellMadeOwns | internal/storage/badger.go:129-136 | A database of keys made from colon-free names gives every stream its own range. |
| StreamStorage.Storage.SaveStreamMessage | internal/storage/badger.go:319-327 | The log gains or replaces that number; other keys stay. |
| StreamStorage.Storage.LoadStreamMessages | internal/storage/badger.go:330-361 | The scan returns the first stored messages from the number on, in order, none skipped, up to the limit. |
| StreamStorage.Storage.GetStreamSequence | internal/storage/badger.go:426-453 | The reverse seek finds the highest stored number, 0 if none. |
| StreamStorage.Storage.DeleteStreamMessagesBefore | internal/storage/badger.go:456-483 | Exactly the smaller numbers are gone; other keys stay. |
| StreamStorage.Storage.GetStreamMessageByTimestamp | internal/storage/badger.go:486-519 | The first number in order whose time is at or after the given one, 0 if none. |
| StreamStorage.Storage.GetStreamStats | internal/storage/badger.go:525-553 | The lowest and highest stored numbers. |
| Varints.UvarintRoundTrip | internal/storage/codec.go:153-159 | A 64-bit number reads back, leaving what follows. |
| Varints.ReadFits | internal/storage/codec.go:153-159 | On any bytes, what is read fits 64 bits and takes at most ten bytes. |
| Varints.ReadSuffix | internal/storage/codec.go:153-159 | On any bytes, what is left is the end of the input. |
| Varints.VarintRoundTrip | internal/storage/codec.go:161-167 | A signed 64-bit number reads back through ZigZag. |
| Varints.PrefixedRoundTrip | internal/storage/codec.go:169-187 | Length-prefixed bytes read back, leaving what follows. |
| Varints.SizeIsLength | internal/storage/codec.go:143-146 | The size computed for a varint is its length. |
| RecordCodec.RoundTripV2 | internal/storage/codec.go:15-129 | A record decodes to its message, for every header order and any trailing bytes. |
| RecordCodec.RoundTripV1 | internal/storage/codec.go:62-71 | The older form, with id and queue in front, decodes to the same message. |
| RecordCodec.CutShortV2 | internal/storage/codec.go:47-129 | A record cut short at any byte is malformed. |
| RecordCodec.CutShortV1 | internal/storage/codec.go:62-129 | The same for the older form. |
| RecordCodec.FieldsStable | internal/storage/codec.go:77-129 | On any bytes, what follows the fields read does not change what is read. |
| RecordCodec.SizeExact | internal/storage/codec.go:32-45 | The size computed beforehand is the encoded length, whatever two orders the two map iterations take. |
| RecordCodec.EncodeMessage | internal/storage/codec.go:15-30 | The appends, headers in whatever order the map yields them, produce a record of the message. |
| RecordCodec.EncodedComesBack | internal/storage/codec.go:15-60 | Whatever the encoder returns decodes to the message, trailing bytes or not, and has the size computed beforehand. |
| RecordCodec.DecodeHeaders | internal/storage/codec.go:77-129 | The header loop reads the counted entries, or reports malformed data. |
| Frames.ReadWire | clients/typescript/src/protocol.ts:15-65 | An encoded frame is read back whole, leaving what follows. |
| Frames.EncodedFrameIff | internal/protocol/frame.go:107-171 | For payloads of any length, with the 32-bit arithmetic of the encoder: the client takes back what was encoded if and only if it is within the frame limit, the server if and only if it is also within its message limit. |
| Frames.WrappedIsCut | internal/protocol/frame.go:107-118 | A payload whose length wraps to a small one is sent cut off. |
| Frames.ServerAgrees | internal/protocol/frame.go:135-171 | The server takes from the same bytes the same frame, if and only if the client does and the payload is within its limit. |
| Frames.ParseMore | clients/typescript/src/protocol.ts:68-75 | Reading all frames of a prefix and going on from what it left is reading all frames of the whole. |
| Frames.FeedIsParse | clients/typescript/src/protocol.ts:33-75 | Chunks pushed and read one by one give the frames of the concatenated bytes; with an invalid length, the error and some frames before it. |
| Frames.FramesArriveWhole | clients/typescript/src/protocol.ts:15-75 | Valid frames cut anywhere come out in order and leave an empty buffer. |
| Frames.CutsDoNotMatterIff | clients/typescript/src/protocol.ts:41-75 | The outcome is the same for all cuts if and only if no length is invalid or no frame precedes the invalid one. |
| Frames.FrameDecoder.Push | clients/typescript/src/protocol.ts:33-38 | The chunk joins the buffer. |
| Frames.FrameDecoder.ReadFrame | clients/typescript/src/protocol.ts:41-65 | One frame, or waiting, or an error, with the buffer advanced only past a frame. |
| Frames.FrameDecoder.ReadAll | clients/typescript/src/protocol.ts:68-75 | All complete frames; on an error those of this call are lost. |
| Frames.FrameDecoder.Feed | clients/typescript/src/protocol.ts:33-75 | Push and read per chunk, until an error. |
| Protobuf.LooseAgrees | clients/typescript/src/codec.ts:29-42 | Where Go's strict varint reader succeeds the client's reads the same number and length. |
| Protobuf.DecodeVarint | clients/typescript/src/codec.ts:29-42 | The shift-and-or loop computes that reader. |
| Protobuf.EncodeVarint | clients/typescript/src/codec.ts:13-27 | The loop writes the varint of the 64-bit two's complement pattern. |
| Protobuf.NumberComesBackIff | clients/typescript/src/codec.ts:13-42 | A signed number comes back through the client's reader if and only if it is not negative. |
| Protobuf.DecodeFields | clients/typescript/src/codec.ts:121-170 | The parser loop groups the fields by number, in order; it fails exactly on unknown wire types and short fixed-width fields. |
| Payloads.SingleFieldRoundTrip | internal/protocol/client_codec.go:42-48 | An ack request, and a publish response, parses to its one field. |
| Payloads.ParseFixedField | clients/typescript/src/codec.ts:152-165 | A 32-bit or 64-bit fixed field parses to its number. |
| Payloads.FieldFailsIff | clients/typescript/src/codec.ts:121-170 | After a tag the parser fails if and only if the wire type is unknown or a fixed field is cut short. |
| Payloads.FirstCounts | clients/typescript/src/codec.ts:172-200 | Of several fields with one number the first counts. |
| Payloads.PublishRequestFields | internal/protocol/client_codec.go:13-22 | A simple publish request parses to queue and payload. |
| Payloads.ConsumeRequestRoundTrip | internal/protocol/client_codec.go:25-39 | A simple consume request gives back queue, prefetch and timeout, omitted zeros included. |
| Payloads.FastPathIff | internal/protocol/publish_response.go:18-38 | The fast path accepts the empty payload, or one field holding all the rest; 64-bit wrapping admits no other length and no slice out of range. |
| Payloads.FastPathAgrees | internal/protocol/publish_response.go:18-38 | Where the fast path answers, the general parser answers the same. |
| Payloads.FastPathRoundTrip | internal/protocol/publish_response.go:8-38 | The fast path reads back what its encoder wrote. |
| Payloads.PublishRequestRoundTrip | clients/typescript/src/codec.ts:244-258 | The client's publish request gives back every field for every header order, except headers named "" and "__proto__". |
| Payloads.GetMapBack | clients/typescript/src/codec.ts:80-99 | Map entries come back as the map they were taken from, without the two names that vanish. |
| Batcher.RefinesDirectWrites | internal/storage/batcher.go:47-146 | In every run the flushed batches, the open batch and the channel concatenate to the order submitted, answers are the flushes' outcomes, and the database is what writing the successful requests one by one gives. |
| Batcher.EveryoneAnsweredOnce | internal/storage/batcher.go:47-146 | Answers go to the submitted requests in order, one each; once the loop has returned, to all of them. |
| Batcher.LoopAnswers | internal/storage/batcher.go:76-115 | After a timer, a full batch or the end of the loop the batch is empty and everyone received has an answer; the end of the loop has received everybody. |
| Batcher.DirectBatch | internal/storage/batcher.go:121-146 | One batch written at once is its requests written one by one. |
| Batcher.WriteBatcher.Flush | internal/storage/batcher.go:121-146 | The batch is written or nothing is, and every caller is told which. |
| Batcher.WriteBatcher.Receive | internal/storage/batcher.go:76-98 | A received request joins the batch; a full batch is flushed. |
| Batcher.WriteBatcher.Timer | internal/storage/batcher.go:100-104 | The timer flushes a batch that is not empty. |
| Batcher.WriteBatcher.Drain | internal/storage/batcher.go:106-115 | Shutdown takes everything left in the channel and flushes it. |
| Batcher.WriteBatcher.Submit | internal/storage/batcher.go:47-59 | The request enters the channel, or is refused once closed. |
| Dedup.EvictionIsInvisible | internal/broker/dedup.go:48-99 | In every run with a monotone clock and cleanups at any moment, a key is let through if and only if no check of it was let through less than one TTL before. |
| Dedup.AlwaysKnows | internal/broker/dedup.go:48-99 | From the last event on, the table knows what the unbounded history knows. |
| Dedup.CleanupForgets | internal/broker/dedup.go:57-99 | After a cleanup, by the ticker or on the way into a full table, only keys let through at most one TTL before are left. |
| Dedup.IdempotencyTracker.constructor | internal/broker/dedup.go:33-44 | An empty table; a TTL that is not positive becomes the default. |
| Dedup.IdempotencyTracker.Check | internal/broker/dedup.go:48-68 | Empty keys pass; unexpired ones are duplicates; others are recorded, after a cleanup if the table is full. |
| Dedup.IdempotencyTracker.Cleanup | internal/broker/dedup.go:93-99 | Exactly the entries past their expiry are gone, whatever order the map yields. |

## Left out

- Consumer groups, clustering and replication, the HTTP and WebSocket interfaces, the TCP server, authentication, schemas, metrics and the command line.
- Memory-pressure checks and a broker without storage: the model always has a store.
- Stream queues inside recovery, consumer offsets, `StreamQueue.Seek`, and `RemoveConsumer` racing a sending goroutine.
- The FNV hash is any function, message ids are fresh by assumption (a client that reuses a live id is not modelled), and the JSON form of stored records is left to its own decoder.
- Locks: handlers and queue operations are atomic steps; crashes fall between storage calls. The stream protocol and the write batcher are the parts modelled step by step.
- Attempt counters and sequence numbers do not wrap at 2^32 and 2^64, and payload totals do not overflow 63 bits.
- JavaScript numbers are exact: rounding above 2^53 is not modelled. Text is its UTF-8 bytes.
- BrokerObject.Storage.SaveMessage: a failed call has no effect, and a successful one is durable at once; the sync interval is not modelled.
- BrokerObject.Storage.DeleteMessage: a failed call has no effect.
- BrokerObject.Storage.DeleteQueueMessages: finding the next batch never fails.
- BrokerObject.Broker.HandleConsume: when the queue cannot be created the code uses a missing queue; the model stops there with nothing changed.
- BrokerObject.Broker.HandlePublish: starts from the finished message; the idempotency check is in `Dedup`.
- BrokerObject.Broker.LoadFromStorage: starts from an empty broker, as at startup.
- StreamQueue.StreamQueue.Publish: numbering and storing only; notifying consumers is in `StreamProtocol`.
- StreamQueue.StreamQueue.AgeRetention: its storage calls do not fail; in the code a failure ends the pass.
- StreamQueue.StreamQueue.SizeRetention: its storage calls do not fail; and from the first underflow on, the scan through the top of the number range is not followed; the result says that it happened and that nothing had been deleted.
- StreamProtocol.SubscribeStarts: subscribing is one step under the stream's lock; the code reads the tail once more after releasing it.
- QueueObject.Queue.RemoveConsumer: a message still in the channel of a consumer that leaves stays leased and counts as not received; the code closes the channel, and its reader may still take that message out.
- Batcher.WriteBatcher.Flush: a write batch is atomic; Badger may commit a very large one in parts.
- Batcher.WriteBatcher.Submit: a submit racing the close, and a channel of capacity zero, are not modelled.
- Dedup.IdempotencyTracker.Check: the table may grow past its nominal maximum, as in the code.
