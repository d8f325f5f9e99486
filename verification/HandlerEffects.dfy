/**
 What a handler's answer means: which storage calls and which state of the queue led to it, and
 what has then happened in the queue, in the other queues and on disk.
 */
module HandlerEffects {
  import opened Types
  import opened QueueModel
  import opened QueueRuns
  import opened QueueEffects
  import opened BrokerModel
  import opened Handlers
  import opened Retry

  /** All queues but one are as they were. */
  ghost predicate OthersSame(b: Broker, t: Broker, name: Bytes) {
    && (forall n :: n != name ==> (n in t.queues <==> n in b.queues))
    && (forall n :: n != name && n in b.queues ==> n in t.queues && t.queues[n] == b.queues[n])
  }

  predicate AtCapacity(q: Queue) {
    q.maxSize > 0 && |q.pending| >= q.maxSize
  }

  /** The queue a name stands for: an absent one is new when it is made. */
  function QueueOf(b: Broker, name: Bytes): Queue {
    if name in b.queues then b.queues[name] else NewQueue(name)
  }

  /** How many calls it takes to have the queue. */
  function CallsToCreate(b: Broker, name: Bytes): nat {
    if name in b.queues then 0 else 1
  }

  lemma CreateTells(b: Broker, name: Bytes, up: Pattern)
    ensures var (t, ok) := GetOrCreate(b, name, up);
            && (ok <==> name in b.queues || up(b.store.calls))
            && (if ok then t.queues == b.queues[name := QueueOf(b, name)] else t.queues == b.queues)
            && t.store.disk.records == b.store.disk.records && t.store.calls == b.store.calls + CallsToCreate(b, name)
  {
  }

  /** Where the queue exists: the message is accepted if and only if it was saved and there is
      room; if there is none, the second call decides whether the record is left over. */
  lemma PublishToTells(b: Broker, m: Message, now: int, up: Pattern, hash: Hash)
    requires m.queue in b.queues
    ensures var (t, r) := PublishTo(b, m, now, up, hash);
            var at, q, key := b.store.calls, b.queues[m.queue], Key(m.queue, m.id);
            && r != ConfigNotSaved && (r == MessageNotSaved <==> !up(at))
            && (r == Published <==> up(at) && !AtCapacity(q))
            && (r == RolledBack <==> up(at) && AtCapacity(q) && up(at + 1))
            && (r == Published ==> m.queue in t.queues && Logged(q, t.queues[m.queue], Enqueued(m)))
            && (r != Published ==> t.queues == b.queues) && OthersSame(b, t, m.queue)
            && (r in {Published, RollbackFailed} ==> t.store.disk.records == b.store.disk.records[key := m])
            && (r == RolledBack ==> t.store.disk.records == b.store.disk.records - {key})
            && (r == MessageNotSaved ==> t.store.disk == b.store.disk)
  {
    hide Enqueue, Logged;
    EnqueueTells(b.queues[m.queue], m, now, hash);
    var d, key := b.store.disk.records, Key(m.queue, m.id);
    assert d[key := m] - {key} == d - {key};
  }

  /** A publish is accepted if and only if the queue is there or its configuration was saved, the
      message was saved, and the queue has room. Only an accepted message is in the queue; one
      that is not is on disk only if taking it back failed. */
  lemma PublishTells(b: Broker, m: Message, now: int, up: Pattern, hash: Hash)
    ensures var (t, r) := Publish(b, m, now, up, hash);
            var at, q, key := b.store.calls + CallsToCreate(b, m.queue), QueueOf(b, m.queue), Key(m.queue, m.id);
            && (r == ConfigNotSaved <==> m.queue !in b.queues && !up(b.store.calls))
            && (r == Published <==> r != ConfigNotSaved && up(at) && !AtCapacity(q))
            && (r == RolledBack <==> r != ConfigNotSaved && up(at) && AtCapacity(q) && up(at + 1))
            && (r == MessageNotSaved <==> r != ConfigNotSaved && !up(at))
            && (r == Published ==> m.queue in t.queues && Logged(q, t.queues[m.queue], Enqueued(m)))
            && (r != Published && m.queue in t.queues ==> t.queues[m.queue] == q) && OthersSame(b, t, m.queue)
            && (r in {Published, RollbackFailed} ==> t.store.disk.records == b.store.disk.records[key := m])
            && (r == RolledBack ==> t.store.disk.records == b.store.disk.records - {key})
            && (r in {ConfigNotSaved, MessageNotSaved} ==> t.store.disk.records == b.store.disk.records)
  {
    hide GetOrCreate, PublishTo, Logged, AtCapacity;
    CreateTells(b, m.queue, up);
    var (b1, created) := GetOrCreate(b, m.queue, up);
    if created { PublishToTells(b1, m, now, up, hash); }
  }

  /** The consumer is connected to the queue if and only if there is one, and what it can have is
      on its way. */
  lemma ConsumeTells(b: Broker, name: Bytes, c: nat, timeout: int, now: int, up: Pattern, hash: Hash)
    requires Agrees(QueueOf(b, name)) && c !in ConsumerIds(QueueOf(b, name).consumers)
    ensures var t := Consume(b, name, c, timeout, now, up, hash);
            && (name in t.queues <==> name in b.queues || up(b.store.calls))
            && (name in t.queues ==>
                  && Members(t.queues[name].log) == Members(QueueOf(b, name).log)[c := timeout]
                  && c in ConsumerIds(t.queues[name].consumers) && Idle(t.queues[name], now))
            && OthersSame(b, t, name) && t.store.disk.records == b.store.disk.records
  {
    hide GetOrCreate, AddConsumer, Agrees, Idle, Members;
    CreateTells(b, name, up);
    var q := QueueOf(b, name);
    MembersTell(q, c, timeout, now, hash);
    ApplyAgrees(q, Step(DoConsume(c, timeout), now), hash);
    LeavesIdle(q, Step(DoConsume(c, timeout), now), hash);
    MembersAre(AddConsumer(q, c, timeout, now, hash));
  }

  /** An ack is done if and only if the message is in flight and its record could be deleted; then
      both are gone, and otherwise neither. */
  lemma HandleAckTells(b: Broker, name: Bytes, id: Bytes, now: int, up: Pattern, hash: Hash)
    ensures var (t, r) := HandleAck(b, name, id, now, up, hash);
            var held := name in b.queues && id in b.queues[name].inFlight;
            && (r == AckNotFound <==> !held) && (r == AckDone <==> held && up(b.store.calls))
            && (r == AckDone ==>
                  && name in t.queues && Logged(b.queues[name], t.queues[name], Ended(id, Acked))
                  && t.store.disk.records == b.store.disk.records - {Key(name, id)})
            && (r != AckDone ==> t.queues == b.queues && t.store.disk == b.store.disk) && OthersSame(b, t, name)
  {
    hide Ack, Logged;
    if name in b.queues { QueueEffects.AckTells(b.queues[name], id, up(b.store.calls), now, hash); }
  }

  /** What a nack comes to, by policy and attempts, and what its answer says of queue and disk. A
      requeued message is stored as it then waits. */
  lemma HandleNackTells(b: Broker, name: Bytes, id: Bytes, requeue: bool, now: int, up: Pattern, hash: Hash)
    requires name in b.queues && id in b.queues[name].inFlight
    requires b.queues[name].inFlight[id].queue == name && b.queues[name].inFlight[id].id == id
    ensures var (t, r) := HandleNack(b, name, id, requeue, now, up, hash);
            var q, m := b.queues[name], b.queues[name].inFlight[id];
            var ends := !requeue || Exhausted(q, m);
            && (r.Moved? || r == NoDLQ <==> ends && q.policy == DeadLetter)
            && (r == DroppedFor <==> ends && q.policy != DeadLetter && up(b.store.calls))
            && (r == RequeuedFor <==> !ends && up(b.store.calls)) && r != NotInFlight
            && (r.Moved? || r == NoDLQ ==>
                  && name in t.queues && Logged(q, t.queues[name], Ended(id, DeadLettered))
                  && id !in t.queues[name].inFlight)
            && (r == DroppedFor ==>
                  && name in t.queues && Logged(q, t.queues[name], Ended(id, Dropped))
                  && t.store.disk.records == b.store.disk.records - {Key(name, id)})
            && (r == RequeuedFor ==>
                  && name in t.queues && Logged(q, t.queues[name], Requeued(id, now))
                  && t.store.disk.records == b.store.disk.records[Key(name, id) := m.(visibleAt := now)])
            && (r == NackFailed ==> t.queues == b.queues && t.store.disk == b.store.disk)
  {
    hide Nack, Logged, JoinDLQ;
    var q := b.queues[name];
    QueueEffects.NackTells(q, id, requeue, up(b.store.calls), now, hash);
    if NackVerdict(q, q.inFlight[id], requeue).ToDLQ? { MoveTells(b, name, id, now, up, hash); }
  }

  /** A move ends the message in its queue, and gives the DLQ the message as it was, addressed to
      the DLQ and visible at once, if the DLQ is or could be made and has room. */
  lemma MoveTells(b: Broker, name: Bytes, id: Bytes, now: int, up: Pattern, hash: Hash)
    requires name in b.queues && id in b.queues[name].inFlight
    ensures var (t, r) := MoveToDLQ(b, name, id, now, up, hash);
            var dlq := QueueOf(b, DLQName(name));
            && (r == NoDLQ <==> DLQName(name) !in b.queues && !up(b.store.calls))
            && (r.Moved? <==> r != NoDLQ)
            && name in t.queues && t.queues[name] == Settle(b.queues[name], id, DeadLettered)
            && Logged(b.queues[name], t.queues[name], Ended(id, DeadLettered))
            && (r.Moved? ==> (r.enqueued <==> !AtCapacity(dlq)))
            && (r.Moved? && r.enqueued ==>
                  DLQName(name) in t.queues && Logged(dlq, t.queues[DLQName(name)],
                    Enqueued(b.queues[name].inFlight[id].(queue := DLQName(name), visibleAt := now))))
  {
    hide GetOrCreate, Enqueue;
    DLQDiffers(name);
    var left := SetQueue(b, name, Settle(b.queues[name], id, DeadLettered), b.store);
    CreateTells(left, DLQName(name), up);
    var m := b.queues[name].inFlight[id].(queue := DLQName(name), visibleAt := now);
    QueueEffects.EnqueueTells(QueueOf(b, DLQName(name)), m, now, hash);
  }

  /** Why a pass of the retry loop ended as it did, call by call. */
  lemma PassTells(b: Broker, name: Bytes, now: int, up: Pattern, hash: Hash)
    requires HasHead(b, name)
    ensures var (t, r, more) := RetryHead(b, name, now, up, hash); var at := b.store.calls;
            && (r == CopyNotSaved <==> !up(at))
            && (r.OldNotDeleted? <==> up(at) && !up(at + 1)) && (r.OldNotDeleted? ==> r.undone == up(at + 2))
            && (r == NoTarget <==> up(at) && up(at + 1) && name !in b.queues)
            && (r == AllRetried <==> up(at) && up(at + 1) && name in b.queues && !AtCapacity(b.queues[name]))
            && (r == NotRestored ==> !up(at + 2)) && (r in {Restored, CopyLeft} ==> up(at + 2))
            && (r == Restored ==> up(at + 3)) && (r == CopyLeft ==> !up(at + 3))
  {
    hide TryDeliver, Pull;
  }

  /** And what is on disk by then: the copy, the head's own record, both or neither. */
  lemma PassLeaves(b: Broker, name: Bytes, now: int, up: Pattern, hash: Hash)
    requires HasHead(b, name) && Head(b, name).queue == DLQName(name)
    ensures var (t, r, more) := RetryHead(b, name, now, up, hash);
            var m, d, e := Head(b, name), b.store.disk.records, t.store.disk.records;
            var own, other := Key(DLQName(name), m.id), Key(name, m.id);
            && (r == CopyNotSaved ==> e == d)
            && (r.OldNotDeleted? ==> e == if r.undone then d - {other} else d[other := CopyOf(m, name, now)])
            && (r in {AllRetried, NoTarget, NotRestored} ==> e == d[other := CopyOf(m, name, now)] - {own})
            && (r == Restored ==> e == (d - {other})[own := m])
            && (r == CopyLeft ==> e == d[other := CopyOf(m, name, now)][own := m])
  {
    hide Enqueue, Pull, DLQName;
    DLQDiffers(name);
    var m, d := Head(b, name), b.store.disk.records;
    TwoKeys(d, Key(DLQName(name), m.id), Key(name, m.id), CopyOf(m, name, now), m);
  }

  lemma TwoKeys(d: map<Key, Message>, own: Key, other: Key, copy: Message, m: Message)
    requires own != other
    ensures d[other := copy] - {other} == d - {other}
    ensures (d[other := copy] - {own})[own := m] == d[other := copy][own := m]
    ensures d[other := copy][own := m] - {other} == (d - {other})[own := m]
  {
  }

  /** A retry counts what left the DLQ; there is nothing to count without one. */
  lemma RetryTells(b: Broker, name: Bytes, now: int, up: Pattern, hash: Hash)
    ensures var (t, n, r) := RetryDLQ(b, name, now, up, hash);
            if DLQName(name) !in b.queues then t == b && n == 0 && r == AllRetried
            else
              && RetriedFirst(GetOrCreate(b, name, up).0, t, name, now, n)
              && (r == AllRetried <==> n == |b.queues[DLQName(name)].pending|)
  {
    hide GetOrCreate, RetryLoop, RetriedFirst;
    if DLQName(name) in b.queues {
      DLQDiffers(name);
      CreateTells(b, name, up);
      RetriesPrefix(GetOrCreate(b, name, up).0, name, 0, now, up, hash);
      FailsBeforeEnd(GetOrCreate(b, name, up).0, name, 0, now, up, hash);
    }
  }

  lemma {:induction false} FailsBeforeEnd(b: Broker, name: Bytes, k: nat, now: int, up: Pattern, hash: Hash)
    requires DLQName(name) in b.queues
    ensures var (t, n, r) := RetryLoop(b, name, k, now, up, hash);
            r != AllRetried ==> n < k + |b.queues[DLQName(name)].pending|
    decreases |b.queues[DLQName(name)].pending|
  {
    hide RetryHead, DLQName;
    if b.queues[DLQName(name)].pending != [] {
      var (b1, r, more) := RetryHead(b, name, now, up, hash);
      PassShrinks(b, name, now, up, hash);
      if more { FailsBeforeEnd(b1, name, k + 1, now, up, hash); }
    }
  }

  /** A purge succeeds if and only if there is no such queue or every batch was deleted; the queue
      then holds nothing, and otherwise what it held. */
  lemma HandlePurgeTells(b: Broker, name: Bytes, batches: seq<set<Bytes>>, up: Pattern)
    requires name in b.queues ==> Agrees(b.queues[name])
    ensures var (t, ok) := PurgeQueue(b, name, batches, up);
            && (ok <==> name !in b.queues || DeleteBatches(b.store, name, batches, up).1)
            && (ok && name in b.queues ==> name in t.queues && forall id :: !Holds(t.queues[name], id))
            && (!ok ==> t.queues == b.queues) && OthersSame(b, t, name) && t.queues.Keys == b.queues.Keys
  {
    hide DeleteBatches, Agrees;
    if name in b.queues { PurgeTells(b.queues[name]); }
  }
}
