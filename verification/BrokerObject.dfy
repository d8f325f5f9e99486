/**
 The broker and its storage as objects. The storage's calls succeed or fail as `up` says;
 the broker's methods take their objects' values from one model state to the next.
 */
module BrokerObject {
  import opened Types
  import M = QueueModel
  import R = QueueRuns
  import B = BrokerModel
  import H = Handlers
  import P = Purging
  import T = Retry
  import opened QueueObject

  class Storage {
    const up: B.Pattern
    var configs: map<Bytes, B.Config>
    var records: map<B.Key, Message>
    var calls: nat
    ghost var trail: seq<B.Disk>

    ghost function Value(): B.Store
      reads this
    {
      B.Store(B.Disk(configs, records), calls, trail)
    }

    constructor (up: B.Pattern)
      ensures Value() == B.Store(B.Disk(map[], map[]), 0, []) && this.up == up
    {
      this.up := up;
      configs, records, calls, trail := map[], map[], 0, [];
    }

    method SaveMessage(m: Message) returns (ok: bool)
      modifies this
      ensures (Value(), ok) == B.SaveMessage(old(Value()), m, up)
    {
      ok := up(calls);
      if ok { records := records[B.Key(m.queue, m.id) := m]; }
      calls, trail := calls + 1, trail + [B.Disk(configs, records)];
    }

    method DeleteMessage(queue: Bytes, id: Bytes) returns (ok: bool)
      modifies this
      ensures (Value(), ok) == B.DeleteMessage(old(Value()), queue, id, up)
    {
      ok := up(calls);
      if ok { records := records - {B.Key(queue, id)}; }
      calls, trail := calls + 1, trail + [B.Disk(configs, records)];
    }

    /** Up to a batch of ids, whichever come first. */
    method TakeBatch(ids: set<Bytes>) returns (batch: set<Bytes>)
      ensures batch <= ids && |batch| == (if |ids| < B.DELETE_BATCH then |ids| else B.DELETE_BATCH)
    {
      batch := {};
      var left := ids;
      while left != {} && |batch| < B.DELETE_BATCH
        invariant batch <= ids && left == ids - batch && |batch| <= B.DELETE_BATCH
        decreases |left|
      {
        var id :| id in left;
        batch, left := batch + {id}, left - {id};
      }
      assert left == {} ==> batch == ids;
      assert left != {} ==> |ids| == |batch| + |left| by { assert ids == batch + left; }
    }

    method DeleteBatch(queue: Bytes, ids: set<Bytes>) returns (ok: bool)
      modifies this
      ensures (Value(), ok) == B.Call(old(Value()), B.WithoutIds(old(Value()).disk, queue, ids), up)
    {
      ok := up(calls);
      if ok { records := map k | k in records && !(k.queue == queue && k.id in ids) :: records[k]; }
      calls, trail := calls + 1, trail + [B.Disk(configs, records)];
    }

    /** Finds and deletes a batch at a time, until nothing is found or a delete fails. */
    method DeleteQueueMessages(queue: Bytes) returns (ok: bool, ghost batches: seq<set<Bytes>>)
      modifies this
      ensures B.Batched(B.StoredIds(old(Value()).disk, queue), batches)
      ensures (Value(), ok) == B.DeleteBatches(old(Value()), queue, batches, up)
    {
      hide B.StoredIds, B.WithoutIds, B.Batched, B.DeleteBatches, P.Progress;
      ghost var done: seq<set<Bytes>> := [];
      ok := true;
      P.Untouched(Value(), queue, up);
      while true
        invariant P.Progress(old(Value()), Value(), queue, done, up)
        decreases |B.StoredIds(Value().disk, queue)|
      {
        ghost var before := Value();
        var ids := set k | k in records && k.queue == queue :: k.id;
        assert ids == B.StoredIds(before.disk, queue) by { P.SameIds(before.disk, queue, ids); }
        var batch := TakeBatch(ids);
        if batch == {} {
          P.Finished(old(Value()), before, queue, done, up);
          return true, done;
        }
        ok := DeleteBatch(queue, batch);
        if !ok {
          batches := P.GaveUp(old(Value()), before, queue, done, batch, up);
          return false, batches;
        }
        P.Deleted(old(Value()), before, queue, done, batch, up);
        done := done + [batch];
      }
    }

    /** A call that only reads; it may fail too. */
    method Read() returns (ok: bool)
      modifies this
      ensures configs == old(configs) && records == old(records)
    {
      ok := up(calls);
      calls, trail := calls + 1, trail + [B.Disk(configs, records)];
    }

    method SaveQueue(name: Bytes, c: B.Config) returns (ok: bool)
      modifies this
      ensures (Value(), ok) == B.SaveQueue(old(Value()), name, c, up)
    {
      ok := up(calls);
      if ok { configs := configs[name := c]; }
      calls, trail := calls + 1, trail + [B.Disk(configs, records)];
    }
  }

  class Broker {
    const storage: Storage
    const hash: M.Hash
    var queues: map<Bytes, Queue>

    ghost function Objects(): set<Queue>
      reads this
    {
      set n | n in queues :: queues[n]
    }

    ghost predicate Valid()
      reads this, Objects()
    {
      && (forall n :: n in queues ==> queues[n].name == n && queues[n].hash == hash)
      && (forall n, k :: n in queues && k in queues && queues[n] == queues[k] ==> n == k)
    }

    ghost function States(): map<Bytes, M.Queue>
      reads this, Objects()
    {
      map n | n in queues :: queues[n].State()
    }

    ghost function Value(): B.Broker
      reads this, Objects(), storage
    {
      B.Broker(States(), storage.Value())
    }

    /** Only the named queue has changed. */
    twostate lemma OneChanged(name: Bytes)
      requires old(Valid()) && queues == old(queues) && name in queues
      requires forall n :: n in queues && n != name ==> unchanged(queues[n])
      ensures Valid() && States() == old(States())[name := queues[name].State()]
    {
    }

    twostate lemma NoneChanged()
      requires queues == old(queues)
      requires forall n :: n in queues ==> unchanged(queues[n])
      ensures States() == old(States())
    {
    }

    constructor (storage: Storage, hash: M.Hash)
      ensures Valid() && this.storage == storage && this.hash == hash
      ensures Value() == B.Broker(map[], storage.Value())
    {
      this.storage := storage;
      this.hash := hash;
      queues := map[];
    }

    method AddQueue(name: Bytes) returns (q: Queue)
      requires Valid() && name !in queues
      modifies this
      ensures Valid() && fresh(q) && queues == old(queues)[name := q]
      ensures States() == old(States())[name := M.NewQueue(name)]
      ensures Objects() == old(Objects()) + {q}
    {
      hide M.NewQueue;
      q := new Queue(name, hash);
      NoneChanged();
      queues := queues[name := q];
      forall o | o in old(Objects()) ensures o in Objects() {
        var n :| n in old(queues) && old(queues)[n] == o;
        assert queues[n] == o;
      }
      assert queues[name] == q;
    }

    /** The queue, created if needed; null if its config could not be saved. */
    method GetOrCreateQueueWithError(name: Bytes) returns (q: Queue?)
      requires Valid()
      modifies this, storage
      ensures Valid() && fresh(Objects() - old(Objects())) && old(Objects()) <= Objects()
      ensures q != null <==> name in queues
      ensures q != null ==> queues[name] == q
      ensures Value() == B.GetOrCreate(old(Value()), name, storage.up).0
    {
      hide M.NewQueue;
      if name in queues { return queues[name]; }
      var ok := storage.SaveQueue(name, B.DEFAULT_CONFIG);
      NoneChanged();
      if !ok { return null; }
      q := AddQueue(name);
    }

    method PublishTo(q: Queue, m: Message, now: int) returns (r: B.PublishResult)
      requires Valid() && m.queue in queues && queues[m.queue] == q
      modifies storage, q
      ensures Valid()
      ensures (Value(), r) == B.PublishTo(old(Value()), m, now, storage.up, hash)
    {
      hide M.TryDeliver, M.Push, B.SaveMessage, B.DeleteMessage;
      var saved := storage.SaveMessage(m);
      NoneChanged();
      if !saved { return B.MessageNotSaved; }
      var enqueued := q.Enqueue(m, now);
      OneChanged(m.queue);
      if !enqueued {
        assert States() == old(States());
        label full:
        var undone := storage.DeleteMessage(m.queue, m.id);
        NoneChanged@full();
        return if undone then B.RolledBack else B.RollbackFailed;
      }
      return B.Published;
    }

    method HandlePublish(m: Message, now: int) returns (r: B.PublishResult)
      requires Valid()
      modifies this, storage, Objects()
      ensures Valid() && fresh(Objects() - old(Objects()))
      ensures (Value(), r) == B.Publish(old(Value()), m, now, storage.up, hash)
    {
      hide B.GetOrCreate, B.PublishTo;
      var q := GetOrCreateQueueWithError(m.queue);
      if q == null { return B.ConfigNotSaved; }
      r := PublishTo(q, m, now);
    }

    method HandleConsume(name: Bytes, consumer: nat, seconds: nat, now: int) returns (ok: bool)
      requires Valid()
      modifies this, storage, Objects()
      ensures Valid() && fresh(Objects() - old(Objects()))
      ensures Value() == B.Consume(old(Value()), name, consumer, B.VisibilityTimeout(seconds), now, storage.up, hash)
      ensures ok == B.GetOrCreate(old(Value()), name, storage.up).1
    {
      hide B.GetOrCreate, M.AddConsumer;
      var timeout := 30 * 1_000_000_000;
      if seconds > 0 { timeout := seconds * 1_000_000_000; }
      var q := GetOrCreateQueueWithError(name);
      if q == null { return false; }
      label created:
      q.Dequeue(consumer, timeout, now);
      OneChanged@created(name);
      return true;
    }

    /** The hook that deletes the record runs under the queue's lock, before the ack. */
    method HandleAck(name: Bytes, id: Bytes, now: int) returns (r: M.AckResult)
      requires Valid()
      modifies storage, Objects()
      ensures Valid()
      ensures (Value(), r) == B.HandleAck(old(Value()), name, id, now, storage.up, hash)
    {
      hide M.Ack, B.DeleteMessage;
      if name !in queues || id !in queues[name].inFlight { return M.AckNotFound; }
      var q := queues[name];
      var ok := storage.DeleteMessage(name, id);
      NoneChanged();
      r := q.AckWithHook(id, ok, now);
      OneChanged(name);
    }

    /** The dead-letter branch: `m` has just left queue `name`. Errors on the DLQ's side are
        ignored; the message is shared, so its current value is what gets saved. */
    method JoinDLQ(name: Bytes, m: Message, now: int) returns (r: B.HandleNackResult)
      requires Valid() && name in queues
      modifies this, storage, Objects()
      ensures Valid() && fresh(Objects() - old(Objects()))
      ensures (Value(), r) == B.JoinDLQ(old(Value()), name, m, now, storage.up, hash)
    {
      hide B.GetOrCreate, M.Enqueue, B.DeleteMessage, B.SaveMessage;
      var dlq := GetOrCreateQueueWithError(B.DLQName(name));
      if dlq == null { return B.NoDLQ; }
      r := DepositInDLQ(dlq, name, m.(queue := B.DLQName(name), visibleAt := now), now);
    }

    method DepositInDLQ(dlq: Queue, name: Bytes, moved: Message, now: int) returns (r: B.HandleNackResult)
      requires Valid() && moved.queue in queues && queues[moved.queue] == dlq
      modifies storage, dlq
      ensures Valid()
      ensures (Value(), r) == B.Deposit(old(Value()), name, moved, now, storage.up, hash)
    {
      hide M.Enqueue, B.DeleteMessage, B.SaveMessage;
      var enqueued := dlq.Enqueue(moved, now);
      OneChanged(moved.queue);
      label joined:
      var deleted := storage.DeleteMessage(name, moved.id);
      var saved := storage.SaveMessage(if moved.id in dlq.inFlight then dlq.inFlight[moved.id] else moved);
      NoneChanged@joined();
      return B.Moved(deleted, saved, enqueued);
    }

    method HandleNack(name: Bytes, id: Bytes, requeue: bool, now: int) returns (r: B.HandleNackResult)
      requires Valid()
      modifies this, storage, Objects()
      ensures Valid() && fresh(Objects() - old(Objects()))
      ensures (Value(), r) == B.HandleNack(old(Value()), name, id, requeue, now, storage.up, hash)
    {
      hide M.TryDeliver, M.Requeue, B.DeleteMessage, B.SaveMessage, B.JoinDLQ;
      if name !in queues || id !in queues[name].inFlight { return B.NotInFlight; }
      var q := queues[name];
      var verdict := Verdict(q, id, requeue);
      var hookOk := true;
      if verdict == M.ToDrop {
        hookOk := storage.DeleteMessage(name, id);
      } else if verdict == M.ToRequeue {
        hookOk := storage.SaveMessage(q.inFlight[id].(visibleAt := now));
      }
      NoneChanged();
      var result := q.NackWithHooks(id, requeue, hookOk, now);
      OneChanged(name);
      if result.NackToDLQ? {
        r := JoinDLQ(name, result.msg, now);
      } else if result.NackHookFailed? {
        return B.NackFailed;
      } else if result.NackDropped? {
        return B.DroppedFor;
      } else {
        return B.RequeuedFor;
      }
    }

    /** What the nack will come to, so that the right hook can run first. */
    method Verdict(q: Queue, id: Bytes, requeue: bool) returns (v: M.Verdict)
      requires id in q.inFlight
      ensures v == M.NackVerdict(q.State(), q.inFlight[id], requeue)
    {
      if !requeue {
        return if q.failurePolicy == DeadLetter then M.ToDLQ else M.ToDrop;
      }
      if q.inFlight[id].attempt >= q.maxRetries {
        if q.failurePolicy == DeadLetter { return M.ToDLQ; }
        if q.failurePolicy == DropMessage { return M.ToDrop; }
      }
      return M.ToRequeue;
    }

    method PurgeQueue(name: Bytes) returns (count: nat, ok: bool, ghost batches: seq<set<Bytes>>)
      requires Valid()
      modifies storage, Objects()
      ensures Valid()
      ensures B.Batched(B.StoredIds(old(Value()).store.disk, name), batches)
      ensures (Value(), ok) == B.PurgeQueue(old(Value()), name, batches, storage.up)
      ensures count == if name in queues && ok then old(|queues[name].messages| + |queues[name].inFlight|) else 0
    {
      hide B.Batched, B.StoredIds, B.DeleteBatches;
      if name !in queues {
        batches := P.AnyBatches(B.StoredIds(Value().store.disk, name));
        return 0, true, batches;
      }
      ok, batches := storage.DeleteQueueMessages(name);
      NoneChanged();
      if !ok { return 0, false, batches; }
      count := queues[name].Purge();
      OneChanged(name);
    }

    /** The target takes the copy and the head leaves the DLQ, or the head's record is put back. */
    method RetryEnqueue(q: Queue, dlq: Queue, name: Bytes, now: int) returns (r: B.RetryResult, more: bool)
      requires Valid() && name in queues && queues[name] == q
      requires B.DLQName(name) in queues && queues[B.DLQName(name)] == dlq && dlq.messages != []
      modifies storage, q, dlq
      ensures Valid()
      ensures (Value(), r, more) == B.RetryEnqueue(old(Value()), name, now, storage.up, hash)
    {
      hide M.TryDeliver, M.Push, B.SaveMessage, B.DeleteMessage, R.Pull;
      H.DLQDiffers(name);
      var msg := dlq.messages[0];
      var enqueued := q.Enqueue(msg.(queue := name, attempt := 0, visibleAt := now), now);
      OneChanged(name);
      if enqueued {
        label taken:
        dlq.PopRetried();
        OneChanged@taken(B.DLQName(name));
        return B.AllRetried, true;
      }
      assert States() == old(States());
      label full:
      var restored := storage.SaveMessage(msg);
      NoneChanged@full();
      if !restored { return B.NotRestored, false; }
      var undone := storage.DeleteMessage(name, msg.id);
      NoneChanged@full();
      return if undone then B.Restored else B.CopyLeft, false;
    }

    method RetryHead(dlq: Queue, name: Bytes, now: int) returns (r: B.RetryResult, more: bool)
      requires Valid() && B.DLQName(name) in queues && queues[B.DLQName(name)] == dlq && dlq.messages != []
      modifies storage, Objects()
      ensures Valid() && queues == old(queues)
      ensures (Value(), r, more) == B.RetryHead(old(Value()), name, now, storage.up, hash)
    {
      hide B.SaveMessage, B.DeleteMessage, B.RetryEnqueue;
      var msg := dlq.messages[0];
      var saved := storage.SaveMessage(msg.(queue := name, attempt := 0, visibleAt := now));
      NoneChanged();
      if !saved { return B.CopyNotSaved, false; }
      var deleted := storage.DeleteMessage(B.DLQName(name), msg.id);
      NoneChanged();
      if !deleted {
        var undone := storage.DeleteMessage(name, msg.id);
        NoneChanged();
        return B.OldNotDeleted(undone), false;
      }
      if name !in queues { return B.NoTarget, false; }
      r, more := RetryEnqueue(queues[name], dlq, name, now);
    }

    method RetryDLQ(name: Bytes, now: int) returns (retried: nat, r: B.RetryResult)
      requires Valid()
      modifies this, storage, Objects()
      ensures Valid() && fresh(Objects() - old(Objects()))
      ensures (Value(), retried, r) == B.RetryDLQ(old(Value()), name, now, storage.up, hash)
    {
      hide B.GetOrCreate, B.RetryHead;
      var dlqName := B.DLQName(name);
      if dlqName !in queues { return 0, B.AllRetried; }
      var q := GetOrCreateQueueWithError(name);
      label started:
      var dlq := queues[dlqName];
      retried := 0;
      while dlq.messages != []
        invariant Valid() && dlqName in queues && queues[dlqName] == dlq && queues == old@started(queues)
        invariant B.RetryLoop(Value(), name, retried, now, storage.up, hash) ==
                  B.RetryLoop(old@started(Value()), name, 0, now, storage.up, hash)
        decreases |dlq.messages|
      {
        var more;
        ghost var before := Value();
        r, more := RetryHead(dlq, name, now);
        T.PassShrinks(before, name, now, storage.up, hash);
        assert Value().queues[dlqName].pending == dlq.messages;
        if !more { return; }
        retried := retried + 1;
      }
      return retried, B.AllRetried;
    }

    /** The stored settings applied to a new queue. */
    method Configure(q: Queue, c: B.Config)
      requires q.State() == M.NewQueue(q.name)
      modifies q
      ensures q.State() == B.ConfiguredQueue(q.name, c)
    {
      if c.maxSizeSet || c.maxSize != 0 { q.SetMaxSize(c.maxSize); }
      if c.maxRetries != 0 { q.SetMaxRetries(c.maxRetries); }
      if c.policy.Some? { q.SetFailurePolicy(c.policy.value); }
    }

    /** Enqueues the queue's stored messages, in the order the scan yields them. */
    method Refill(q: Queue, now: int, ghost d: B.Disk) returns (ghost ids: seq<Bytes>)
      requires d.records == storage.records && q.hash == hash
      modifies q
      ensures B.Listing(d, q.name, ids)
      ensures q.State() == B.Refill(old(q.State()), d, ids, now, hash)
    {
      hide M.EnqueueDirect;
      ids := [];
      var todo := set k | k in storage.records && k.queue == q.name;
      while todo != {}
        invariant todo <= set k | k in storage.records && k.queue == q.name
        invariant forall id :: id in ids <==> B.Key(q.name, id) in d.records && B.Key(q.name, id) !in todo
        invariant forall i, j :: 0 <= i < j < |ids| ==> ids[i] != ids[j]
        invariant q.State() == B.Refill(old(q.State()), d, ids, now, hash)
        decreases |todo|
      {
        var k :| k in todo;
        assert k == B.Key(q.name, k.id);
        todo := todo - {k};
        q.EnqueueDirect(B.Reloaded(storage.records[k]), now);
        assert (ids + [k.id])[..|ids|] == ids;
        ids := ids + [k.id];
      }
    }

    method Rebuild(q: Queue, c: B.Config, now: int, ghost d: B.Disk)
      requires q.State() == M.NewQueue(q.name) && d.records == storage.records && q.hash == hash
      modifies q
      ensures B.Rebuilt(d, q.name, c, q.State(), now, hash)
    {
      Configure(q, c);
      ghost var ids := Refill(q, now, d);
    }

    method RebuildNamed(name: Bytes, c: B.Config, now: int, ghost d: B.Disk)
      requires Valid() && name in queues && queues[name].State() == M.NewQueue(name) && d.records == storage.records
      modifies queues[name]
      ensures Valid() && States() == old(States())[name := queues[name].State()]
      ensures B.Rebuilt(d, name, c, queues[name].State(), now, hash)
    {
      hide M.NewQueue, B.Rebuilt;
      Rebuild(queues[name], c, now, d);
      OneChanged(name);
    }

    /** Reads the stored messages and creates the queue, which saves a default config over
        the stored one. */
    method CreateStored(name: Bytes) returns (q: Queue?)
      requires Valid() && name !in queues
      modifies this, storage
      ensures Valid() && storage.records == old(storage.records)
      ensures q == null ==> queues == old(queues) && States() == old(States())
      ensures q == null ==> storage.configs == old(storage.configs)
      ensures q != null ==> fresh(q) && queues == old(queues)[name := q] && q.State() == M.NewQueue(name)
      ensures q != null ==> States() == old(States())[name := M.NewQueue(name)]
      ensures q != null ==> storage.configs == old(storage.configs)[name := B.DEFAULT_CONFIG]
    {
      hide M.NewQueue;
      var ok := storage.Read();
      NoneChanged();
      if !ok { return null; }
      ok := storage.SaveQueue(name, B.DEFAULT_CONFIG);
      NoneChanged();
      if !ok { return null; }
      q := AddQueue(name);
      assert States()[name] == M.NewQueue(name);
    }

    /** The queues outside `todo` are rebuilt from `d`; the rest are still to come. */
    ghost predicate Loading(d: B.Disk, todo: set<Bytes>, now: int)
      reads this, Objects(), storage
    {
      && Valid() && storage.records == d.records && todo <= d.configs.Keys
      && States().Keys == d.configs.Keys - todo && storage.configs.Keys == d.configs.Keys
      && (forall n :: n in States() ==> storage.configs[n] == B.DEFAULT_CONFIG)
      && (forall n :: n in States() ==> B.Rebuilt(d, n, d.configs[n], States()[n], now, hash))
    }

    /** One stored queue, rebuilt. */
    method LoadQueue(name: Bytes, c: B.Config, now: int, ghost d: B.Disk) returns (ok: bool)
      requires Valid() && name !in queues && d.records == storage.records
      modifies this, storage
      ensures Valid() && storage.records == old(storage.records)
      ensures !ok ==> States() == old(States()) && storage.configs == old(storage.configs)
      ensures ok ==> storage.configs == old(storage.configs)[name := B.DEFAULT_CONFIG]
      ensures ok ==> name in States() && States() == old(States())[name := States()[name]]
      ensures ok ==> B.Rebuilt(d, name, c, States()[name], now, hash)
    {
      hide M.NewQueue, B.Rebuilt;
      var q := CreateStored(name);
      if q == null { return false; }
      assert queues[name] == q;
      RebuildNamed(name, c, now, d);
      return true;
    }

    method LoadNext(name: Bytes, c: B.Config, now: int, ghost d: B.Disk, ghost todo: set<Bytes>) returns (ok: bool)
      requires Loading(d, todo, now) && name in todo && c == d.configs[name]
      modifies this, storage
      ensures Loading(d, if ok then todo - {name} else todo, now)
    {
      hide B.Rebuilt;
      ok := LoadQueue(name, c, now, d);
    }

    lemma LoadingStarts(now: int)
      requires Valid() && queues == map[]
      ensures Loading(Value().store.disk, storage.configs.Keys, now)
    {
    }

    lemma LoadingEnds(d: B.Disk, now: int)
      requires Loading(d, {}, now)
      ensures Valid() && storage.records == d.records && B.Recovered(d, States(), now, hash)
      ensures storage.configs == map n | n in d.configs :: B.DEFAULT_CONFIG
    {
      hide B.Rebuilt;
    }

    lemma LoadingKeeps(d: B.Disk, todo: set<Bytes>, now: int)
      requires Loading(d, todo, now)
      ensures Valid() && storage.records == d.records && storage.configs.Keys == d.configs.Keys
      ensures forall n :: n in States() ==> n in d.configs && B.Rebuilt(d, n, d.configs[n], States()[n], now, hash)
    {
      hide B.Rebuilt;
    }

    /** Startup: every stored queue is rebuilt, in an arbitrary order. A call that fails ends it,
        with the queues rebuilt so far; the records and the names of the queues stay on disk. */
    method LoadFromStorage(now: int) returns (ok: bool)
      requires Valid() && queues == map[]
      modifies this, storage
      ensures Valid() && storage.records == old(storage.records) && storage.configs.Keys == old(storage.configs).Keys
      ensures forall n :: n in Value().queues ==>
                && n in old(storage.configs)
                && B.Rebuilt(old(Value()).store.disk, n, old(storage.configs)[n], Value().queues[n], now, hash)
      ensures ok ==> B.Recovered(old(Value()).store.disk, Value().queues, now, hash)
      ensures ok ==> storage.configs == map n | n in old(storage.configs) :: B.DEFAULT_CONFIG
    {
      hide Loading, B.Recovered, B.Rebuilt;
      ghost var d := Value().store.disk;
      ok := storage.Read();
      var cfgs := storage.configs;
      LoadingStarts(now);
      LoadingKeeps(d, storage.configs.Keys, now);
      if !ok { return; }
      assert Value().store.disk == d;
      var todo := cfgs.Keys;
      while todo != {}
        invariant Loading(d, todo, now) && cfgs == d.configs && todo <= cfgs.Keys && ok
        decreases |todo|
      {
        var name :| name in todo;
        ok := LoadNext(name, cfgs[name], now, d, todo);
        LoadingKeeps(d, if ok then todo - {name} else todo, now);
        if !ok { return; }
        todo := todo - {name};
      }
      LoadingKeeps(d, {}, now);
      LoadingEnds(d, now);
    }
  }
}
