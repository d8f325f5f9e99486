/**
 Recovery: what LoadFromStorage rebuilds from a disk.
 */
module Recovery {
  import opened Types
  import opened QueueModel
  import opened QueueRuns
  import opened QueueHoldings
  import opened BrokerModel
  import opened Durability
  import opened Handlers
  import opened Purging
  import opened Retry
  import opened QueueTheorems

  lemma ConfiguredOk(name: Bytes, c: Config)
    ensures var q := ConfiguredQueue(name, c);
            Agrees(q) && Held(q) == map[] && q.name == name && q.consumers == [] && q.inFlight == map[]
  {
  }

  /** A refilled queue holds exactly the listed records. */
  lemma {:induction false} RefillHeld(q: Queue, d: Disk, ids: seq<Bytes>, now: int, hash: Hash)
    requires Agrees(q) && Held(q) == map[] && q.consumers == [] && q.inFlight == map[]
    requires forall id :: id in ids ==> Key(q.name, id) in d.records && d.records[Key(q.name, id)].id == id
    requires forall id :: id in ids ==> d.records[Key(q.name, id)].sequence == 0
    requires forall i, j :: 0 <= i < j < |ids| ==> ids[i] != ids[j]
    ensures var t := Refill(q, d, ids, now, hash);
            && Agrees(t) && t.name == q.name && t.consumers == [] && t.inFlight == map[]
            && Held(t).Keys == (set i | 0 <= i < |ids| :: ids[i])
            && forall id :: id in Held(t) ==> Key(q.name, id) in d.records && Held(t)[id] == d.records[Key(q.name, id)]
  {
    hide Agrees, Held;
    if ids != [] {
      var p, id := ids[..|ids| - 1], ids[|ids| - 1];
      var m := d.records[Key(q.name, id)];
      assert Reloaded(m) == m;
      RefillHeld(q, d, p, now, hash);
      var r := Refill(q, d, p, now, hash);
      assert (set i | 0 <= i < |ids| :: ids[i]) == (set i | 0 <= i < |p| :: p[i]) + {id};
      assert id !in Held(r);
      PushHeld(r, m, now, hash);
    }
  }

  lemma PushHeld(q: Queue, m: Message, now: int, hash: Hash)
    requires Agrees(q) && m.id !in Held(q) && q.consumers == []
    ensures var t := EnqueueDirect(q, m, now, hash);
            && Agrees(t) && t.name == q.name && t.consumers == [] && t.inFlight == q.inFlight
            && Held(t) == Held(q)[m.id := m]
  {
    hide Agrees, Held;
    NotHeld(q, m.id);
    EnqueueAgrees(q, m, now, hash);
    HeldIsLive(q);
    HeldIsLive(EnqueueDirect(q, m, now, hash));
    Grow(q.log, Enqueued(m));
  }

  /** Each recovered queue holds exactly its records. */
  lemma RecoveredHeld(d: Disk, queues: map<Bytes, Queue>, n: Bytes, now: int, hash: Hash)
    requires Catalogued(d) && Recovered(d, queues, now, hash) && n in queues
    ensures Agrees(queues[n]) && queues[n].name == n && queues[n].inFlight == map[]
    ensures forall id :: id in Held(queues[n]) <==> Key(n, id) in d.records
    ensures forall id :: id in Held(queues[n]) ==> Held(queues[n])[id] == d.records[Key(n, id)]
  {
    hide Agrees, Held, Refill;
    assert Rebuilt(d, n, d.configs[n], queues[n], now, hash);
    var ids :| Listing(d, n, ids) && queues[n] == Refill(ConfiguredQueue(n, d.configs[n]), d, ids, now, hash);
    ConfiguredOk(n, d.configs[n]);
    RefillHeld(ConfiguredQueue(n, d.configs[n]), d, ids, now, hash);
  }

  /** Whatever disk a crash leaves, recovery from it brings back every accepted message. */
  lemma RecoveryFinds(d: Disk, queues: map<Bytes, Queue>, acc: Accepted, now: int, hash: Hash)
    requires Catalogued(d) && Survives(d, acc) && Recovered(d, queues, now, hash)
    ensures forall id :: id in acc ==>
              exists n :: n in queues && id in Held(queues[n]) && ContentOf(Held(queues[n])[id]) == acc[id]
  {
    hide Agrees, Held, Rebuilt;
    forall id | id in acc
      ensures exists n :: n in queues && id in Held(queues[n]) && ContentOf(Held(queues[n])[id]) == acc[id]
    {
      assert StoredAs(d, id, acc[id]);
      var n :| Key(n, id) in d.records && n in d.configs && ContentOf(d.records[Key(n, id)]) == acc[id];
      RecoveredHeld(d, queues, n, now, hash);
    }
  }

  /** The broker after a restart: rebuilt queues, and a store whose configs were written anew
      with default settings as each queue was created. */
  function Restarted(b: Broker, queues: map<Bytes, Queue>): Broker {
    var d := b.store.disk;
    Broker(queues, b.store.(disk := Disk(map n | n in d.configs :: DEFAULT_CONFIG, d.records)))
  }

  /** A shelf that is exactly the records of its queue. */
  ghost predicate FromRecords(n: Bytes, h: Shelf, records: map<Key, Message>) {
    && (forall id :: id in h <==> Key(n, id) in records)
    && (forall id :: id in h && Key(n, id) in records ==> h[id] == records[Key(n, id)])
  }

  /** From an exact broker, a restart restores exactly the live messages, each as recorded. */
  lemma RestartExact(b: Broker, queues: map<Bytes, Queue>, now: int, hash: Hash)
    requires Exact(b) && Recovered(b.store.disk, queues, now, hash)
    ensures Exact(Restarted(b, queues))
    ensures forall n :: n in queues ==>
              Held(queues[n]).Keys == if n in b.queues then Held(b.queues[n]).Keys else {}
    ensures forall n, id :: n in b.queues && id in Held(b.queues[n]) ==>
              n in queues && id in Held(queues[n]) && Later(Held(queues[n])[id], Held(b.queues[n])[id])
  {
    hide Agrees, Held, Recovered, Later, FromRecords, BackedBy, Catalogued, NoStrays, OneHome;
    var t := Restarted(b, queues);
    RestartHeld(b, queues, now, hash);
    RestartShelves(HomesOf(b), b.store.disk, HomesOf(t));
    RestartSound(HomesOf(b), b.store.disk, HomesOf(t), t.store.disk);
    forall n, id | n in b.queues && id in Held(b.queues[n])
      ensures n in queues && id in Held(queues[n]) && Later(Held(queues[n])[id], Held(b.queues[n])[id])
    {
      assert id in HomesOf(b)[n];
    }
    forall n | n in queues ensures Held(queues[n]).Keys == if n in b.queues then Held(b.queues[n]).Keys else {} {
      assert HomesOf(t)[n] == Held(queues[n]);
    }
  }

  lemma RestartHeld(b: Broker, queues: map<Bytes, Queue>, now: int, hash: Hash)
    requires Catalogued(b.store.disk) && Recovered(b.store.disk, queues, now, hash)
    ensures QueuesOk(Restarted(b, queues)) && queues.Keys == b.store.disk.configs.Keys
    ensures forall n :: n in queues ==> FromRecords(n, Held(queues[n]), b.store.disk.records)
  {
    hide Agrees, Held, NoStrays, BackedBy, OneHome;
    forall n | n in queues
      ensures Agrees(queues[n]) && queues[n].name == n && FromRecords(n, Held(queues[n]), b.store.disk.records)
    {
      RecoveredHeld(b.store.disk, queues, n, now, hash);
    }
  }

  lemma RestartShelves(homes: Homes, d: Disk, rebuilt: Homes)
    requires SoundView(homes, d) && NoStrays(homes, d) && rebuilt.Keys == d.configs.Keys
    requires forall n :: n in rebuilt ==> FromRecords(n, rebuilt[n], d.records)
    ensures forall n :: n in rebuilt ==> rebuilt[n].Keys == if n in homes then homes[n].Keys else {}
    ensures forall n, id :: n in homes && id in homes[n] ==>
              n in rebuilt && id in rebuilt[n] && Later(rebuilt[n][id], homes[n][id])
  {
    hide Later, OneHome, Catalogued;
    forall n | n in rebuilt ensures rebuilt[n].Keys == if n in homes then homes[n].Keys else {} {
      forall id | id in rebuilt[n] ensures n in homes && id in homes[n] {
        assert Key(n, id) in d.records;
      }
    }
    forall n, id | n in homes && id in homes[n]
      ensures n in rebuilt && id in rebuilt[n] && Later(rebuilt[n][id], homes[n][id])
    {
      assert BackedBy(n, homes[n], d.records);
    }
  }

  lemma RestartSound(homes: Homes, d: Disk, rebuilt: Homes, e: Disk)
    requires OneHome(homes) && Catalogued(d) && rebuilt.Keys == d.configs.Keys
    requires e.records == d.records && e.configs.Keys == d.configs.Keys
    requires forall n :: n in rebuilt ==> FromRecords(n, rebuilt[n], d.records)
    requires forall n :: n in rebuilt ==> rebuilt[n].Keys == if n in homes then homes[n].Keys else {}
    ensures SoundView(rebuilt, e) && NoStrays(rebuilt, e)
  {
    hide Filed, BackedBy, OneHome, FromRecords, NoStrays;
    RestartOneHome(homes, rebuilt);
    RestartStrays(d, rebuilt, e);
    forall n | n in rebuilt ensures Filed(n, rebuilt[n]) && BackedBy(n, rebuilt[n], e.records) {
      ShelfBacked(n, rebuilt[n], d);
    }
  }

  lemma ShelfBacked(n: Bytes, h: Shelf, d: Disk)
    requires Catalogued(d) && FromRecords(n, h, d.records)
    ensures Filed(n, h) && BackedBy(n, h, d.records)
  {
  }

  lemma RestartOneHome(homes: Homes, rebuilt: Homes)
    requires OneHome(homes)
    requires forall n :: n in rebuilt ==> rebuilt[n].Keys == if n in homes then homes[n].Keys else {}
    ensures OneHome(rebuilt)
  {
    forall n, k, id | n in rebuilt && k in rebuilt && id in rebuilt[n] && id in rebuilt[k] ensures n == k {
      assert id in rebuilt[n].Keys && id in rebuilt[k].Keys;
    }
  }

  lemma RestartStrays(d: Disk, rebuilt: Homes, e: Disk)
    requires Catalogued(d) && rebuilt.Keys == d.configs.Keys && e.records == d.records
    requires forall n :: n in rebuilt ==> FromRecords(n, rebuilt[n], d.records)
    ensures NoStrays(rebuilt, e)
  {
    forall k | k in e.records ensures k.queue in rebuilt && k.id in rebuilt[k.queue] {
      assert FromRecords(k.queue, rebuilt[k.queue], d.records) && Key(k.queue, k.id) == k;
    }
  }

  // ---------- restarts that are not exact ----------

  lemma ExactOneRecord(b: Broker)
    requires Exact(b)
    ensures OneRecord(b.store.disk)
  {
    hide Agrees, Held, BackedBy, Filed, Catalogued;
    forall j, k | j in b.store.disk.records && k in b.store.disk.records && j.id == k.id ensures j == k {
      assert j.id in HomesOf(b)[j.queue] && k.id in HomesOf(b)[k.queue];
    }
  }

  lemma OneHomeIff(d: Disk, rebuilt: Homes)
    requires Catalogued(d) && rebuilt.Keys == d.configs.Keys
    requires forall n :: n in rebuilt ==> FromRecords(n, rebuilt[n], d.records)
    ensures OneHome(rebuilt) <==> OneRecord(d)
  {
    if OneHome(rebuilt) {
      forall j, k | j in d.records && k in d.records && j.id == k.id ensures j == k {
        assert Key(j.queue, j.id) == j && Key(k.queue, k.id) == k;
        assert FromRecords(j.queue, rebuilt[j.queue], d.records) && FromRecords(k.queue, rebuilt[k.queue], d.records);
        assert j.id in rebuilt[j.queue] && k.id in rebuilt[k.queue];
      }
    }
    if OneRecord(d) {
      forall n, k, id | n in rebuilt && k in rebuilt && id in rebuilt[n] && id in rebuilt[k] ensures n == k {
        assert FromRecords(n, rebuilt[n], d.records) && FromRecords(k, rebuilt[k], d.records);
        assert Key(n, id) in d.records && Key(k, id) in d.records;
      }
    }
  }

  lemma OneRecordFaithful(d: Disk, rebuilt: Homes, acc: Accepted)
    requires OneRecord(d) && Survives(d, acc) && forall n :: n in rebuilt ==> FromRecords(n, rebuilt[n], d.records)
    ensures Faithful(rebuilt, acc)
  {
    forall n, id | n in rebuilt && id in rebuilt[n] && id in acc ensures ContentOf(rebuilt[n][id]) == acc[id] {
      assert FromRecords(n, rebuilt[n], d.records);
      assert StoredAs(d, id, acc[id]);
      var k :| Key(k, id) in d.records && k in d.configs && ContentOf(d.records[Key(k, id)]) == acc[id];
      assert Key(n, id) in d.records && Key(k, id) == Key(n, id);
    }
  }

  /** A restart from a disk that has every accepted message makes a safe broker if and only if no
      message has two records on it; the broker is then exact, whatever was in memory before. */
  lemma RestartSafeIff(b: Broker, queues: map<Bytes, Queue>, acc: Accepted, now: int, hash: Hash)
    requires Catalogued(b.store.disk) && Survives(b.store.disk, acc) && Recovered(b.store.disk, queues, now, hash)
    ensures Safe(Restarted(b, queues), acc) <==> OneRecord(b.store.disk)
    ensures OneRecord(b.store.disk) ==> Exact(Restarted(b, queues))
  {
    hide Agrees, Held, Recovered, FromRecords, Survives, Faithful, NoStrays, OneHome, OneRecord, Catalogued, BackedBy,
      Filed;
    var d, t := b.store.disk, Restarted(b, queues);
    RestartHeld(b, queues, now, hash);
    var rebuilt, e := HomesOf(t), t.store.disk;
    assert forall n :: n in rebuilt ==> FromRecords(n, rebuilt[n], d.records);
    OneHomeIff(d, rebuilt);
    if OneRecord(d) {
      OneRecordFaithful(d, rebuilt, acc);
      SurvivesGrow(d, e, acc);
      RestartStrays(d, rebuilt, e);
      assert Catalogued(e) by { SameCatalogue(d, e); }
      forall n | n in rebuilt ensures Filed(n, rebuilt[n]) && BackedBy(n, rebuilt[n], e.records) {
        ShelfBacked(n, rebuilt[n], d);
      }
    }
  }

  lemma SameCatalogue(d: Disk, e: Disk)
    requires Catalogued(d) && e.records == d.records && e.configs.Keys == d.configs.Keys
    ensures Catalogued(e)
  {
  }

  /** What a retry leaves behind in two places, recovery brings back twice. */
  lemma LeftoverDoubles(b: Broker, name: Bytes, now: int, up: Pattern, hash: Hash, acc: Accepted,
                        queues: map<Bytes, Queue>, later: int)
    requires Safe(b, acc) && Exact(b) && CanRetry(b, name)
    requires RetryHead(b, name, now, up, hash).1 in {CopyLeft, OldNotDeleted(false)}
    requires Recovered(RetryHead(b, name, now, up, hash).0.store.disk, queues, later, hash)
    ensures var id := Head(b, name).id;
            && {name, DLQName(name)} <= queues.Keys
            && id in Held(queues[name]) && id in Held(queues[DLQName(name)])
  {
    hide Agrees, Held, Safe, Exact, RetryHead, Rebuilt, Catalogued, DLQName;
    HeadFacts(b, name, acc);
    PassImages(b, name, now, up, hash, acc);
    LeftoverIff(b, name, now, up, hash, acc);
    var d := RetryHead(b, name, now, up, hash).0.store.disk;
    RecoveredHeld(d, queues, name, later, hash);
    RecoveredHeld(d, queues, DLQName(name), later, hash);
  }

  /** A first retry leaves the queues as they are when the old record's delete fails, and takes
      the copy's record away again. */
  lemma DoubledRetry(b: Broker, name: Bytes, now: int, up: Pattern, hash: Hash)
    requires CanRetry(b, name) && up(b.store.calls) && !up(b.store.calls + 1) && up(b.store.calls + 2)
    ensures var (t, n, r) := RetryDLQ(b, name, now, up, hash);
            && r == OldNotDeleted(true) && t.queues == b.queues && t.store.calls == b.store.calls + 3
  {
    hide Enqueue, DLQName;
  }

  /** Why two records are a danger. After a restart that found the head of the DLQ recorded under
      its target too, a retry whose delete fails and whose rollback succeeds, and then a purge of
      the DLQ that succeeds, leave an accepted message in memory with no record of it. */
  lemma DoubledCanLose(b0: Broker, queues: map<Bytes, Queue>, acc: Accepted, later: int, name: Bytes, now: int,
                       up: Pattern, hash: Hash, batches: seq<set<Bytes>>)
    requires Safe(b0, acc) && Recovered(b0.store.disk, queues, later, hash)
    requires CanRetry(Restarted(b0, queues), name) && Head(Restarted(b0, queues), name).id in acc
    requires Key(name, Head(Restarted(b0, queues), name).id) in b0.store.disk.records
    requires forall n :: Key(n, Head(Restarted(b0, queues), name).id) in b0.store.disk.records ==>
               n == name || n == DLQName(name)
    requires up(b0.store.calls) && !up(b0.store.calls + 1) && up(b0.store.calls + 2)
    requires var t := RetryDLQ(Restarted(b0, queues), name, now, up, hash).0;
             && Batched(StoredIds(t.store.disk, DLQName(name)), batches)
             && PurgeQueue(t, DLQName(name), batches, up).1
    ensures var b := Restarted(b0, queues);
            var t := RetryDLQ(b, name, now, up, hash).0;
            var u := PurgeQueue(t, DLQName(name), batches, up).0;
            var id := Head(b, name).id;
            && RetryDLQ(b, name, now, up, hash).2 == OldNotDeleted(true)
            && name in u.queues && id in Held(u.queues[name]) && id !in PurgedIds(t, DLQName(name))
            && !Survives(u.store.disk, acc - PurgedIds(t, DLQName(name)))
  {
    hide Agrees, Held, Safe, Recovered, Survives, Batched, StoredIds, DeleteBatches, RetryDLQ, Restarted, DLQName,
      PurgedIds;
    var b, dlq := Restarted(b0, queues), DLQName(name);
    var id := Head(b, name).id;
    AfterRestart(b0, queues, acc, later, hash, name, id);
    DLQDiffers(name);
    DoubledRetry(b, name, now, up, hash);
    SecondRetry(b, name, now, up, hash);
    var t := RetryDLQ(b, name, now, up, hash).0;
    var st := DeleteBatches(t.store, dlq, batches, up).0;
    DeleteBatchesPrunes(t.store, dlq, batches, up);
    DeleteBatchesAll(t.store, dlq, batches, up);
    NothingLeft(t.store.disk, st.disk, dlq);
    HeldElsewhere(t, dlq, name, id);
    NotStored(st.disk, id, acc - PurgedIds(t, dlq));
  }

  lemma AfterRestart(b0: Broker, queues: map<Bytes, Queue>, acc: Accepted, later: int, hash: Hash, name: Bytes,
                     id: Bytes)
    requires Safe(b0, acc) && Recovered(b0.store.disk, queues, later, hash)
    ensures var b := Restarted(b0, queues);
            && b.queues == queues && b.store.calls == b0.store.calls && b.store.disk.records == b0.store.disk.records
            && (name in queues && Key(name, id) in b0.store.disk.records ==> id in Held(queues[name]))
  {
    hide Agrees, Held, Recovered, Survives, Faithful;
    SoundCatalogued(HomesOf(b0), b0.store.disk);
    hide Catalogued, SoundView;
    if name in queues { RecoveredHeld(b0.store.disk, queues, name, later, hash); }
  }

  lemma HeldElsewhere(b: Broker, purged: Bytes, name: Bytes, id: Bytes)
    requires name in b.queues && name != purged && id in Held(b.queues[name])
    ensures id !in PurgedIds(b, purged)
  {
    hide Held;
  }

  // ---------- settings after restarts ----------

  lemma {:induction false} RefillSettings(q: Queue, d: Disk, ids: seq<Bytes>, now: int, hash: Hash)
    requires q.consumers == [] && forall id :: id in ids ==> Key(q.name, id) in d.records
    ensures var t := Refill(q, d, ids, now, hash);
            SettingsOf(t) == SettingsOf(q) && t.consumers == [] && t.name == q.name
  {
    if ids != [] { RefillSettings(q, d, ids[..|ids| - 1], now, hash); }
  }

  /** A recovered queue has each stored setting, or the default where none was stored; a size of
      zero counts as stored only if it is marked so. */
  lemma RecoveredSettings(d: Disk, queues: map<Bytes, Queue>, n: Bytes, now: int, hash: Hash)
    requires Recovered(d, queues, now, hash) && n in queues
    ensures var c, q := d.configs[n], queues[n];
            && (c.maxSizeSet || c.maxSize != 0 ==> q.maxSize == c.maxSize)
            && (!c.maxSizeSet && c.maxSize == 0 ==> q.maxSize == 10_000)
            && q.maxRetries == (if c.maxRetries == 0 then 5 else c.maxRetries)
            && q.policy == (if c.policy.Some? then c.policy.value else DeadLetter)
  {
    hide Refill;
    assert Rebuilt(d, n, d.configs[n], queues[n], now, hash);
    var ids :| Listing(d, n, ids) && queues[n] == Refill(ConfiguredQueue(n, d.configs[n]), d, ids, now, hash);
    RefillSettings(ConfiguredQueue(n, d.configs[n]), d, ids, now, hash);
  }

  /** The stored settings are the defaults, or leave them. */
  predicate SameAsDefaults(c: Config) {
    && (c.maxSizeSet || c.maxSize != 0 ==> c.maxSize == DEFAULT_MAX_SIZE)
    && (c.maxRetries != 0 ==> c.maxRetries == DEFAULT_MAX_RETRIES)
    && (c.policy.Some? ==> c.policy.value == DeadLetter)
  }

  /** A queue has the same settings after a second restart as after the first if and only if the
      stored ones amount to the defaults. */
  lemma SettingsTwiceIff(b: Broker, first: map<Bytes, Queue>, second: map<Bytes, Queue>, n: Bytes,
                         now: int, later: int, hash: Hash)
    requires Recovered(b.store.disk, first, now, hash) && n in first
    requires Recovered(Restarted(b, first).store.disk, second, later, hash)
    ensures n in second && (SettingsOf(second[n]) == SettingsOf(first[n]) <==> SameAsDefaults(b.store.disk.configs[n]))
  {
    hide Rebuilt;
    RecoveredSettings(b.store.disk, first, n, now, hash);
    RecoveredSettings(Restarted(b, first).store.disk, second, n, later, hash);
  }

  // ---------- visibility after a restart ----------

  /** A recovered queue's messages are visible by `t` if and only if its records are. */
  lemma RecoveredVisibleIff(d: Disk, queues: map<Bytes, Queue>, n: Bytes, now: int, hash: Hash, t: int)
    requires Catalogued(d) && Recovered(d, queues, now, hash) && n in queues
    ensures VisibleBy(queues[n], t) <==> forall id :: Key(n, id) in d.records ==> d.records[Key(n, id)].visibleAt <= t
  {
    hide Agrees, Recovered, Catalogued;
    RecoveredHeld(d, queues, n, now, hash);
    AllPending(queues[n], t);
  }

  lemma AllPending(q: Queue, t: int)
    requires Agrees(q) && q.inFlight == map[]
    ensures VisibleBy(q, t) <==> forall id :: id in Held(q) ==> Held(q)[id].visibleAt <= t
  {
    hide Held;
    forall i: nat | i < |q.pending| ensures q.pending[i].id in Held(q) && Held(q)[q.pending[i].id] == q.pending[i] {
      PendingHeld(q, i);
    }
    forall id | id in Held(q) ensures exists i :: 0 <= i < |q.pending| && q.pending[i].id == id { HeldPending(q, id); }
  }

  lemma HeldPending(q: Queue, id: Bytes)
    requires q.inFlight == map[] && id in Held(q)
    ensures exists i :: 0 <= i < |q.pending| && q.pending[i].id == id
  {
  }

  /** A message moved to the DLQ and then recovered is not visible if and only if the DLQ had
      delivered it at once and that lease has not run out: the lease was saved with it. */
  lemma MovedVisibleIff(b: Broker, name: Bytes, id: Bytes, now: int, up: Pattern, hash: Hash, acc: Accepted,
                        queues: map<Bytes, Queue>, later: int)
    requires Safe(b, acc) && name in b.queues && id in b.queues[name].inFlight && now <= later
    requires var (t, r) := MoveToDLQ(b, name, id, now, up, hash);
             r.Moved? && r.saved && Recovered(t.store.disk, queues, later, hash)
    ensures var dlq, t := DLQName(name), MoveToDLQ(b, name, id, now, up, hash).0;
            && dlq in queues && dlq in t.queues && id in Held(queues[dlq])
            && (Held(queues[dlq])[id].visibleAt > later <==>
                id in t.queues[dlq].inFlight && t.queues[dlq].inFlight[id].visibleAt > later)
  {
    hide Agrees, Held, SoundView, Survives, Recovered, MovedCopy, MoveToDLQ;
    var dlq := DLQName(name);
    var t := MoveToDLQ(b, name, id, now, up, hash).0;
    MoveSafe(b, name, id, now, up, hash, acc);
    SoundCatalogued(HomesOf(t), t.store.disk);
    MovedCopyLater(b, name, id, now, up, hash, acc);
    MoveDisk(b, name, id, now, up, hash);
    MovedCopyIs(b, name, id, now, up, hash);
    KnownQueue(t.store.disk, queues, Key(dlq, id), later, hash);
    RecoveredHeld(t.store.disk, queues, dlq, later, hash);
  }

  lemma KnownQueue(d: Disk, queues: map<Bytes, Queue>, k: Key, now: int, hash: Hash)
    requires Catalogued(d) && Recovered(d, queues, now, hash) && k in d.records
    ensures k.queue in queues
  {
    hide Rebuilt;
  }

  /** What was saved is what the DLQ holds: leased, or waiting since now. */
  lemma MovedCopyIs(b: Broker, name: Bytes, id: Bytes, now: int, up: Pattern, hash: Hash)
    requires name in b.queues && id in b.queues[name].inFlight && b.queues[name].inFlight[id].id == id
    requires MoveToDLQ(b, name, id, now, up, hash).1.Moved?
    ensures var dlq, t := DLQName(name), MoveToDLQ(b, name, id, now, up, hash).0;
            && dlq in t.queues
            && MovedCopy(b, name, id, now, up, hash).visibleAt ==
                 if id in t.queues[dlq].inFlight then t.queues[dlq].inFlight[id].visibleAt else now
  {
    hide Enqueue;
  }
}
