/**
 Purging a queue: its records go in batches, then its messages. A batch that fails after
 another succeeded leaves messages in memory without their records.
 */
module Purging {
  import opened Types
  import opened QueueModel
  import opened QueueRuns
  import opened QueueHoldings
  import opened BrokerModel
  import opened Durability
  import opened Handlers

  // ---------- the disk ----------

  /** `e` is `d` without some of the queue's records. */
  ghost predicate Pruned(d: Disk, e: Disk, queue: Bytes) {
    && e.configs == d.configs
    && (forall k :: k in e.records ==> k in d.records && e.records[k] == d.records[k])
    && (forall k :: k in d.records && k.queue != queue ==> k in e.records)
  }

  lemma PrunedChain(d: Disk, e: Disk, f: Disk, queue: Bytes)
    requires Pruned(d, e, queue) && Pruned(e, f, queue)
    ensures Pruned(d, f, queue)
  {
  }

  /** Records only go, batch by batch. */
  ghost predicate ImagesPruned(a: Store, t: Store, queue: Bytes) {
    && |a.trail| <= |t.trail| && t.trail[..|a.trail|] == a.trail && Pruned(a.disk, t.disk, queue)
    && forall i :: |a.trail| <= i < |t.trail| ==> Pruned(a.disk, t.trail[i], queue) && Pruned(t.trail[i], t.disk, queue)
  }

  lemma ImagesPrunedChain(a: Store, b: Store, c: Store, queue: Bytes)
    requires b.trail == a.trail + [b.disk] && Pruned(a.disk, b.disk, queue) && ImagesPruned(b, c, queue)
    ensures ImagesPruned(a, c, queue)
  {
    hide Pruned;
    PrunedChain(a.disk, b.disk, c.disk, queue);
    forall i | |a.trail| <= i < |c.trail|
      ensures Pruned(a.disk, c.trail[i], queue) && Pruned(c.trail[i], c.disk, queue)
    {
      if i < |b.trail| { assert c.trail[i] == c.trail[..|b.trail|][i] == b.disk; PrunedSelf(b.disk, queue); }
      else { PrunedChain(a.disk, b.disk, c.trail[i], queue); }
    }
    assert c.trail[..|a.trail|] == c.trail[..|b.trail|][..|a.trail|];
  }

  lemma PrunedSelf(d: Disk, queue: Bytes)
    ensures Pruned(d, d, queue)
  {
  }

  lemma {:induction false} DeleteBatchesPrunes(st: Store, queue: Bytes, batches: seq<set<Bytes>>, up: Pattern)
    ensures ImagesPruned(st, DeleteBatches(st, queue, batches, up).0, queue)
    decreases |batches|
  {
    hide Pruned;
    PrunedSelf(st.disk, queue);
    if batches != [] {
      var (st1, ok) := Call(st, WithoutIds(st.disk, queue, batches[0]), up);
      BatchPrunes(st.disk, queue, batches[0]);
      PrunedSelf(st1.disk, queue);
      if ok { DeleteBatchesPrunes(st1, queue, batches[1..], up); }
      ImagesPrunedChain(st, st1, if ok then DeleteBatches(st1, queue, batches[1..], up).0 else st1, queue);
    }
  }

  lemma BatchPrunes(d: Disk, queue: Bytes, ids: set<Bytes>)
    ensures Pruned(d, WithoutIds(d, queue, ids), queue)
    ensures StoredIds(WithoutIds(d, queue, ids), queue) == StoredIds(d, queue) - ids
  {
    var e := WithoutIds(d, queue, ids);
    forall id | id in StoredIds(d, queue) - ids ensures id in StoredIds(e, queue) {
      assert Key(queue, id) in d.records;
      assert Key(queue, id) in e.records;
    }
  }

  /** All batches done, none of the queue's records is left. */
  lemma {:induction false} DeleteBatchesAll(st: Store, queue: Bytes, batches: seq<set<Bytes>>, up: Pattern)
    requires Batched(StoredIds(st.disk, queue), batches) && DeleteBatches(st, queue, batches, up).1
    ensures StoredIds(DeleteBatches(st, queue, batches, up).0.disk, queue) == {}
    decreases |batches|
  {
    hide StoredIds, WithoutIds;
    if batches != [] {
      BatchPrunes(st.disk, queue, batches[0]);
      DeleteBatchesAll(Call(st, WithoutIds(st.disk, queue, batches[0]), up).0, queue, batches[1..], up);
    }
  }

  function WithoutQueue(d: Disk, queue: Bytes): Disk {
    d.(records := map k | k in d.records && k.queue != queue :: d.records[k])
  }

  lemma NothingLeft(d: Disk, e: Disk, queue: Bytes)
    requires Pruned(d, e, queue) && StoredIds(e, queue) == {}
    ensures e == WithoutQueue(d, queue)
  {
    forall k | k in e.records ensures k.queue != queue {
      if k.queue == queue { InStored(e, k); }
    }
  }

  lemma InStored(d: Disk, k: Key)
    requires k in d.records
    ensures k.id in StoredIds(d, k.queue)
  {
  }

  lemma PrunedKeeps(d: Disk, e: Disk, queue: Bytes, acc: Accepted)
    requires Pruned(d, e, queue)
    ensures Survives(e, acc) ==> Survives(d, acc)
    ensures Catalogued(d) ==> Catalogued(e)
  {
    if Survives(e, acc) {
      forall id | id in acc ensures StoredAs(d, id, acc[id]) {
        assert StoredAs(e, id, acc[id]);
        var n :| Key(n, id) in e.records && n in e.configs && ContentOf(e.records[Key(n, id)]) == acc[id];
        assert Key(n, id) in d.records;
      }
    }
  }

  /** What the last disk still has, every disk on the way had. */
  lemma PrunedImages(a: Store, t: Store, queue: Bytes, acc: Accepted)
    requires ImagesPruned(a, t, queue) && Catalogued(a.disk) && Survives(t.disk, acc)
    ensures ImagesKeep(a, t, acc)
  {
    hide Pruned, Survives, Catalogued;
    forall i | |a.trail| <= i < |t.trail| ensures Survives(t.trail[i], acc) && Catalogued(t.trail[i]) {
      PrunedKeeps(t.trail[i], t.disk, queue, acc);
      PrunedKeeps(a.disk, t.trail[i], queue, acc);
    }
  }

  // ---------- the whole purge ----------

  /** Accepted messages whose record a purge of `name` takes and that no other queue holds. */
  ghost function PurgedIds(b: Broker, name: Bytes): set<Bytes> {
    set k | k in b.store.disk.records && k.queue == name &&
            (forall n :: n in b.queues && n != name ==> k.id !in Held(b.queues[n])) :: k.id
  }

  /** The purge failed, but not before some of the records were gone. */
  predicate PartlyPurged(b: Broker, name: Bytes, batches: seq<set<Bytes>>, up: Pattern) {
    var (t, ok) := PurgeQueue(b, name, batches, up);
    !ok && t.store.disk != b.store.disk
  }

  /** Unless it fails half way, a purge takes the queue's own messages and no others, or nothing. */
  lemma PurgeSafe(b: Broker, name: Bytes, batches: seq<set<Bytes>>, up: Pattern, acc: Accepted)
    requires Safe(b, acc) && !PartlyPurged(b, name, batches, up)
    requires name in b.queues ==> Batched(StoredIds(b.store.disk, name), batches)
    ensures var (t, ok) := PurgeQueue(b, name, batches, up);
            var kept := if ok && name in b.queues then acc - PurgedIds(b, name) else acc;
            Safe(t, kept) && ImagesKeep(b.store, t.store, kept) && StillExact(b, t)
  {
    hide Agrees, Held, SoundView, Survives, Faithful, PurgedIds, DeleteBatches, StoredIds, Batched, Pruned, Catalogued;
    if name in b.queues {
      var (st, ok) := DeleteBatches(b.store, name, batches, up);
      DeleteBatchesPrunes(b.store, name, batches, up);
      SoundCatalogued(HomesOf(b), b.store.disk);
      if ok {
        DeleteBatchesAll(b.store, name, batches, up);
        NothingLeft(b.store.disk, st.disk, name);
        PurgedQueue(b.queues[name]);
        SetQueueHomes(b, name, Purge(b.queues[name]), st);
        PurgeView(b, name, st.disk, acc);
        PrunedImages(b.store, st, name, acc - PurgedIds(b, name));
      } else {
        assert HomesOf(b.(store := st)) == HomesOf(b);
        PrunedImages(b.store, st, name, acc);
      }
    }
  }

  lemma PurgedQueue(q: Queue)
    requires Agrees(q)
    ensures Agrees(Purge(q)) && Purge(q).name == q.name && Held(Purge(q)) == map[]
  {
    PurgeAgrees(q);
    hide Agrees;
    assert Ids([]) == {};
  }

  lemma PurgeView(b: Broker, name: Bytes, e: Disk, acc: Accepted)
    requires Safe(b, acc) && name in b.queues
    requires e == WithoutQueue(b.store.disk, name)
    ensures var homes := HomesOf(b)[name := map[]];
            var kept := acc - PurgedIds(b, name);
            && SoundView(homes, e) && Catalogued(e) && Faithful(homes, kept) && Survives(e, kept)
            && (NoStrays(HomesOf(b), b.store.disk) ==> NoStrays(homes, e))
  {
    hide Agrees, Held, SoundView, Faithful, Survives, PurgedIds;
    PurgeSound(HomesOf(b), b.store.disk, name, e);
    SoundCatalogued(HomesOf(b)[name := map[]], e);
    PurgeKeeps(b, name, e, acc);
  }

  lemma PurgeSound(homes: Homes, d: Disk, name: Bytes, e: Disk)
    requires SoundView(homes, d) && name in homes
    requires e == WithoutQueue(d, name)
    ensures SoundView(homes[name := map[]], e)
    ensures NoStrays(homes, d) ==> NoStrays(homes[name := map[]], e)
  {
    hide Later;
  }

  lemma PurgeKeeps(b: Broker, name: Bytes, e: Disk, acc: Accepted)
    requires Safe(b, acc) && name in b.queues
    requires e == WithoutQueue(b.store.disk, name)
    requires SoundView(HomesOf(b)[name := map[]], e)
    ensures Faithful(HomesOf(b)[name := map[]], acc - PurgedIds(b, name)) && Survives(e, acc - PurgedIds(b, name))
  {
    hide Agrees, Held, SoundView;
    var homes := HomesOf(b)[name := map[]];
    forall id | id in acc - PurgedIds(b, name) ensures StoredAs(e, id, acc[id]) {
      assert StoredAs(b.store.disk, id, acc[id]);
      var n :| Key(n, id) in b.store.disk.records && n in b.store.disk.configs
               && ContentOf(b.store.disk.records[Key(n, id)]) == acc[id];
      if n == name {
        assert Key(name, id).id !in PurgedIds(b, name);
        var k :| k in b.queues && k != name && id in Held(b.queues[k]);
        HeldStored(homes, e, acc, k, id);
      } else {
        assert Key(n, id) in e.records;
      }
    }
  }

  // ---------- a purge that fails half way ----------

  /** It takes only the messages whose records are gone by then. */
  lemma PurgeImages(b: Broker, name: Bytes, batches: seq<set<Bytes>>, up: Pattern, acc: Accepted)
    requires Safe(b, acc) && name in b.queues && !PurgeQueue(b, name, batches, up).1
    ensures var t := PurgeQueue(b, name, batches, up).0;
            ImagesKeep(b.store, t.store, acc - (StoredIds(b.store.disk, name) - StoredIds(t.store.disk, name)))
  {
    hide Agrees, Held, SoundView, Survives, Faithful, DeleteBatches, StoredIds, Pruned, Catalogued, ImagesPruned;
    var st := DeleteBatches(b.store, name, batches, up).0;
    DeleteBatchesPrunes(b.store, name, batches, up);
    SoundCatalogued(HomesOf(b), b.store.disk);
    OthersStay(b.store, st, name, acc);
    PrunedImages(b.store, st, name, acc - (StoredIds(b.store.disk, name) - StoredIds(st.disk, name)));
  }

  lemma OthersStay(a: Store, t: Store, queue: Bytes, acc: Accepted)
    requires ImagesPruned(a, t, queue) && Survives(a.disk, acc)
    ensures Survives(t.disk, acc - (StoredIds(a.disk, queue) - StoredIds(t.disk, queue)))
  {
    var d, e := a.disk, t.disk;
    forall id | id in acc - (StoredIds(d, queue) - StoredIds(e, queue)) ensures StoredAs(e, id, acc[id]) {
      assert StoredAs(d, id, acc[id]);
      var n :| Key(n, id) in d.records && n in d.configs && ContentOf(d.records[Key(n, id)]) == acc[id];
      if n == queue { InStored(d, Key(n, id)); }
      assert Key(n, id) in e.records;
    }
  }

  /** A purge of accepted messages either succeeds or keeps them all, under every pattern of
      failing calls, if and only if they fit into one batch. */
  lemma PurgeKeepsIff(b: Broker, name: Bytes, batches: seq<set<Bytes>>, acc: Accepted)
    requires Safe(b, acc) && Exact(b) && name in b.queues && StoredIds(b.store.disk, name) <= acc.Keys
    requires Batched(StoredIds(b.store.disk, name), batches)
    ensures |StoredIds(b.store.disk, name)| <= DELETE_BATCH <==>
            forall up: Pattern ::
              PurgeQueue(b, name, batches, up).1 || Survives(PurgeQueue(b, name, batches, up).0.store.disk, acc)
  {
    hide Agrees, Held, Exact, Survives, PurgeQueue, StoredIds, Batched, Safe;
    OneBatchIff(StoredIds(b.store.disk, name), batches);
    if |batches| <= 1 {
      forall up: Pattern
        ensures PurgeQueue(b, name, batches, up).1 || Survives(PurgeQueue(b, name, batches, up).0.store.disk, acc)
      {
        OneBatch(b, name, batches, up, acc);
      }
    } else {
      var up: Pattern := k => k == b.store.calls;
      SecondFails(b, name, batches, up, acc);
    }
  }

  lemma OneBatchIff(ids: set<Bytes>, batches: seq<set<Bytes>>)
    requires Batched(ids, batches)
    ensures |batches| <= 1 <==> |ids| <= DELETE_BATCH
  {
    if batches != [] {
      var rest := ids - batches[0];
      assert |ids| == |rest| + |batches[0]| by { assert ids == rest + batches[0]; }
      if |batches| > 1 {
        assert batches[1..][0] == batches[1];
        assert {} < batches[1] <= rest;
        SomeOf(batches[1], rest);
      } else {
        assert rest == {};
      }
    }
  }

  lemma SomeOf(small: set<Bytes>, big: set<Bytes>)
    requires {} < small <= big
    ensures |big| > 0
  {
    var x :| x in small;
    assert x in big;
  }

  lemma OneBatch(b: Broker, name: Bytes, batches: seq<set<Bytes>>, up: Pattern, acc: Accepted)
    requires Safe(b, acc) && name in b.queues && |batches| <= 1
    ensures PurgeQueue(b, name, batches, up).1 || Survives(PurgeQueue(b, name, batches, up).0.store.disk, acc)
  {
    hide Agrees, Held, SoundView, Survives, Faithful, WithoutIds;
    if batches != [] {
      var (st1, ok) := Call(b.store, WithoutIds(b.store.disk, name, batches[0]), up);
      assert batches[1..] == [] && DeleteBatches(st1, name, [], up) == (st1, true);
      assert DeleteBatches(b.store, name, batches, up) == (st1, ok);
    }
  }

  lemma SecondFails(b: Broker, name: Bytes, batches: seq<set<Bytes>>, up: Pattern, acc: Accepted)
    requires Exact(b) && name in b.queues && StoredIds(b.store.disk, name) <= acc.Keys && |batches| >= 2
    requires Batched(StoredIds(b.store.disk, name), batches)
    requires up(b.store.calls) && !up(b.store.calls + 1)
    ensures !PurgeQueue(b, name, batches, up).1 && !Survives(PurgeQueue(b, name, batches, up).0.store.disk, acc)
  {
    hide Agrees, Held, Survives, StoredIds, WithoutIds;
    var id :| id in batches[0];
    var rest, st1 := batches[1..], Call(b.store, WithoutIds(b.store.disk, name, batches[0]), up).0;
    assert rest != [] && !up(st1.calls);
    assert DeleteBatches(st1, name, rest, up) == (Call(st1, WithoutIds(st1.disk, name, rest[0]), up).0, false);
    GoneFor(b, name, batches[0], id, acc);
  }

  lemma GoneFor(b: Broker, name: Bytes, ids: set<Bytes>, id: Bytes, acc: Accepted)
    requires Exact(b) && id in ids && ids <= StoredIds(b.store.disk, name) <= acc.Keys
    ensures !Survives(WithoutIds(b.store.disk, name, ids), acc)
  {
    hide Agrees, Held, BackedBy, Filed;
    var d := WithoutIds(b.store.disk, name, ids);
    assert Key(name, id) in b.store.disk.records;
    forall n | Key(n, id) in b.store.disk.records ensures n == name {
      assert id in HomesOf(b)[n] && id in HomesOf(b)[name];
    }
    assert id in acc && !StoredAs(d, id, acc[id]);
  }

  // ---------- the loop that deletes batches ----------

  /** What is left to do from `now` completes what was done since `was`. */
  ghost predicate Progress(was: Store, now: Store, queue: Bytes, done: seq<set<Bytes>>, up: Pattern) {
    forall more :: Batched(StoredIds(now.disk, queue), more) ==>
      && Batched(StoredIds(was.disk, queue), done + more)
      && DeleteBatches(was, queue, done + more, up) == DeleteBatches(now, queue, more, up)
  }

  lemma SameIds(d: Disk, queue: Bytes, ids: set<Bytes>)
    requires ids == set k | k in d.records && k.queue == queue :: k.id
    ensures ids == StoredIds(d, queue)
  {
  }

  lemma Untouched(st: Store, queue: Bytes, up: Pattern)
    ensures Progress(st, st, queue, [], up)
  {
    hide Batched, DeleteBatches;
    assert forall more: seq<set<Bytes>> :: [] + more == more;
  }

  lemma Finished(was: Store, now: Store, queue: Bytes, done: seq<set<Bytes>>, up: Pattern)
    requires Progress(was, now, queue, done, up) && StoredIds(now.disk, queue) == {}
    ensures Batched(StoredIds(was.disk, queue), done) && DeleteBatches(was, queue, done, up) == (now, true)
  {
    assert Batched(StoredIds(now.disk, queue), []);
    assert done + [] == done;
  }

  lemma Deleted(was: Store, now: Store, queue: Bytes, done: seq<set<Bytes>>, batch: set<Bytes>, up: Pattern)
    requires Progress(was, now, queue, done, up) && IsBatchOf(batch, StoredIds(now.disk, queue)) && up(now.calls)
    ensures var next := Call(now, WithoutIds(now.disk, queue, batch), up).0;
            && Progress(was, next, queue, done + [batch], up)
            && |StoredIds(next.disk, queue)| < |StoredIds(now.disk, queue)|
  {
    var next := Call(now, WithoutIds(now.disk, queue, batch), up).0;
    BatchPrunes(now.disk, queue, batch);
    hide StoredIds, WithoutIds;
    forall more | Batched(StoredIds(next.disk, queue), more)
      ensures Batched(StoredIds(was.disk, queue), done + [batch] + more)
      ensures DeleteBatches(was, queue, done + [batch] + more, up) == DeleteBatches(next, queue, more, up)
    {
      assert ([batch] + more)[1..] == more;
      assert Batched(StoredIds(now.disk, queue), [batch] + more);
      assert done + ([batch] + more) == done + [batch] + more;
    }
    FewerLeft(StoredIds(now.disk, queue), batch);
  }

  lemma FewerLeft(ids: set<Bytes>, batch: set<Bytes>)
    requires {} < batch <= ids
    ensures |ids - batch| < |ids|
  {
    var x :| x in batch;
    assert ids == (ids - batch) + batch && |batch| == |batch - {x}| + 1;
    assert |ids| == |ids - batch| + |batch|;
  }

  ghost predicate IsBatchOf(batch: set<Bytes>, ids: set<Bytes>) {
    {} < batch <= ids && |batch| == if |ids| < DELETE_BATCH then |ids| else DELETE_BATCH
  }

  lemma GaveUp(was: Store, now: Store, queue: Bytes, done: seq<set<Bytes>>, batch: set<Bytes>, up: Pattern)
    returns (batches: seq<set<Bytes>>)
    requires Progress(was, now, queue, done, up) && IsBatchOf(batch, StoredIds(now.disk, queue)) && !up(now.calls)
    ensures Batched(StoredIds(was.disk, queue), batches)
    ensures DeleteBatches(was, queue, batches, up) == (Call(now, WithoutIds(now.disk, queue, batch), up).0, false)
  {
    hide StoredIds, WithoutIds;
    var rest := AnyBatches(StoredIds(now.disk, queue) - batch);
    assert ([batch] + rest)[1..] == rest;
    assert Batched(StoredIds(now.disk, queue), [batch] + rest);
    batches := done + ([batch] + rest);
  }

  /** Any set can be taken in batches. */
  lemma AnyBatches(ids: set<Bytes>) returns (batches: seq<set<Bytes>>)
    ensures Batched(ids, batches)
    decreases |ids|
  {
    batches := [];
    if ids != {} {
      var x :| x in ids;
      var batch := PartOf(ids, if |ids| < DELETE_BATCH then |ids| else DELETE_BATCH);
      assert |ids| == |ids - {x}| + 1;
      FewerLeft(ids, batch);
      var rest := AnyBatches(ids - batch);
      batches := [batch] + rest;
    }
  }

  lemma PartOf(ids: set<Bytes>, n: nat) returns (part: set<Bytes>)
    requires n <= |ids|
    ensures part <= ids && |part| == n
  {
    part := {};
    if n > 0 {
      var x :| x in ids;
      part := PartOf(ids - {x}, n - 1);
      part := part + {x};
    }
  }
}
