/**
 Each handler against the invariants of `Durability`: what it keeps under every pattern of
 failing storage calls, and what it keeps exactly when its rollbacks succeed.
 */
module Handlers {
  import opened Types
  import opened QueueModel
  import opened QueueRuns
  import opened QueueHoldings
  import opened BrokerModel
  import opened Durability

  // ---------- publish ----------

  lemma PublishSound(b0: Broker, m: Message, now: int, up: Pattern, hash: Hash)
    requires Sound(b0) && NewMessage(b0, m)
    ensures Sound(Publish(b0, m, now, up, hash).0)
  {
    hide Agrees, Held, Later, OneHome;
    CreateSound(b0, m.queue, up);
    var (b, created) := GetOrCreate(b0, m.queue, up);
    if created {
      SaveFacts(b.store, m, up);
      var (st, saved) := SaveMessage(b.store, m, up);
      if saved {
        PublishStored(b, m, now, up, hash);
      }
    }
  }

  lemma PublishStored(b: Broker, m: Message, now: int, up: Pattern, hash: Hash)
    requires Sound(b) && m.queue in b.queues && NewMessage(b, m)
    ensures var (st, saved) := SaveMessage(b.store, m, up);
            var (q, enqueued) := Enqueue(b.queues[m.queue], m, now, hash);
            && (saved && enqueued ==> Sound(SetQueue(b, m.queue, q, st)))
            && SoundView(HomesOf(b), st.disk)
            && SoundView(HomesOf(b), DeleteMessage(st, m.queue, m.id, up).0.disk)
  {
    hide Agrees, Held, OneHome, Catalogued, BackedBy, SameBut, Enqueue;
    SaveFacts(b.store, m, up);
    var (st, saved) := SaveMessage(b.store, m, up);
    DeleteFacts(st, m.queue, m.id, up);
    assert HomesOf(b)[m.queue] == Held(b.queues[m.queue]);
    StillSound(HomesOf(b), b.store.disk, st.disk, m.id);
    StillSound(HomesOf(b), st.disk, DeleteMessage(st, m.queue, m.id, up).0.disk, m.id);
    var (q, enqueued) := Enqueue(b.queues[m.queue], m, now, hash);
    if saved && enqueued {
      NotHeld(b.queues[m.queue], m.id);
      EnqueueHeld(b.queues[m.queue], m, now, hash);
      SetQueueHomes(b, m.queue, q, st);
      ShelveSound(HomesOf(b), b.store.disk, m, Held(q), st.disk);
    }
  }

  lemma NotHeld(q: Queue, id: Bytes)
    requires id !in Held(q)
    ensures !Holds(q, id)
  {
  }

  /** The store after saving the message and, if the queue was full, deleting it again. */
  lemma PublishImages(b: Broker, m: Message, up: Pattern, acc: Accepted)
    requires Sound(b) && m.queue in b.queues && m.id !in acc && m.sequence == 0 && Survives(b.store.disk, acc)
    ensures var (st, saved) := SaveMessage(b.store, m, up);
            var rb := DeleteMessage(st, m.queue, m.id, up).0;
            && Survives(st.disk, acc) && ImagesKeep(b.store, st, acc)
            && (saved ==> Survives(st.disk, acc[m.id := ContentOf(m)]))
            && Survives(rb.disk, acc) && ImagesKeep(b.store, rb, acc)
  {
    hide Agrees, Held, OneHome, BackedBy, Filed, SaveMessage, DeleteMessage, Survives, ImagesKeep;
    SaveFacts(b.store, m, up);
    var (st, saved) := SaveMessage(b.store, m, up);
    var rb := DeleteMessage(st, m.queue, m.id, up).0;
    DeleteFacts(st, m.queue, m.id, up);
    assert acc - {m.id} == acc;
    SurvivesBut(b.store.disk, st.disk, m.id, acc);
    SurvivesBut(st.disk, rb.disk, m.id, acc);
    ImagesStep(b.store, st, acc);
    ImagesStep(st, rb, acc);
    ImagesChain(b.store, st, rb, acc);
    if saved {
      assert Key(m.queue, m.id) in st.disk.records;
      assert StoredAs(st.disk, m.id, ContentOf(m));
      SurvivesMore(st.disk, acc, m.id, ContentOf(m));
    }
  }

  /** Publish never endangers an accepted message, and accepts one only once it is stored. */
  lemma PublishSafe(b0: Broker, m: Message, now: int, up: Pattern, hash: Hash, acc: Accepted)
    requires Safe(b0, acc) && NewMessage(b0, m)
    ensures var (t, r) := Publish(b0, m, now, up, hash);
            && Safe(t, if r == Published then acc[m.id := ContentOf(m)] else acc)
            && ImagesKeep(b0.store, t.store, acc)
  {
    hide Agrees, Held, Later, OneHome, BackedBy, Catalogued, Survives, ImagesKeep;
    PublishSound(b0, m, now, up, hash);
    FreshNotAccepted(b0, m.id, acc);
    CreateSound(b0, m.queue, up);
    CreateKeeps(b0, m.queue, up, acc);
    var (b, created) := GetOrCreate(b0, m.queue, up);
    if created {
      PublishImages(b, m, up, acc);
      var (st, saved) := SaveMessage(b.store, m, up);
      ImagesChain(b0.store, b.store, st, acc);
      ImagesChain(b0.store, b.store, DeleteMessage(st, m.queue, m.id, up).0, acc);
      if Enqueue(b.queues[m.queue], m, now, hash).1 {
        PublishFaithful(b, m, now, hash, st, acc);
      }
    }
  }

  lemma PublishFaithful(b: Broker, m: Message, now: int, hash: Hash, st: Store, acc: Accepted)
    requires QueuesOk(b) && m.queue in b.queues && Homeless(HomesOf(b), m.id) && Faithful(HomesOf(b), acc)
    requires Enqueue(b.queues[m.queue], m, now, hash).1
    ensures var q := Enqueue(b.queues[m.queue], m, now, hash).0;
            Faithful(HomesOf(SetQueue(b, m.queue, q, st)), acc[m.id := ContentOf(m)])
  {
    hide Agrees, Held;
    var q0, q := b.queues[m.queue], Enqueue(b.queues[m.queue], m, now, hash).0;
    assert HomesOf(b)[m.queue] == Held(q0);
    NotHeld(q0, m.id);
    EnqueueHeld(q0, m, now, hash);
    SetQueueHomes(b, m.queue, q, st);
    FaithfulJoin(HomesOf(b), acc, m);
    FaithfulAdvance(HomesOf(b), acc[m.id := ContentOf(m)], m.queue, Held(q0)[m.id := m], Held(q));
  }

  // ---------- operations that touch memory only ----------

  /** A queue's messages advance and the store is untouched. */
  lemma LocalSafe(b: Broker, n: Bytes, q: Queue, acc: Accepted)
    requires Safe(b, acc) && n in b.queues
    requires Agrees(q) && q.name == n && Advanced(Held(b.queues[n]), Held(q))
    ensures Safe(SetQueue(b, n, q, b.store), acc)
    ensures NoStrays(HomesOf(b), b.store.disk) ==> NoStrays(HomesOf(SetQueue(b, n, q, b.store)), b.store.disk)
  {
    hide Agrees, Held, OneHome, Catalogued, Survives;
    SetQueueHomes(b, n, q, b.store);
    LocalSoundView(HomesOf(b), b.store.disk, n, Held(q));
    assert HomesOf(b)[n := Held(b.queues[n])] == HomesOf(b);
    FaithfulAdvance(HomesOf(b), acc, n, Held(b.queues[n]), Held(q));
  }

  lemma LocalSoundView(homes: Homes, d: Disk, n: Bytes, h: Shelf)
    requires SoundView(homes, d) && n in homes && Advanced(homes[n], h)
    ensures SoundView(homes[n := h], d)
  {
    if id :| id in h {
      AdvanceSound(homes, d, n, h, d, id);
    } else {
      EmptyShelf(homes, d, n);
      assert h == map[];
    }
  }

  // ---------- ack and nack ----------

  ghost predicate StillExact(b: Broker, t: Broker) {
    NoStrays(HomesOf(b), b.store.disk) ==> NoStrays(HomesOf(t), t.store.disk)
  }

  /** A failed call changes nothing but the call count. */
  lemma FailedCallSafe(b: Broker, n: Bytes, st: Store, acc: Accepted)
    requires Safe(b, acc) && n in b.queues && st.disk == b.store.disk && st.trail == b.store.trail + [st.disk]
    ensures var t := SetQueue(b, n, b.queues[n], st);
            Safe(t, acc) && ImagesKeep(b.store, st, acc) && StillExact(b, t)
  {
    hide Agrees, Held, SoundView, Survives, Faithful;
    assert SetQueue(b, n, b.queues[n], st) == b.(store := st);
    assert HomesOf(b.(store := st)) == HomesOf(b);
    SoundCatalogued(HomesOf(b), st.disk);
    ImagesStep(b.store, st, acc);
  }

  /** The record goes, then the message: a crash between the two leaves neither to recover. */
  lemma EndSafe(b: Broker, n: Bytes, id: Bytes, q: Queue, up: Pattern, acc: Accepted)
    requires Safe(b, acc) && n in b.queues && id in Held(b.queues[n]) && up(b.store.calls)
    requires Agrees(q) && q.name == n && Advanced(Held(b.queues[n]) - {id}, Held(q))
    ensures var st := DeleteMessage(b.store, n, id, up).0;
            var t := SetQueue(b, n, q, st);
            Safe(t, acc - {id}) && ImagesKeep(b.store, st, acc - {id}) && StillExact(b, t)
  {
    hide Agrees, Held, OneHome;
    var st := DeleteMessage(b.store, n, id, up).0;
    var homes := HomesOf(b);
    DeleteFacts(b.store, n, id, up);
    SetQueueHomes(b, n, q, st);
    DropSound(homes, b.store.disk, n, id, Held(q), st.disk);
    hide Catalogued, BackedBy;
    EndKeeps(homes, b.store, n, id, Held(q), st, acc);
    EndStrays(homes, b.store.disk, n, id, Held(q), st.disk);
  }

  lemma EndKeeps(homes: Homes, a: Store, n: Bytes, id: Bytes, h: Shelf, st: Store, acc: Accepted)
    requires Faithful(homes, acc) && Survives(a.disk, acc) && n in homes && Advanced(homes[n] - {id}, h)
    requires SameBut(a.disk, st.disk, id) && Catalogued(st.disk) && st.trail == a.trail + [st.disk]
    ensures Faithful(homes[n := h], acc - {id}) && Survives(st.disk, acc - {id}) && ImagesKeep(a, st, acc - {id})
  {
    FaithfulDrop(homes, acc, n, id);
    FaithfulAdvance(homes, acc - {id}, n, homes[n] - {id}, h);
    SurvivesBut(a.disk, st.disk, id, acc);
    ImagesStep(a, st, acc - {id});
  }

  lemma EndStrays(homes: Homes, d: Disk, n: Bytes, id: Bytes, h: Shelf, e: Disk)
    requires n in homes && e.records == d.records - {Key(n, id)} && h.Keys == homes[n].Keys - {id}
    ensures NoStrays(homes, d) ==> NoStrays(homes[n := h], e)
  {
    if NoStrays(homes, d) {
      forall k | k in e.records ensures k.queue in homes[n := h] && k.id in homes[n := h][k.queue] {
        assert k in d.records && (k.queue == n ==> k.id != id);
      }
    }
  }

  lemma AckSafe(b: Broker, name: Bytes, id: Bytes, now: int, up: Pattern, hash: Hash, acc: Accepted)
    requires Safe(b, acc)
    ensures var (t, r) := HandleAck(b, name, id, now, up, hash);
            var kept := if r == AckDone then acc - {id} else acc;
            Safe(t, kept) && ImagesKeep(b.store, t.store, kept) && StillExact(b, t)
  {
    hide Agrees, Held, SoundView, Survives, Faithful;
    if name in b.queues && id in b.queues[name].inFlight {
      var (st, ok) := DeleteMessage(b.store, name, id, up);
      AckHeld(b.queues[name], id, ok, now, hash);
      InFlightHeld(b.queues[name], id);
      if ok {
        EndSafe(b, name, id, Ack(b.queues[name], id, ok, now, hash).0, up, acc);
      } else {
        FailedCallSafe(b, name, st, acc);
      }
    }
  }

  lemma DropSafe(b: Broker, name: Bytes, id: Bytes, requeue: bool, now: int, up: Pattern, hash: Hash, acc: Accepted)
    requires Safe(b, acc) && name in b.queues && id in b.queues[name].inFlight
    requires NackVerdict(b.queues[name], b.queues[name].inFlight[id], requeue) == ToDrop
    ensures var (t, r) := HandleNack(b, name, id, requeue, now, up, hash);
            var kept := if r == DroppedFor then acc - {id} else acc;
            Safe(t, kept) && ImagesKeep(b.store, t.store, kept) && StillExact(b, t)
  {
    hide Agrees, Held, SoundView, Survives, Faithful;
    var (st, ok) := DeleteMessage(b.store, name, id, up);
    NackHeld(b.queues[name], id, requeue, ok, now, hash);
    InFlightHeld(b.queues[name], id);
    if ok {
      EndSafe(b, name, id, Nack(b.queues[name], id, requeue, ok, now, hash).0, up, acc);
    } else {
      FailedCallSafe(b, name, st, acc);
    }
  }

  /** The record is rewritten before the message returns to the queue. */
  lemma RewriteSafe(b: Broker, n: Bytes, m: Message, q: Queue, up: Pattern, acc: Accepted)
    requires Safe(b, acc) && n in b.queues && m.id in Held(b.queues[n]) && up(b.store.calls)
    requires Later(m, Held(b.queues[n])[m.id])
    requires Agrees(q) && q.name == n && Advanced(Held(b.queues[n]), Held(q))
    ensures var st := SaveMessage(b.store, m, up).0;
            var t := SetQueue(b, n, q, st);
            Safe(t, acc) && ImagesKeep(b.store, st, acc) && StillExact(b, t)
  {
    hide Agrees, Held, SaveMessage, SameBut, Catalogued, Faithful, Survives;
    var st, homes := SaveMessage(b.store, m, up).0, HomesOf(b);
    assert homes[n] == Held(b.queues[n]) && m.queue == n;
    assert m.sequence == 0 by { PlainHeld(homes, b.store.disk, n, m.id); }
    SaveFacts(b.store, m, up);
    SetQueueHomes(b, n, q, st);
    RewriteView(homes, b.store, n, m, Held(q), st, acc);
  }

  lemma RewriteView(homes: Homes, a: Store, n: Bytes, m: Message, h: Shelf, st: Store, acc: Accepted)
    requires SoundView(homes, a.disk) && Faithful(homes, acc) && Survives(a.disk, acc)
    requires n in homes && m.id in homes[n] && m.queue == n && Later(m, homes[n][m.id]) && Advanced(homes[n], h)
    requires SameBut(a.disk, st.disk, m.id) && Catalogued(st.disk) && st.trail == a.trail + [st.disk]
    requires st.disk.records == a.disk.records[Key(n, m.id) := m]
    ensures SoundView(homes[n := h], st.disk) && Faithful(homes[n := h], acc) && Survives(st.disk, acc)
    ensures ImagesKeep(a, st, acc) && (NoStrays(homes, a.disk) ==> NoStrays(homes[n := h], st.disk))
  {
    hide OneHome, BackedBy, Catalogued, Faithful, SameBut, Survives;
    OnlyHome(homes, n, m.id);
    AdvanceSound(homes, a.disk, n, h, st.disk, m.id);
    assert homes[n := homes[n]] == homes;
    FaithfulAdvance(homes, acc, n, homes[n], h);
    SurvivesHeld(homes[n := h], a.disk, st.disk, acc, n, m.id);
    ImagesStep(a, st, acc);
  }

  lemma OnlyHome(homes: Homes, n: Bytes, id: Bytes)
    requires OneHome(homes) && n in homes && id in homes[n]
    ensures forall k :: k in homes && k != n ==> id !in homes[k]
  {
  }

  lemma RequeueSafe(b: Broker, name: Bytes, id: Bytes, requeue: bool, now: int, up: Pattern, hash: Hash, acc: Accepted)
    requires Safe(b, acc) && name in b.queues && id in b.queues[name].inFlight
    requires NackVerdict(b.queues[name], b.queues[name].inFlight[id], requeue) == ToRequeue
    ensures var (t, r) := HandleNack(b, name, id, requeue, now, up, hash);
            Safe(t, acc) && ImagesKeep(b.store, t.store, acc) && StillExact(b, t)
  {
    var q := b.queues[name];
    var m := q.inFlight[id].(visibleAt := now);
    var (st, ok) := SaveMessage(b.store, m, up);
    NackHeld(q, id, requeue, ok, now, hash);
    InFlightHeld(q, id);
    assert Filed(name, HomesOf(b)[name]);
    hide Agrees, Held, SoundView, Survives, Faithful;
    if ok {
      RewriteSafe(b, name, m, Nack(q, id, requeue, ok, now, hash).0, up, acc);
    } else {
      FailedCallSafe(b, name, st, acc);
    }
  }

  /** One message joins a queue, its record joins the disk, and one stray record goes. */
  lemma JoinStrays(homes: Homes, d: Disk, stray: Key, n: Bytes, id: Bytes, h: Shelf, e: Disk)
    requires NoStraysBut(homes, d, stray) && n in homes && h.Keys == homes[n].Keys + {id}
    requires e.records.Keys == d.records.Keys - {stray} + {Key(n, id)}
    ensures NoStrays(homes[n := h], e)
  {
    forall k | k in e.records ensures k.queue in homes[n := h] && k.id in homes[n := h][k.queue] {
      assert k == Key(n, id) || (k in d.records && k != stray);
    }
  }

  /** With its rollback working, publish leaves no record without a message. */
  lemma PublishExact(b0: Broker, m: Message, now: int, up: Pattern, hash: Hash)
    requires Exact(b0) && NewMessage(b0, m) && Publish(b0, m, now, up, hash).1 != RollbackFailed
    ensures Exact(Publish(b0, m, now, up, hash).0)
  {
    hide Agrees, Held, SoundView, NoStrays, FreshId, Enqueue, SaveMessage, DeleteMessage, GetOrCreate;
    PublishSound(b0, m, now, up, hash);
    CreateExact(b0, m.queue, up, m.id);
    var (b, created) := GetOrCreate(b0, m.queue, up);
    if created { PublishStrays(b, m, now, up, hash); }
    assert forall st :: HomesOf(b.(store := st)) == HomesOf(b);
  }

  lemma CreateExact(b: Broker, name: Bytes, up: Pattern, id: Bytes)
    requires Exact(b)
    ensures var t := GetOrCreate(b, name, up).0; Exact(t) && (FreshId(b, id) ==> FreshId(t, id))
  {
    hide Agrees, Held, SoundView;
    CreateSound(b, name, up);
  }

  lemma PublishStrays(b: Broker, m: Message, now: int, up: Pattern, hash: Hash)
    requires Exact(b) && NewMessage(b, m) && m.queue in b.queues
    ensures var (st, saved) := SaveMessage(b.store, m, up);
            var (rb, undone) := DeleteMessage(st, m.queue, m.id, up);
            var (q, enqueued) := Enqueue(b.queues[m.queue], m, now, hash);
            && (saved && enqueued ==> NoStrays(HomesOf(SetQueue(b, m.queue, q, st)), st.disk))
            && (!saved ==> NoStrays(HomesOf(b), st.disk))
            && (undone ==> NoStrays(HomesOf(b), rb.disk))
  {
    hide Agrees, Held, SoundView;
    var n := m.queue;
    var (q, enqueued) := Enqueue(b.queues[n], m, now, hash);
    var (st, saved) := SaveMessage(b.store, m, up);
    SetQueueHomes(b, n, q, st);
    if saved && enqueued {
      assert HomesOf(b)[n] == Held(b.queues[n]);
      NotHeld(b.queues[n], m.id);
      EnqueueHeld(b.queues[n], m, now, hash);
      JoinStrays(HomesOf(b), b.store.disk, Key(n, m.id), n, m.id, Held(q), st.disk);
    }
  }

  // ---------- the move to the dead-letter queue ----------

  /** The message is out of its queue and about to join the DLQ; `b` is the broker by then. */
  lemma JoinSound(b: Broker, from: Bytes, moved: Message, now: int, up: Pattern, hash: Hash)
    requires Sound(b) && moved.queue in b.queues && Homeless(HomesOf(b), moved.id) && moved.sequence == 0
    ensures var (d, enqueued) := Enqueue(b.queues[moved.queue], moved, now, hash);
            var st1 := DeleteMessage(b.store, from, moved.id, up).0;
            var (st2, saved) := SaveMessage(st1, AsHeld(d, moved), up);
            && SameBut(b.store.disk, st2.disk, moved.id)
            && (saved ==> Sound(SetQueue(b, moved.queue, d, st2)) && StoredAs(st2.disk, moved.id, ContentOf(moved)))
  {
    hide Agrees, Held, OneHome, BackedBy, Enqueue, AsHeld, DeleteMessage, SaveMessage;
    var n, id := moved.queue, moved.id;
    var (d, enqueued) := Enqueue(b.queues[n], moved, now, hash);
    var st1 := DeleteMessage(b.store, from, id, up).0;
    var (st2, saved) := SaveMessage(st1, AsHeld(d, moved), up);
    JoinHeld(b, moved, now, hash);
    DeleteFacts(b.store, from, id, up);
    SaveFacts(st1, AsHeld(d, moved), up);
    SetQueueHomes(b, n, d, st2);
    SameButChain(b.store.disk, st1.disk, st2.disk, id);
    hide Catalogued, SameBut, Filed;
    if saved {
      assert Key(n, id) in st2.disk.records;
      if enqueued {
        ShelveSound(HomesOf(b), b.store.disk, moved, Held(d), st2.disk);
      } else {
        StillSound(HomesOf(b), b.store.disk, st2.disk, id);
        assert HomesOf(b)[n := Held(d)] == HomesOf(b);
      }
    }
  }

  lemma JoinKeeps(b: Broker, from: Bytes, moved: Message, now: int, up: Pattern, hash: Hash, acc: Accepted)
    requires Safe(b, acc) && moved.queue in b.queues && Homeless(HomesOf(b), moved.id) && moved.sequence == 0
    requires moved.id in acc ==> ContentOf(moved) == acc[moved.id]
    ensures var (d, enqueued) := Enqueue(b.queues[moved.queue], moved, now, hash);
            var st1 := DeleteMessage(b.store, from, moved.id, up).0;
            var (st2, saved) := SaveMessage(st1, AsHeld(d, moved), up);
            saved ==> Safe(SetQueue(b, moved.queue, d, st2), acc)
  {
    hide Agrees, Held, SoundView, SameBut, Enqueue, AsHeld, DeleteMessage;
    var n, id, homes := moved.queue, moved.id, HomesOf(b);
    var (d, enqueued) := Enqueue(b.queues[n], moved, now, hash);
    var (st2, saved) := SaveMessage(DeleteMessage(b.store, from, id, up).0, AsHeld(d, moved), up);
    JoinSound(b, from, moved, now, up, hash);
    JoinHeld(b, moved, now, hash);
    SetQueueHomes(b, n, d, st2);
    if saved {
      FaithfulMove(homes, acc, moved);
      if enqueued { FaithfulAdvance(homes, acc, n, homes[n][id := moved], Held(d)); }
      else { assert homes[n := Held(d)] == homes; }
      SurvivesBut(b.store.disk, st2.disk, id, acc);
      if id !in acc { assert acc - {id} == acc; }
    }
  }

  lemma FaithfulMove(homes: Homes, acc: Accepted, m: Message)
    requires Faithful(homes, acc) && m.queue in homes && (m.id in acc ==> ContentOf(m) == acc[m.id])
    ensures Faithful(homes[m.queue := homes[m.queue][m.id := m]], acc)
  {
  }

  /** The only record without a message is `k`. */
  ghost predicate NoStraysBut(homes: Homes, d: Disk, k: Key) {
    forall j :: j in d.records && j != k ==> j.queue in homes && j.id in homes[j.queue]
  }

  lemma SameButChain(d: Disk, e: Disk, f: Disk, id: Bytes)
    requires SameBut(d, e, id) && SameBut(e, f, id)
    ensures SameBut(d, f, id)
  {
  }

  /** What the DLQ holds of the message after its enqueue, and what gets saved. */
  lemma JoinHeld(b: Broker, m: Message, now: int, hash: Hash)
    requires Sound(b) && m.queue in b.queues && Homeless(HomesOf(b), m.id)
    ensures var (d, enqueued) := Enqueue(b.queues[m.queue], m, now, hash);
            && Agrees(d) && d.name == m.queue
            && (enqueued ==> Advanced(HomesOf(b)[m.queue][m.id := m], Held(d)) && Later(AsHeld(d, m), Held(d)[m.id]))
            && (!enqueued ==> Held(d) == HomesOf(b)[m.queue])
            && Later(m, AsHeld(d, m))
  {
    hide Agrees;
    var q := b.queues[m.queue];
    var (d, enqueued) := Enqueue(q, m, now, hash);
    assert HomesOf(b)[m.queue] == Held(q);
    NotHeld(q, m.id);
    EnqueueHeld(q, m, now, hash);
    if m.id in d.inFlight { InFlightHeld(d, m.id); }
    hide Held;
    if enqueued { assert Later(Held(q)[m.id := m][m.id], Held(d)[m.id]); }
  }

  /** A message leaves its queue; its record stays where it is. */
  lemma LeaveSafe(b: Broker, n: Bytes, id: Bytes, q: Queue, acc: Accepted)
    requires Safe(b, acc) && n in b.queues && id in Held(b.queues[n])
    requires Agrees(q) && q.name == n && Held(q) == Held(b.queues[n]) - {id}
    ensures var t := SetQueue(b, n, q, b.store);
            && Safe(t, acc) && Homeless(HomesOf(t), id)
            && HomesOf(t) == HomesOf(b)[n := Held(q)]
            && (NoStrays(HomesOf(b), b.store.disk) ==> NoStraysBut(HomesOf(t), b.store.disk, Key(n, id)))
  {
    hide Agrees, Held, OneHome, BackedBy, Catalogued, Survives;
    var homes := HomesOf(b);
    SetQueueHomes(b, n, q, b.store);
    DropSound(homes, b.store.disk, n, id, Held(q), b.store.disk);
    FaithfulDrop(homes, acc, n, id);
  }

  lemma CreateSafe(b: Broker, name: Bytes, up: Pattern, acc: Accepted, id: Bytes, stray: Key)
    requires Safe(b, acc)
    ensures var (t, ok) := GetOrCreate(b, name, up);
            && Safe(t, acc) && ImagesKeep(b.store, t.store, acc) && StillExact(b, t)
            && (Homeless(HomesOf(b), id) ==> Homeless(HomesOf(t), id))
            && (NoStraysBut(HomesOf(b), b.store.disk, stray) ==> NoStraysBut(HomesOf(t), t.store.disk, stray))
  {
    hide Agrees, Held, SoundView, Survives, ImagesKeep;
    SoundCatalogued(HomesOf(b), b.store.disk);
    CreateSound(b, name, up);
    CreateKeeps(b, name, up, acc);
  }

  lemma DLQDiffers(name: Bytes)
    ensures DLQName(name) != name
  {
    assert |DLQName(name)| == |name| + 4;
  }

  /** The move keeps every accepted message if its save succeeds, and keeps memory and disk
      in step if all three of its unchecked effects do. Without a DLQ the record stays. */
  lemma MoveSafe(b: Broker, name: Bytes, id: Bytes, now: int, up: Pattern, hash: Hash, acc: Accepted)
    requires Safe(b, acc) && name in b.queues && id in b.queues[name].inFlight
    ensures var (t, r) := MoveToDLQ(b, name, id, now, up, hash);
            && (r.NoDLQ? || r.saved ==> Safe(t, acc))
            && (r == Moved(true, true, true) ==> StillExact(b, t))
            && (r.NoDLQ? ==> ImagesKeep(b.store, t.store, acc))
            && (r.NoDLQ? || r.Moved?)
  {
    hide Agrees, Held, SoundView, Survives, Enqueue, AsHeld, DeleteMessage, SaveMessage, Settle, ImagesKeep;
    var q, dlq := b.queues[name], DLQName(name);
    InFlightHeld(q, id);
    SettleHeld(q, id, DeadLettered);
    SettleName(q, id);
    var left := SetQueue(b, name, Settle(q, id, DeadLettered), b.store);
    LeaveSafe(b, name, id, Settle(q, id, DeadLettered), acc);
    CreateSafe(left, dlq, up, acc, id, Key(name, id));
    var (b2, created) := GetOrCreate(left, dlq, up);
    if created {
      MovedFacts(b, name, id, now, acc);
      MoveJoins(b2, name, q.inFlight[id].(queue := dlq, visibleAt := now), now, up, hash, acc);
    }
  }

  lemma SettleName(q: Queue, id: Bytes)
    ensures Settle(q, id, DeadLettered).name == q.name
  {
  }

  lemma MovedFacts(b: Broker, name: Bytes, id: Bytes, now: int, acc: Accepted)
    requires Safe(b, acc) && name in b.queues && id in b.queues[name].inFlight
    ensures b.queues[name].inFlight[id].id == id && b.queues[name].inFlight[id].sequence == 0
    ensures id in acc ==> ContentOf(b.queues[name].inFlight[id]) == acc[id]
  {
    InFlightHeld(b.queues[name], id);
    assert HomesOf(b)[name] == Held(b.queues[name]);
    PlainHeld(HomesOf(b), b.store.disk, name, id);
    assert Filed(name, HomesOf(b)[name]);
    hide Agrees, Held;
  }

  lemma MoveJoins(b: Broker, from: Bytes, moved: Message, now: int, up: Pattern, hash: Hash, acc: Accepted)
    requires Safe(b, acc) && moved.queue in b.queues && Homeless(HomesOf(b), moved.id) && moved.sequence == 0
    requires moved.id in acc ==> ContentOf(moved) == acc[moved.id]
    ensures var (d, enqueued) := Enqueue(b.queues[moved.queue], moved, now, hash);
            var (st1, deleted) := DeleteMessage(b.store, from, moved.id, up);
            var (st2, saved) := SaveMessage(st1, AsHeld(d, moved), up);
            var t := SetQueue(b, moved.queue, d, st2);
            && (saved ==> Safe(t, acc))
            && (saved && deleted && enqueued && NoStraysBut(HomesOf(b), b.store.disk, Key(from, moved.id))
                ==> NoStrays(HomesOf(t), t.store.disk))
  {
    hide Agrees, Held, SoundView, Survives, Enqueue, AsHeld;
    JoinKeeps(b, from, moved, now, up, hash, acc);
    JoinHeld(b, moved, now, hash);
    var (d, enqueued) := Enqueue(b.queues[moved.queue], moved, now, hash);
    var (st1, deleted) := DeleteMessage(b.store, from, moved.id, up);
    var (st2, saved) := SaveMessage(st1, AsHeld(d, moved), up);
    SetQueueHomes(b, moved.queue, d, st2);
    if saved && deleted && enqueued && NoStraysBut(HomesOf(b), b.store.disk, Key(from, moved.id)) {
      JoinStrays(HomesOf(b), b.store.disk, Key(from, moved.id), moved.queue, moved.id, Held(d), st2.disk);
    }
  }

  /** Whatever fails, no disk during the move misses any other message. */
  lemma MoveImages(b: Broker, name: Bytes, id: Bytes, now: int, up: Pattern, hash: Hash, acc: Accepted)
    requires Safe(b, acc) && name in b.queues && id in b.queues[name].inFlight
    ensures ImagesKeep(b.store, MoveToDLQ(b, name, id, now, up, hash).0.store, acc - {id})
  {
    hide Agrees, Held, SoundView, Survives, Enqueue, AsHeld, DeleteMessage, SaveMessage, Settle, ImagesKeep, Deposit;
    var q, dlq := b.queues[name], DLQName(name);
    InFlightHeld(q, id);
    SettleHeld(q, id, DeadLettered);
    SettleName(q, id);
    var left := SetQueue(b, name, Settle(q, id, DeadLettered), b.store);
    LeaveSafe(b, name, id, Settle(q, id, DeadLettered), acc);
    CreateSafe(left, dlq, up, acc, id, Key(name, id));
    var (b2, created) := GetOrCreate(left, dlq, up);
    ImagesLess(b.store, b2.store, acc, {id});
    if created {
      MovedFacts(b, name, id, now, acc);
      var moved := q.inFlight[id].(queue := dlq, visibleAt := now);
      DepositImages(b2, name, moved, now, up, hash, acc);
      ImagesChain(b.store, b2.store, Deposit(b2, name, moved, now, up, hash).0.store, acc - {id});
    }
  }

  lemma ImagesLess(a: Store, b: Store, acc: Accepted, ids: set<Bytes>)
    requires ImagesKeep(a, b, acc)
    ensures ImagesKeep(a, b, acc - ids)
  {
    hide Catalogued;
    forall i | |a.trail| <= i < |b.trail| ensures Survives(b.trail[i], acc - ids) {
      assert Survives(b.trail[i], acc);
    }
  }

  lemma DepositImages(b: Broker, from: Bytes, moved: Message, now: int, up: Pattern, hash: Hash, acc: Accepted)
    requires Safe(b, acc) && moved.queue in b.queues && Homeless(HomesOf(b), moved.id) && moved.sequence == 0
    ensures ImagesKeep(b.store, Deposit(b, from, moved, now, up, hash).0.store, acc - {moved.id})
  {
    hide Agrees, Held, Enqueue, AsHeld, DeleteMessage, SaveMessage, OneHome, BackedBy, Survives, SameBut, ImagesKeep;
    var id := moved.id;
    var d := Enqueue(b.queues[moved.queue], moved, now, hash).0;
    JoinHeld(b, moved, now, hash);
    var st1 := DeleteMessage(b.store, from, id, up).0;
    DeleteFacts(b.store, from, id, up);
    SurvivesBut(b.store.disk, st1.disk, id, acc);
    ImagesStep(b.store, st1, acc - {id});
    var st2 := SaveMessage(st1, AsHeld(d, moved), up).0;
    SaveFacts(st1, AsHeld(d, moved), up);
    SurvivesBut(st1.disk, st2.disk, id, acc - {id});
    assert (acc - {id}) - {id} == acc - {id};
    ImagesStep(st1, st2, acc - {id});
    ImagesChain(b.store, st1, st2, acc - {id});
  }

  // ---------- what the move cannot promise ----------

  lemma MoveDisk(b: Broker, name: Bytes, id: Bytes, now: int, up: Pattern, hash: Hash)
    requires name in b.queues && id in b.queues[name].inFlight && b.queues[name].inFlight[id].id == id
    requires MoveToDLQ(b, name, id, now, up, hash).1.Moved?
    requires Later(b.queues[name].inFlight[id].(queue := DLQName(name)), MovedCopy(b, name, id, now, up, hash))
    ensures var (t, r) := MoveToDLQ(b, name, id, now, up, hash);
            var gone := if r.deleted then b.store.disk.records - {Key(name, id)} else b.store.disk.records;
            && |t.store.trail| >= |b.store.trail| + 2 && t.store.trail[|t.store.trail| - 2].records == gone
            && t.store.disk.records ==
                 if r.saved then gone[Key(DLQName(name), id) := MovedCopy(b, name, id, now, up, hash)] else gone
  {
    hide Enqueue, AsHeld;
  }

  /** The message as saved under the DLQ. */
  ghost function MovedCopy(b: Broker, name: Bytes, id: Bytes, now: int, up: Pattern, hash: Hash): Message
    requires name in b.queues && id in b.queues[name].inFlight
  {
    var dlq := DLQName(name);
    var moved := b.queues[name].inFlight[id].(queue := dlq, visibleAt := now);
    var b1 := SetQueue(b, name, Settle(b.queues[name], id, DeadLettered), b.store);
    var b2 := GetOrCreate(b1, dlq, up).0;
    if dlq in b2.queues then AsHeld(Enqueue(b2.queues[dlq], moved, now, hash).0, moved) else moved
  }

  lemma MovedCopyLater(b: Broker, name: Bytes, id: Bytes, now: int, up: Pattern, hash: Hash, acc: Accepted)
    requires Safe(b, acc) && name in b.queues && id in b.queues[name].inFlight
    ensures b.queues[name].inFlight[id].id == id
    ensures Later(b.queues[name].inFlight[id].(queue := DLQName(name)), MovedCopy(b, name, id, now, up, hash))
  {
    hide Agrees, Held, SoundView, Survives, Enqueue, AsHeld, Settle;
    var q, dlq := b.queues[name], DLQName(name);
    MovedFacts(b, name, id, now, acc);
    InFlightHeld(q, id);
    SettleHeld(q, id, DeadLettered);
    SettleName(q, id);
    var left := SetQueue(b, name, Settle(q, id, DeadLettered), b.store);
    LeaveSafe(b, name, id, Settle(q, id, DeadLettered), acc);
    CreateSafe(left, dlq, up, acc, id, Key(name, id));
    var (b2, created) := GetOrCreate(left, dlq, up);
    if created { JoinHeld(b2, q.inFlight[id].(queue := dlq, visibleAt := now), now, hash); }
  }

  /** From an exact broker, the moved message is still on disk if and only if its save
      succeeded or the delete before it failed; both errors are ignored. */
  lemma MoveKeepsIff(b: Broker, name: Bytes, id: Bytes, now: int, up: Pattern, hash: Hash)
    requires Safe(b, map[]) && Exact(b) && name in b.queues && id in b.queues[name].inFlight
    requires MoveToDLQ(b, name, id, now, up, hash).1.Moved?
    ensures var (t, r) := MoveToDLQ(b, name, id, now, up, hash);
            (exists n :: Key(n, id) in t.store.disk.records) <==> r.saved || !r.deleted
  {
    hide Agrees, Held, SoundView, Survives, MoveToDLQ, MovedCopy;
    MovedCopyLater(b, name, id, now, up, hash, map[]);
    MoveDisk(b, name, id, now, up, hash);
    OnlyRecordOf(b, name, id);
    var (t, r) := MoveToDLQ(b, name, id, now, up, hash);
    if r.saved { assert Key(DLQName(name), id) in t.store.disk.records; }
    else if !r.deleted { assert Key(name, id) in t.store.disk.records; }
  }

  lemma OnlyRecordOf(b: Broker, name: Bytes, id: Bytes)
    requires Exact(b) && name in b.queues && id in b.queues[name].inFlight
    ensures Key(name, id) in b.store.disk.records
    ensures forall n :: Key(n, id) in b.store.disk.records ==> n == name
  {
    hide Agrees, Held, Catalogued;
    InFlightHeld(b.queues[name], id);
    assert id in HomesOf(b)[name];
    forall n | Key(n, id) in b.store.disk.records ensures n == name {
      assert id in HomesOf(b)[n];
    }
    assert BackedBy(name, HomesOf(b)[name], b.store.disk.records);
  }

  /** From an exact broker the move leaves the message under two names if and only if its save
      succeeded and the delete before it failed. */
  lemma MoveLeftoverIff(b: Broker, name: Bytes, id: Bytes, now: int, up: Pattern, hash: Hash)
    requires Safe(b, map[]) && Exact(b) && name in b.queues && id in b.queues[name].inFlight
    requires MoveToDLQ(b, name, id, now, up, hash).1.Moved?
    ensures var (t, r) := MoveToDLQ(b, name, id, now, up, hash);
            (Key(name, id) in t.store.disk.records && Key(DLQName(name), id) in t.store.disk.records)
            <==> r.saved && !r.deleted
  {
    hide Agrees, Held, SoundView, Survives, MoveToDLQ, MovedCopy, DLQName;
    MovedCopyLater(b, name, id, now, up, hash, map[]);
    MoveDisk(b, name, id, now, up, hash);
    OnlyRecordOf(b, name, id);
    DLQDiffers(name);
  }

  /** Even when everything succeeds there is a moment when the disk has no record of the
      message at all: the old one is deleted before the new one is saved. */
  lemma MoveHasAGap(b: Broker, name: Bytes, id: Bytes, now: int, up: Pattern, hash: Hash)
    requires Safe(b, map[]) && Exact(b) && name in b.queues && id in b.queues[name].inFlight
    requires MoveToDLQ(b, name, id, now, up, hash).1 == Moved(true, true, true)
    ensures var t := MoveToDLQ(b, name, id, now, up, hash).0;
            exists i :: |b.store.trail| <= i < |t.store.trail| && forall n :: Key(n, id) !in t.store.trail[i].records
  {
    hide Agrees, Held, SoundView, Survives, MoveToDLQ, MovedCopy;
    MovedCopyLater(b, name, id, now, up, hash, map[]);
    MoveDisk(b, name, id, now, up, hash);
    OnlyRecordOf(b, name, id);
    var t := MoveToDLQ(b, name, id, now, up, hash).0;
    assert forall n :: Key(n, id) !in t.store.trail[|t.store.trail| - 2].records;
  }
}
