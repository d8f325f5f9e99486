/**
 What the store owes the memory, and what a crash leaves. `Sound` is what every handler
 keeps as long as the writes it depends on succeed: each message in memory lives in one
 queue and has its record there. `Exact` adds the converse: no record without its message.
 `Survives` says that a disk still has every accepted message.

 The invariants look at a broker through `Homes`: for each queue, the messages it holds.
 */
module Durability {
  import opened Types
  import opened QueueModel
  import opened QueueRuns
  import opened QueueHoldings
  import opened BrokerModel

  // ---------- invariants ----------

  type Shelf = map<Bytes, Message>
  type Homes = map<Bytes, Shelf>

  function HomesOf(b: Broker): Homes {
    map n | n in b.queues :: Held(b.queues[n])
  }

  /** Messages are filed under their id and addressed to the queue that holds them. */
  ghost predicate Filed(n: Bytes, h: Shelf) {
    forall id :: id in h ==> h[id].queue == n && h[id].id == id
  }

  /** Every held message has a record under its queue: the same message, at no later attempt. */
  ghost predicate BackedBy(n: Bytes, h: Shelf, records: map<Key, Message>) {
    forall id :: id in h ==> Key(n, id) in records && Later(records[Key(n, id)], h[id])
  }

  /** Every record's queue has a stored config, so recovery will look for it; and no record has a
      sequence number, which recovery would not bring back. */
  ghost predicate Catalogued(d: Disk) {
    forall k :: k in d.records ==>
      k.queue in d.configs && d.records[k].queue == k.queue && d.records[k].id == k.id && d.records[k].sequence == 0
  }

  ghost predicate OneHome(homes: Homes) {
    forall n, k, id :: n in homes && k in homes && id in homes[n] && id in homes[k] ==> n == k
  }

  ghost predicate SoundView(homes: Homes, d: Disk) {
    && homes.Keys <= d.configs.Keys
    && (forall n :: n in homes ==> Filed(n, homes[n]) && BackedBy(n, homes[n], d.records))
    && OneHome(homes)
    && Catalogued(d)
  }

  ghost predicate QueuesOk(b: Broker) {
    forall n :: n in b.queues ==> Agrees(b.queues[n]) && b.queues[n].name == n
  }

  ghost predicate Sound(b: Broker) {
    QueuesOk(b) && SoundView(HomesOf(b), b.store.disk)
  }

  /** No record without its message in memory. */
  ghost predicate NoStrays(homes: Homes, d: Disk) {
    forall k :: k in d.records ==> k.queue in homes && k.id in homes[k.queue]
  }

  /** No message has two records. */
  ghost predicate OneRecord(d: Disk) {
    forall j, k :: j in d.records && k in d.records && j.id == k.id ==> j == k
  }

  ghost predicate Exact(b: Broker) {
    Sound(b) && NoStrays(HomesOf(b), b.store.disk)
  }

  /** Published successfully, and not acked, dropped or purged since. */
  type Accepted = map<Bytes, Content>

  ghost predicate StoredAs(d: Disk, id: Bytes, c: Content) {
    exists n :: Key(n, id) in d.records && n in d.configs && ContentOf(d.records[Key(n, id)]) == c
  }

  ghost predicate Survives(d: Disk, acc: Accepted) {
    forall id :: id in acc ==> StoredAs(d, id, acc[id])
  }

  /** A crash at any moment between the two store states leaves a disk with `acc` on it. */
  ghost predicate ImagesKeep(a: Store, b: Store, acc: Accepted) {
    && |a.trail| <= |b.trail| && b.trail[..|a.trail|] == a.trail
    && forall i :: |a.trail| <= i < |b.trail| ==> Survives(b.trail[i], acc) && Catalogued(b.trail[i])
  }

  // ---------- changing the records of one message ----------

  /** `d` and `e` differ at most in the records of message `id`. */
  ghost predicate SameBut(d: Disk, e: Disk, id: Bytes) {
    && d.configs.Keys <= e.configs.Keys
    && (forall k: Key :: k.id != id ==> (k in d.records <==> k in e.records))
    && (forall k: Key :: k.id != id && k in d.records && k in e.records ==> d.records[k] == e.records[k])
  }

  lemma SurvivesBut(d: Disk, e: Disk, id: Bytes, acc: Accepted)
    requires SameBut(d, e, id) && Survives(d, acc)
    ensures Survives(e, acc - {id})
    ensures id in acc && StoredAs(e, id, acc[id]) ==> Survives(e, acc)
  {
    forall x | x in acc && x != id ensures StoredAs(e, x, acc[x]) {
      assert StoredAs(d, x, acc[x]);
      var n :| Key(n, x) in d.records && n in d.configs && ContentOf(d.records[Key(n, x)]) == acc[x];
      assert Key(n, x).id != id;
      assert Key(n, x) in e.records;
    }
  }

  lemma SurvivesMore(d: Disk, acc: Accepted, id: Bytes, c: Content)
    requires Survives(d, acc) && StoredAs(d, id, c)
    ensures Survives(d, acc[id := c])
  {
  }

  /** Storing a message, and what it takes to keep the disk catalogued. */
  lemma SaveFacts(st: Store, m: Message, up: Pattern)
    ensures var (t, ok) := SaveMessage(st, m, up);
            && SameBut(st.disk, t.disk, m.id) && t.disk.configs == st.disk.configs
            && (Catalogued(st.disk) && m.queue in st.disk.configs && m.sequence == 0 ==> Catalogued(t.disk))
            && t.trail == st.trail + [t.disk] && ok == up(st.calls)
            && t.disk.records == if ok then st.disk.records[Key(m.queue, m.id) := m] else st.disk.records
  {
  }

  lemma DeleteFacts(st: Store, queue: Bytes, id: Bytes, up: Pattern)
    ensures var (t, ok) := DeleteMessage(st, queue, id, up);
            && SameBut(st.disk, t.disk, id) && t.disk.configs == st.disk.configs
            && (Catalogued(st.disk) ==> Catalogued(t.disk))
            && t.trail == st.trail + [t.disk] && ok == up(st.calls)
            && t.disk.records == if ok then st.disk.records - {Key(queue, id)} else st.disk.records
  {
  }

  /** Held messages have no sequence number either. */
  lemma PlainHeld(homes: Homes, d: Disk, n: Bytes, id: Bytes)
    requires SoundView(homes, d) && n in homes && id in homes[n]
    ensures homes[n][id].sequence == 0
  {
    assert Key(n, id) in d.records && Later(d.records[Key(n, id)], homes[n][id]);
  }

  // ---------- changing what one queue holds ----------

  /** One queue's messages change, and on disk only the records of one message. */
  lemma Rehome(homes: Homes, d: Disk, n: Bytes, h: Shelf, e: Disk, id: Bytes)
    requires SoundView(homes, d) && n in d.configs
    requires Filed(n, h) && BackedBy(n, h, e.records)
    requires SameBut(d, e, id) && Catalogued(e)
    requires forall k :: k in homes && k != n ==> id !in homes[k]
    requires forall x :: x in h && x != id ==> n in homes && x in homes[n]
    ensures SoundView(homes[n := h], e)
  {
    hide Later, Filed;
    OthersBacked(homes, d, n, e, id);
    OneHomeStill(homes, n, h, id);
    hide BackedBy, SameBut, OneHome, Catalogued;
  }

  lemma OthersBacked(homes: Homes, d: Disk, n: Bytes, e: Disk, id: Bytes)
    requires forall k :: k in homes ==> BackedBy(k, homes[k], d.records)
    requires forall k :: k in homes && k != n ==> id !in homes[k]
    requires SameBut(d, e, id)
    ensures forall k :: k in homes && k != n ==> BackedBy(k, homes[k], e.records)
  {
    hide Later;
    forall k, x | k in homes && k != n && x in homes[k]
      ensures Key(k, x) in e.records && Later(e.records[Key(k, x)], homes[k][x])
    {
      assert Key(k, x).id != id;
    }
  }

  lemma OneHomeStill(homes: Homes, n: Bytes, h: Shelf, id: Bytes)
    requires OneHome(homes)
    requires forall k :: k in homes && k != n ==> id !in homes[k]
    requires forall x :: x in h && x != id ==> n in homes && x in homes[n]
    ensures OneHome(homes[n := h])
  {
  }

  lemma SoundGrow(homes: Homes, d: Disk, e: Disk)
    requires SoundView(homes, d) && e.records == d.records && d.configs.Keys <= e.configs.Keys
    ensures SoundView(homes, e)
  {
  }

  lemma SoundCatalogued(homes: Homes, d: Disk)
    requires SoundView(homes, d)
    ensures Catalogued(d)
  {
  }

  lemma EmptyShelf(homes: Homes, d: Disk, n: Bytes)
    requires SoundView(homes, d) && n in d.configs
    ensures SoundView(homes[n := map[]], d)
  {
  }

  lemma SetQueueHomes(b: Broker, n: Bytes, q: Queue, st: Store)
    ensures HomesOf(SetQueue(b, n, q, st)) == HomesOf(b)[n := Held(q)]
    ensures QueuesOk(b) && Agrees(q) && q.name == n ==> QueuesOk(SetQueue(b, n, q, st))
  {
    hide Held, Agrees;
  }

  // ---------- crash images ----------

  lemma ImagesStep(a: Store, b: Store, acc: Accepted)
    requires b.trail == a.trail + [b.disk] && Survives(b.disk, acc) && Catalogued(b.disk)
    ensures ImagesKeep(a, b, acc)
  {
  }

  lemma ImagesChain(a: Store, b: Store, c: Store, acc: Accepted)
    requires ImagesKeep(a, b, acc) && ImagesKeep(b, c, acc)
    ensures ImagesKeep(a, c, acc)
  {
    hide Survives, Catalogued;
    forall i | |a.trail| <= i < |c.trail| ensures Survives(c.trail[i], acc) && Catalogued(c.trail[i]) {
      if i < |b.trail| { assert c.trail[..|b.trail|][i] == b.trail[i]; }
    }
    assert c.trail[..|a.trail|] == c.trail[..|b.trail|][..|a.trail|];
  }

  // ---------- creating a queue ----------

  lemma NewQueueOk(name: Bytes)
    ensures Agrees(NewQueue(name)) && Held(NewQueue(name)) == map[]
  {
  }

  lemma CreateSound(b: Broker, name: Bytes, up: Pattern)
    requires Sound(b)
    ensures var (t, ok) := GetOrCreate(b, name, up);
            && Sound(t) && t.store.disk.records == b.store.disk.records
            && HomesOf(t) == if ok && name !in b.queues then HomesOf(b)[name := map[]] else HomesOf(b)
  {
    hide Held, Agrees;
    NewQueueOk(name);
    var (st, ok) := SaveQueue(b.store, name, DEFAULT_CONFIG, up);
    if name !in b.queues {
      SoundGrow(HomesOf(b), b.store.disk, st.disk);
      if ok {
        SetQueueHomes(b, name, NewQueue(name), st);
        EmptyShelf(HomesOf(b), st.disk, name);
      }
      assert HomesOf(b.(store := st)) == HomesOf(b);
    }
  }

  lemma SurvivesGrow(d: Disk, e: Disk, acc: Accepted)
    requires Survives(d, acc) && d.records == e.records && d.configs.Keys <= e.configs.Keys
    ensures Survives(e, acc)
  {
    forall x | x in acc ensures StoredAs(e, x, acc[x]) {
      assert StoredAs(d, x, acc[x]);
    }
  }

  lemma CreateKeeps(b: Broker, name: Bytes, up: Pattern, acc: Accepted)
    requires Survives(b.store.disk, acc) && Catalogued(b.store.disk)
    ensures var (t, ok) := GetOrCreate(b, name, up);
            Survives(t.store.disk, acc) && ImagesKeep(b.store, t.store, acc)
  {
    var t := GetOrCreate(b, name, up).0;
    SurvivesGrow(b.store.disk, t.store.disk, acc);
    if name !in b.queues { ImagesStep(b.store, t.store, acc); }
  }

  // ---------- enqueueing a stored message ----------

  /** No queue holds the id. */
  ghost predicate Homeless(homes: Homes, id: Bytes) {
    forall n :: n in homes ==> id !in homes[n]
  }

  /** An id no queue holds and no record carries. */
  ghost predicate FreshId(b: Broker, id: Bytes) {
    Homeless(HomesOf(b), id) && forall k :: k in b.store.disk.records ==> k.id != id
  }

  /** What a publish starts from. */
  ghost predicate NewMessage(b: Broker, m: Message) {
    FreshId(b, m.id) && m.sequence == 0
  }

  lemma FreshNotAccepted(b: Broker, id: Bytes, acc: Accepted)
    requires FreshId(b, id) && Survives(b.store.disk, acc)
    ensures id !in acc
  {
    forall x | x in acc ensures x != id {
      assert StoredAs(b.store.disk, x, acc[x]);
      var n :| Key(n, x) in b.store.disk.records;
      assert Key(n, x).id == x;
    }
  }

  /** The shelf after a message joins it and some of it is delivered. */
  lemma ShelveSound(homes: Homes, d: Disk, m: Message, h: Shelf, e: Disk)
    requires SoundView(homes, d) && m.queue in homes && Homeless(homes, m.id)
    requires Advanced(homes[m.queue][m.id := m], h)
    requires SameBut(d, e, m.id) && Catalogued(e)
    requires Key(m.queue, m.id) in e.records && Later(e.records[Key(m.queue, m.id)], h[m.id])
    ensures SoundView(homes[m.queue := h], e)
  {
    var n, h0 := m.queue, homes[m.queue];
    forall x | x in h
      ensures Key(n, x) in e.records && Later(e.records[Key(n, x)], h[x]) && h[x].queue == n && h[x].id == x
    {
      assert x in h0[m.id := m] && Later(h0[m.id := m][x], h[x]);
      if x != m.id { assert x in h0 && Key(n, x).id != m.id && Later(d.records[Key(n, x)], h0[x]); }
    }
    Rehome(homes, d, n, h, e, m.id);
  }

  /** Records of a message nobody holds may come and go. */
  lemma StillSound(homes: Homes, d: Disk, e: Disk, id: Bytes)
    requires SoundView(homes, d) && SameBut(d, e, id) && Catalogued(e) && Homeless(homes, id)
    ensures SoundView(homes, e)
  {
    hide Later, OneHome, Catalogued;
    forall k, x | k in homes && x in homes[k]
      ensures Key(k, x) in e.records && Later(e.records[Key(k, x)], homes[k][x])
    {
      assert Key(k, x).id != id;
    }
  }

  /** A queue's messages advance; the record of one of them may be rewritten. */
  lemma AdvanceSound(homes: Homes, d: Disk, n: Bytes, h: Shelf, e: Disk, id: Bytes)
    requires SoundView(homes, d) && n in homes && Advanced(homes[n], h)
    requires SameBut(d, e, id) && Catalogued(e)
    requires id in h ==> Key(n, id) in e.records && Later(e.records[Key(n, id)], h[id])
    requires forall k :: k in homes && k != n ==> id !in homes[k]
    ensures SoundView(homes[n := h], e)
  {
    forall x | x in h
      ensures Key(n, x) in e.records && Later(e.records[Key(n, x)], h[x]) && h[x].queue == n && h[x].id == x
    {
      assert Later(homes[n][x], h[x]);
      if x != id { assert Key(n, x).id != id && Later(d.records[Key(n, x)], homes[n][x]); }
    }
    Rehome(homes, d, n, h, e, id);
  }

  /** A message leaves its queue; its records may go with it. */
  lemma DropSound(homes: Homes, d: Disk, n: Bytes, id: Bytes, h: Shelf, e: Disk)
    requires SoundView(homes, d) && n in homes && id in homes[n] && Advanced(homes[n] - {id}, h)
    requires SameBut(d, e, id) && Catalogued(e)
    ensures SoundView(homes[n := h], e) && Homeless(homes[n := h], id)
  {
    forall x | x in h
      ensures Key(n, x) in e.records && Later(e.records[Key(n, x)], h[x]) && h[x].queue == n && h[x].id == x
    {
      assert Later((homes[n] - {id})[x], h[x]);
      assert Key(n, x).id != id && Later(d.records[Key(n, x)], homes[n][x]);
    }
    Rehome(homes, d, n, h, e, id);
  }

  // ---------- accepted messages ----------

  /** What memory holds of an accepted message is what was published. */
  ghost predicate Faithful(homes: Homes, acc: Accepted) {
    forall n, id :: n in homes && id in homes[n] && id in acc ==> ContentOf(homes[n][id]) == acc[id]
  }

  /** Sound, and every accepted message is on disk, whether memory still has it or not. */
  ghost predicate Safe(b: Broker, acc: Accepted) {
    Sound(b) && Faithful(HomesOf(b), acc) && Survives(b.store.disk, acc)
  }

  lemma HeldStored(homes: Homes, d: Disk, acc: Accepted, n: Bytes, id: Bytes)
    requires SoundView(homes, d) && Faithful(homes, acc) && n in homes && id in homes[n] && id in acc
    ensures StoredAs(d, id, acc[id])
  {
    assert Key(n, id) in d.records && Later(d.records[Key(n, id)], homes[n][id]);
  }

  /** If nobody lost a record but perhaps message `id`, and `id` is held, all is kept. */
  lemma SurvivesHeld(homes: Homes, d: Disk, e: Disk, acc: Accepted, n: Bytes, id: Bytes)
    requires Survives(d, acc) && SameBut(d, e, id)
    requires SoundView(homes, e) && Faithful(homes, acc) && n in homes && id in homes[n]
    ensures Survives(e, acc)
  {
    SurvivesBut(d, e, id, acc);
    if id in acc { HeldStored(homes, e, acc, n, id); }
    else { assert acc - {id} == acc; }
  }

  lemma FaithfulAdvance(homes: Homes, acc: Accepted, n: Bytes, h0: Shelf, h: Shelf)
    requires Faithful(homes[n := h0], acc) && Advanced(h0, h)
    ensures Faithful(homes[n := h], acc)
  {
    var t := homes[n := h];
    forall k, id | k in t && id in t[k] && id in acc ensures ContentOf(t[k][id]) == acc[id] {
      assert ContentOf(homes[n := h0][k][id]) == acc[id];
      if k == n { assert Later(h0[id], h[id]); }
    }
  }

  lemma FaithfulDrop(homes: Homes, acc: Accepted, n: Bytes, id: Bytes)
    requires Faithful(homes, acc) && n in homes
    ensures Faithful(homes[n := homes[n] - {id}], acc - {id}) && Faithful(homes[n := homes[n] - {id}], acc)
  {
  }

  lemma FaithfulJoin(homes: Homes, acc: Accepted, m: Message)
    requires Faithful(homes, acc) && Homeless(homes, m.id) && m.queue in homes
    ensures Faithful(homes[m.queue := homes[m.queue][m.id := m]], acc[m.id := ContentOf(m)])
  {
  }
}
