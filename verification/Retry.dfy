/**
 The dead-letter retry loop: what is on disk at every point between its storage calls, what
 is in memory after it, and the two ways it can lose a message.
 */
module Retry {
  import opened Types
  import opened QueueModel
  import opened QueueRuns
  import opened QueueHoldings
  import opened BrokerModel
  import opened Durability
  import opened Handlers

  // ---------- one pass: the disk ----------

  /** The head of the DLQ and its copy addressed to the original queue. */
  function Head(b: Broker, name: Bytes): Message
    requires DLQName(name) in b.queues && b.queues[DLQName(name)].pending != []
  {
    b.queues[DLQName(name)].pending[0]
  }

  function CopyOf(m: Message, name: Bytes, now: int): Message {
    m.(queue := name, attempt := 0, visibleAt := now)
  }

  /** There is something to retry; the target queue may be missing. */
  ghost predicate HasHead(b: Broker, name: Bytes) {
    DLQName(name) in b.queues && b.queues[DLQName(name)].pending != []
  }

  ghost predicate CanRetry(b: Broker, name: Bytes) {
    name in b.queues && HasHead(b, name)
  }

  lemma PendingFacts(b: Broker, name: Bytes, i: nat, acc: Accepted)
    requires Safe(b, acc) && DLQName(name) in b.queues && i < |b.queues[DLQName(name)].pending|
    ensures var m, dlq := b.queues[DLQName(name)].pending[i], DLQName(name);
            && m.id in HomesOf(b)[dlq] && HomesOf(b)[dlq][m.id] == m && m.queue == dlq && m.sequence == 0
            && (m.id in acc ==> ContentOf(m) == acc[m.id])
            && Key(dlq, m.id) in b.store.disk.records
            && ContentOf(b.store.disk.records[Key(dlq, m.id)]) == ContentOf(m)
            && dlq in b.store.disk.configs && Catalogued(b.store.disk)
            && b.queues.Keys <= b.store.disk.configs.Keys
  {
    hide Agrees, Held, OneHome, Survives;
    var m, dlq := b.queues[DLQName(name)].pending[i], DLQName(name);
    PendingHeld(b.queues[dlq], i);
    assert HomesOf(b)[dlq] == Held(b.queues[dlq]);
    assert Filed(dlq, HomesOf(b)[dlq]) && BackedBy(dlq, HomesOf(b)[dlq], b.store.disk.records);
    PlainHeld(HomesOf(b), b.store.disk, dlq, m.id);
  }

  lemma HeadFacts(b: Broker, name: Bytes, acc: Accepted)
    requires Safe(b, acc) && CanRetry(b, name)
    ensures var m, dlq := Head(b, name), DLQName(name);
            && m.id in HomesOf(b)[dlq] && HomesOf(b)[dlq][m.id] == m && m.queue == dlq
            && (m.id in acc ==> ContentOf(m) == acc[m.id])
            && Key(dlq, m.id) in b.store.disk.records
            && ContentOf(b.store.disk.records[Key(dlq, m.id)]) == ContentOf(m)
            && {name, dlq} <= b.store.disk.configs.Keys && Catalogued(b.store.disk)
  {
    hide Safe, HomesOf, Catalogued;
    PendingFacts(b, name, 0, acc);
  }

  /** The message is stored under one of the two queues. */
  ghost predicate HasEither(d: Disk, name: Bytes, m: Message) {
    || (Key(name, m.id) in d.records && ContentOf(d.records[Key(name, m.id)]) == ContentOf(m))
    || (Key(DLQName(name), m.id) in d.records && ContentOf(d.records[Key(DLQName(name), m.id)]) == ContentOf(m))
  }

  /** A disk during the pass over `m`, which began at `d`: `m` is stored under one of the two
      queues and nobody else is affected. */
  ghost predicate DuringPass(d: Disk, e: Disk, name: Bytes, m: Message) {
    && HasEither(e, name, m) && SameBut(d, e, m.id) && e.configs == d.configs
    && (name in d.configs ==> Catalogued(e))
  }

  /** So at every point between two store states. */
  ghost predicate ImagesDuring(d: Disk, a: Store, b: Store, name: Bytes, m: Message) {
    && |a.trail| <= |b.trail| && b.trail[..|a.trail|] == a.trail && DuringPass(d, b.disk, name, m)
    && forall i :: |a.trail| <= i < |b.trail| ==> DuringPass(d, b.trail[i], name, m)
  }

  /** One more storage call of the pass, on the records of `m` only. */
  lemma OneMoreCall(d: Disk, a: Store, b: Store, c: Store, name: Bytes, m: Message)
    requires ImagesDuring(d, a, b, name, m) && c.trail == b.trail + [c.disk]
    requires SameBut(b.disk, c.disk, m.id) && c.disk.configs == d.configs && HasEither(c.disk, name, m)
    requires name in d.configs ==> Catalogued(c.disk)
    ensures ImagesDuring(d, a, c, name, m)
  {
    hide HasEither, SameBut, Catalogued;
    SameButChain(d, b.disk, c.disk, m.id);
    assert c.trail[..|a.trail|] == b.trail[..|a.trail|];
  }

  /** At every point between storage calls of a pass, whatever fails, and whether or not the
      target queue is there: the head is stored under one of the two queues. */
  lemma PassStores(b: Broker, name: Bytes, now: int, up: Pattern, hash: Hash, acc: Accepted)
    requires Safe(b, acc) && HasHead(b, name)
    ensures ImagesDuring(b.store.disk, b.store, RetryHead(b, name, now, up, hash).0.store, name, Head(b, name))
  {
    hide Agrees, Held, Safe, Enqueue, SaveMessage, DeleteMessage, SameBut, Catalogued, ImagesDuring;
    var m, dlq := Head(b, name), DLQName(name);
    var copy := CopyOf(m, name, now);
    PendingFacts(b, name, 0, acc);
    DLQDiffers(name);
    var d := b.store.disk;
    PassBegins(b.store, name, m);
    var (st1, saved) := SaveMessage(b.store, copy, up);
    SaveFacts(b.store, copy, up);
    OneMoreCall(d, b.store, b.store, st1, name, m);
    if saved {
      var (st2, deleted) := DeleteMessage(st1, dlq, m.id, up);
      DeleteFacts(st1, dlq, m.id, up);
      OneMoreCall(d, b.store, st1, st2, name, m);
      if !deleted {
        DeleteFacts(st2, name, m.id, up);
        OneMoreCall(d, b.store, st2, DeleteMessage(st2, name, m.id, up).0, name, m);
      } else if name in b.queues && !Enqueue(b.queues[name], copy, now, hash).1 {
        var (st3, restored) := SaveMessage(st2, m, up);
        SaveFacts(st2, m, up);
        OneMoreCall(d, b.store, st2, st3, name, m);
        if restored {
          DeleteFacts(st3, name, m.id, up);
          OneMoreCall(d, b.store, st3, DeleteMessage(st3, name, m.id, up).0, name, m);
        }
      }
    }
  }

  lemma PassBegins(a: Store, name: Bytes, m: Message)
    requires HasEither(a.disk, name, m) && Catalogued(a.disk)
    ensures ImagesDuring(a.disk, a, a, name, m)
  {
  }

  lemma DuringKeeps(d: Disk, e: Disk, name: Bytes, m: Message, acc: Accepted)
    requires DuringPass(d, e, name, m) && {name, DLQName(name)} <= d.configs.Keys && Survives(d, acc)
    requires m.id in acc ==> ContentOf(m) == acc[m.id]
    ensures Survives(e, acc) && Catalogued(e)
  {
    SurvivesBut(d, e, m.id, acc);
    if m.id in acc { assert StoredAs(e, m.id, acc[m.id]); } else { assert acc - {m.id} == acc; }
  }

  /** So if recovery knows both names no crash point of the pass misses an accepted message. */
  lemma PassImages(b: Broker, name: Bytes, now: int, up: Pattern, hash: Hash, acc: Accepted)
    requires Safe(b, acc) && HasHead(b, name) && name in b.store.disk.configs
    ensures var (t, r, more) := RetryHead(b, name, now, up, hash);
            && ImagesKeep(b.store, t.store, acc) && Survives(t.store.disk, acc)
            && SameBut(b.store.disk, t.store.disk, Head(b, name).id) && Catalogued(t.store.disk)
            && t.store.disk.configs == b.store.disk.configs
  {
    hide Agrees, Held, Safe, RetryHead, Survives, SameBut, Catalogued, HasEither, DLQName;
    var m := Head(b, name);
    PassStores(b, name, now, up, hash, acc);
    PendingFacts(b, name, 0, acc);
    SafeSurvives(b, acc);
    var t := RetryHead(b, name, now, up, hash).0;
    DuringKeeps(b.store.disk, t.store.disk, name, m, acc);
    forall i | |b.store.trail| <= i < |t.store.trail|
      ensures Survives(t.store.trail[i], acc) && Catalogued(t.store.trail[i])
    {
      DuringKeeps(b.store.disk, t.store.trail[i], name, m, acc);
    }
  }

  /** Every queue in memory is one recovery knows. */
  lemma SafeKnown(b: Broker, acc: Accepted)
    requires Safe(b, acc)
    ensures b.queues.Keys <= b.store.disk.configs.Keys
  {
    assert HomesOf(b).Keys == b.queues.Keys;
  }

  lemma SafeSurvives(b: Broker, acc: Accepted)
    requires Safe(b, acc)
    ensures Survives(b.store.disk, acc)
  {
  }

  // ---------- one pass: memory and disk together ----------

  /** The pass ended without moving the head, and its record is there. */
  lemma PassStays(b: Broker, name: Bytes, st: Store, acc: Accepted)
    requires Safe(b, acc) && CanRetry(b, name) && Survives(st.disk, acc)
    requires var m := Head(b, name);
             && SameBut(b.store.disk, st.disk, m.id) && Catalogued(st.disk)
             && Key(DLQName(name), m.id) in st.disk.records
             && Later(st.disk.records[Key(DLQName(name), m.id)], m)
    ensures Safe(b.(store := st), acc)
    ensures st.disk.records.Keys <= b.store.disk.records.Keys ==> StillExact(b, b.(store := st))
  {
    hide Agrees, Held, Survives, OneHome, BackedBy, Catalogued, SameBut, Later;
    var m, dlq, homes := Head(b, name), DLQName(name), HomesOf(b);
    HeadFacts(b, name, acc);
    assert HomesOf(b.(store := st)) == homes;
    assert homes[dlq := homes[dlq]] == homes;
    OnlyHome(homes, dlq, m.id);
    AdvancedRefl(homes[dlq]);
    AdvanceSound(homes, b.store.disk, dlq, homes[dlq], st.disk, m.id);
  }

  lemma AdvancedRefl(h: Shelf)
    ensures Advanced(h, h)
  {
  }

  /** The head left the DLQ and its copy joined the original queue, where its record is. */
  lemma PassMoves(b: Broker, name: Bytes, now: int, hash: Hash, st: Store, acc: Accepted)
    requires Safe(b, acc) && CanRetry(b, name) && Survives(st.disk, acc)
    requires var m := Head(b, name); var copy := CopyOf(m, name, now);
             && Enqueue(b.queues[name], copy, now, hash).1
             && SameBut(b.store.disk, st.disk, m.id) && Catalogued(st.disk)
             && Key(name, m.id) in st.disk.records && st.disk.records[Key(name, m.id)] == copy
    ensures var q := Enqueue(b.queues[name], CopyOf(Head(b, name), name, now), now, hash).0;
            var d := Pull(b.queues[DLQName(name)], 0, Retried);
            var t := Broker(b.queues[name := q][DLQName(name) := d], st);
            && Safe(t, acc)
            && Held(d).Keys == Held(b.queues[DLQName(name)]).Keys - {Head(b, name).id}
            && Held(q).Keys == Held(b.queues[name]).Keys + {Head(b, name).id}
            && (st.disk.records.Keys ==
                b.store.disk.records.Keys - {Key(DLQName(name), Head(b, name).id)} + {Key(name, Head(b, name).id)}
                ==> StillExact(b, t))
  {
    hide Agrees, Held, Survives, OneHome, BackedBy, Catalogued, SameBut, Enqueue, Pull;
    var m, dlq := Head(b, name), DLQName(name);
    var copy := CopyOf(m, name, now);
    var d := Pull(b.queues[dlq], 0, Retried);
    HeadFacts(b, name, acc);
    DLQDiffers(name);
    PullHeld(b.queues[dlq], 0, Retried);
    LeaveSafe(b, dlq, m.id, d, acc);
    var b1 := SetQueue(b, dlq, d, b.store);
    PassJoins(b1, copy, now, hash, st, acc);
    var q := Enqueue(b.queues[name], copy, now, hash).0;
    assert b1.queues[name] == b.queues[name];
    assert Broker(b.queues[name := q][dlq := d], st) == SetQueue(b1, name, q, st);
    SetQueueHomes(b1, name, q, st);
    if NoStrays(HomesOf(b), b.store.disk) &&
       st.disk.records.Keys == b.store.disk.records.Keys - {Key(dlq, m.id)} + {Key(name, m.id)}
    {
      JoinStrays(HomesOf(b1), b.store.disk, Key(dlq, m.id), name, m.id, Held(q), st.disk);
    }
  }

  /** A message nobody holds joins a queue under a record already written. */
  lemma PassJoins(b: Broker, m: Message, now: int, hash: Hash, st: Store, acc: Accepted)
    requires Safe(b, acc) && m.queue in b.queues && Homeless(HomesOf(b), m.id) && Survives(st.disk, acc)
    requires m.id in acc ==> ContentOf(m) == acc[m.id]
    requires Enqueue(b.queues[m.queue], m, now, hash).1
    requires SameBut(b.store.disk, st.disk, m.id) && Catalogued(st.disk)
    requires Key(m.queue, m.id) in st.disk.records && st.disk.records[Key(m.queue, m.id)] == m
    ensures var q := Enqueue(b.queues[m.queue], m, now, hash).0;
            && Safe(SetQueue(b, m.queue, q, st), acc)
            && Held(q).Keys == Held(b.queues[m.queue]).Keys + {m.id}
  {
    hide Agrees, Held, Survives, OneHome, BackedBy, Catalogued, SameBut, Enqueue, AsHeld;
    var homes, n := HomesOf(b), m.queue;
    var q := Enqueue(b.queues[n], m, now, hash).0;
    JoinHeld(b, m, now, hash);
    SetQueueHomes(b, n, q, st);
    ShelveSound(homes, b.store.disk, m, Held(q), st.disk);
    FaithfulMove(homes, acc, m);
    FaithfulAdvance(homes, acc, n, homes[n][m.id := m], Held(q));
    assert homes[n] == Held(b.queues[n]);
  }

  /** The ids a queue holds; none if there is no such queue. */
  ghost function HeldIn(b: Broker, n: Bytes): set<Bytes> {
    if n in b.queues then Held(b.queues[n]).Keys else {}
  }

  /** Every message of the two queues is in exactly one of them afterwards. */
  ghost predicate EachInOne(b: Broker, t: Broker, name: Bytes) {
    var dlq := DLQName(name);
    && HeldIn(t, dlq) !! HeldIn(t, name)
    && HeldIn(t, dlq) + HeldIn(t, name) == HeldIn(b, dlq) + HeldIn(b, name)
  }

  lemma Apart(b: Broker, name: Bytes, acc: Accepted)
    requires Safe(b, acc)
    ensures forall st :: EachInOne(b, b.(store := st), name)
  {
    hide Agrees, Held, Survives, BackedBy, Catalogued;
    DLQDiffers(name);
    var homes, dlq := HomesOf(b), DLQName(name);
    assert name in b.queues ==> homes[name] == Held(b.queues[name]);
    assert dlq in b.queues ==> homes[dlq] == Held(b.queues[dlq]);
    assert HeldIn(b, dlq) !! HeldIn(b, name);
    assert forall st, n :: HeldIn(b.(store := st), n) == HeldIn(b, n);
  }

  /** One pass keeps the broker safe unless putting the head's record back failed, and keeps
      memory and disk in step if no rollback failed. */
  lemma PassSafe(b: Broker, name: Bytes, now: int, up: Pattern, hash: Hash, acc: Accepted)
    requires Safe(b, acc) && CanRetry(b, name)
    ensures var (t, r, more) := RetryHead(b, name, now, up, hash);
            && (r != NotRestored ==> Safe(t, acc))
            && (r in {AllRetried, CopyNotSaved, OldNotDeleted(true), Restored} ==> StillExact(b, t))
            && r != NoTarget && (more <==> r == AllRetried)
            && EachInOne(b, t, name)
  {
    hide Agrees, Held, Safe, Survives, ImagesKeep, Enqueue, SameBut, Catalogued, NoStrays, Pull;
    Apart(b, name, acc);
    HeadFacts(b, name, acc);
    PassImages(b, name, now, up, hash, acc);
    DLQDiffers(name);
    var (t, r, more) := RetryHead(b, name, now, up, hash);
    LaterSame(b, name, acc);
    if more {
      PassMoves(b, name, now, hash, t.store, acc);
    } else if r != NotRestored {
      PassStays(b, name, t.store, acc);
    }
  }

  lemma LaterSame(b: Broker, name: Bytes, acc: Accepted)
    requires Safe(b, acc) && CanRetry(b, name)
    ensures var m := Head(b, name);
            && Later(m, m) && Key(DLQName(name), m.id) in b.store.disk.records
            && Later(b.store.disk.records[Key(DLQName(name), m.id)], m)
  {
    hide Agrees, Held, OneHome, Survives;
    HeadFacts(b, name, acc);
    assert BackedBy(DLQName(name), HomesOf(b)[DLQName(name)], b.store.disk.records);
  }

  // ---------- the whole loop ----------

  /** The loop, from a safe broker, under every pattern of failing calls. No message is in both
      queues or in neither. If recovery knows both names, no crash point inside it misses an
      accepted message. If the target queue is there, the broker is safe afterwards unless a
      record could not be put back, and exact if no rollback failed. */
  lemma {:induction false} LoopSafe(b: Broker, name: Bytes, k: nat, now: int, up: Pattern, hash: Hash, acc: Accepted)
    requires Safe(b, acc) && DLQName(name) in b.queues
    ensures var (t, n, r) := RetryLoop(b, name, k, now, up, hash);
            && EachInOne(b, t, name)
            && (name in b.store.disk.configs ==> ImagesKeep(b.store, t.store, acc) && Survives(t.store.disk, acc))
            && (name in b.queues ==> r != NoTarget && (r != NotRestored ==> Safe(t, acc)))
            && (name in b.queues && r in {AllRetried, CopyNotSaved, OldNotDeleted(true), Restored} ==> StillExact(b, t))
    decreases |b.queues[DLQName(name)].pending|
  {
    hide Agrees, Held, Safe, Survives, NoStrays, RetryHead, EachInOne, Catalogued;
    var pending := b.queues[DLQName(name)].pending;
    if pending == [] {
      SafeSurvives(b, acc);
      Apart(b, name, acc);
      assert b.(store := b.store) == b;
    } else {
      if name in b.store.disk.configs { PassImages(b, name, now, up, hash, acc); }
      var (b1, r, more) := RetryHead(b, name, now, up, hash);
      if name !in b.queues {
        PassWithoutTarget(b, name, now, up, hash);
        Apart(b, name, acc);
      } else {
        SafeKnown(b, acc);
        PassSafe(b, name, now, up, hash, acc);
        if more {
          PassShrinks(b, name, now, up, hash);
          PassOutcome(b, name, now, up, hash);
          LoopSafe(b1, name, k + 1, now, up, hash, acc);
          var t := RetryLoop(b1, name, k + 1, now, up, hash).0;
          EachInOneChain(b, b1, t, name);
          ImagesChain(b.store, b1.store, t.store, acc);
        }
      }
    }
  }

  lemma EachInOneChain(b: Broker, b1: Broker, t: Broker, name: Bytes)
    requires EachInOne(b, b1, name) && EachInOne(b1, t, name)
    ensures EachInOne(b, t, name)
  {
    hide HeldIn;
  }

  lemma PassWithoutTarget(b: Broker, name: Bytes, now: int, up: Pattern, hash: Hash)
    requires HasHead(b, name) && name !in b.queues
    ensures var (t, r, more) := RetryHead(b, name, now, up, hash);
            t == b.(store := t.store) && !more && (r == CopyNotSaved || r.OldNotDeleted? || r == NoTarget)
  {
  }

  // ---------- the whole loop: the disk ----------

  /** Every one of the messages is stored under one of the two queues, and the records of all
      others are as they were on `d`. */
  ghost predicate DuringLoop(d: Disk, e: Disk, name: Bytes, ms: seq<Message>) {
    && (forall j :: 0 <= j < |ms| ==> HasEither(e, name, ms[j]))
    && (forall k: Key :: k.id !in Ids(ms) ==> (k in d.records <==> k in e.records))
    && (forall k: Key :: k.id !in Ids(ms) && k in d.records && k in e.records ==> d.records[k] == e.records[k])
  }

  /** During the first pass. */
  lemma LoopFirst(b: Broker, name: Bytes, e: Disk, acc: Accepted)
    requires Safe(b, acc) && HasHead(b, name) && DuringPass(b.store.disk, e, name, Head(b, name))
    ensures DuringLoop(b.store.disk, e, name, b.queues[DLQName(name)].pending)
  {
    var d, ms := b.store.disk, b.queues[DLQName(name)].pending;
    hide Safe, Catalogued, DLQName;
    assert ms[0].id in Ids(ms);
    forall j | 0 <= j < |ms| ensures HasEither(e, name, ms[j]) {
      PendingFacts(b, name, j, acc);
      if ms[j].id != ms[0].id { assert Key(DLQName(name), ms[j].id).id != ms[0].id; }
      else { SameMessage(b, name, j, acc); }
    }
  }

  /** Pending messages are told apart by their ids. */
  lemma SameMessage(b: Broker, name: Bytes, j: nat, acc: Accepted)
    requires Safe(b, acc) && HasHead(b, name) && j < |b.queues[DLQName(name)].pending|
    requires b.queues[DLQName(name)].pending[j].id == Head(b, name).id
    ensures j == 0
  {
    hide Held, SoundView, Survives, InOrder, Routes, Lawful;
    assert Agrees(b.queues[DLQName(name)]);
  }

  /** During a later pass: what the first pass did to its head is not touched again. */
  lemma LoopLater(d: Disk, d1: Disk, e: Disk, name: Bytes, ms: seq<Message>)
    requires ms != [] && ms[0].id !in Ids(ms[1..]) && DuringPass(d, d1, name, ms[0])
    requires DuringLoop(d1, e, name, ms[1..])
    ensures DuringLoop(d, e, name, ms)
  {
    hide Catalogued;
    assert Ids(ms) == Ids(ms[1..]) + {ms[0].id} by { IdsFirst(ms); }
    forall j | 0 <= j < |ms| ensures HasEither(e, name, ms[j]) {
      if j > 0 { assert ms[j] == ms[1..][j - 1]; }
      else { assert Key(name, ms[0].id).id == ms[0].id == Key(DLQName(name), ms[0].id).id; }
    }
  }

  lemma IdsFirst(ms: seq<Message>)
    requires ms != []
    ensures Ids(ms) == Ids(ms[1..]) + {ms[0].id}
  {
    assert forall i :: 1 <= i < |ms| ==> ms[i] == ms[1..][i - 1];
  }

  lemma HeadOnce(b: Broker, name: Bytes, acc: Accepted)
    requires Safe(b, acc) && HasHead(b, name)
    ensures Head(b, name).id !in Ids(b.queues[DLQName(name)].pending[1..])
  {
    hide Safe;
    var ms := b.queues[DLQName(name)].pending;
    forall i | 0 <= i < |ms[1..]| ensures ms[1..][i].id != ms[0].id {
      if ms[1..][i].id == ms[0].id { SameMessage(b, name, i + 1, acc); }
    }
  }

  ghost predicate ImagesLoop(d: Disk, a: Store, b: Store, name: Bytes, ms: seq<Message>) {
    && |a.trail| <= |b.trail| && b.trail[..|a.trail|] == a.trail
    && forall i :: |a.trail| <= i < |b.trail| ==> DuringLoop(d, b.trail[i], name, ms)
  }

  /** At every point between storage calls of the whole loop, for every pattern of failing calls,
      with or without the target queue: each message of the DLQ is stored under at least one of
      the two queues, and nobody else's record has changed. */
  lemma {:induction false} LoopStores(b: Broker, name: Bytes, k: nat, now: int, up: Pattern, hash: Hash, acc: Accepted)
    requires Safe(b, acc) && DLQName(name) in b.queues
    ensures var t := RetryLoop(b, name, k, now, up, hash).0;
            ImagesLoop(b.store.disk, b.store, t.store, name, b.queues[DLQName(name)].pending)
    decreases |b.queues[DLQName(name)].pending|
  {
    hide Safe, RetryHead, DuringPass, DuringLoop, Ids, Held, DLQName;
    var ms := b.queues[DLQName(name)].pending;
    if ms != [] {
      var (b1, r, more) := RetryHead(b, name, now, up, hash);
      PassStores(b, name, now, up, hash, acc);
      forall i | |b.store.trail| <= i < |b1.store.trail| ensures DuringLoop(b.store.disk, b1.store.trail[i], name, ms) {
        LoopFirst(b, name, b1.store.trail[i], acc);
      }
      PassShrinks(b, name, now, up, hash);
      if more {
        MoreMeansTarget(b, name, now, up, hash);
        PassSafe(b, name, now, up, hash, acc);
        LoopStores(b1, name, k + 1, now, up, hash, acc);
        HeadOnce(b, name, acc);
        LoopChain(b, b1, RetryLoop(b1, name, k + 1, now, up, hash).0.store, name, ms);
      }
    }
  }

  lemma MoreMeansTarget(b: Broker, name: Bytes, now: int, up: Pattern, hash: Hash)
    requires HasHead(b, name)
    ensures var (t, r, more) := RetryHead(b, name, now, up, hash); more ==> name in b.queues && r == AllRetried
  {
    hide Enqueue;
  }

  lemma LoopChain(b: Broker, b1: Broker, st: Store, name: Bytes, ms: seq<Message>)
    requires ms != [] && ms[0].id !in Ids(ms[1..])
    requires ImagesDuring(b.store.disk, b.store, b1.store, name, ms[0])
    requires ImagesLoop(b.store.disk, b.store, b1.store, name, ms)
    requires ImagesLoop(b1.store.disk, b1.store, st, name, ms[1..])
    ensures ImagesLoop(b.store.disk, b.store, st, name, ms)
  {
    hide DuringPass, DuringLoop, Ids;
    forall i | |b.store.trail| <= i < |st.trail| ensures DuringLoop(b.store.disk, st.trail[i], name, ms) {
      if i < |b1.store.trail| { assert st.trail[..|b1.store.trail|][i] == b1.store.trail[i]; }
      else { LoopLater(b.store.disk, b1.store.disk, st.trail[i], name, ms); }
    }
    assert st.trail[..|b.store.trail|] == st.trail[..|b1.store.trail|][..|b.store.trail|];
  }

  /** So for the whole operation, the save of the target's config included. */
  lemma RetryStores(b: Broker, name: Bytes, now: int, up: Pattern, hash: Hash, acc: Accepted, i: nat)
    requires Safe(b, acc) && DLQName(name) in b.queues
    requires |b.store.trail| <= i < |RetryDLQ(b, name, now, up, hash).0.store.trail|
    ensures var t := RetryDLQ(b, name, now, up, hash).0;
            DuringLoop(b.store.disk, t.store.trail[i], name, b.queues[DLQName(name)].pending)
  {
    hide Safe, RetryLoop, DuringLoop, Held, SaveQueue;
    var (c, ok) := GetOrCreate(b, name, up);
    CreateSafe(b, name, up, acc, [], Key([], []));
    CreateOnDisk(b, name, up, acc);
    LoopStores(c, name, 0, now, up, hash, acc);
    var t := RetryLoop(c, name, 0, now, up, hash).0;
    if i < |c.store.trail| {
      assert t.store.trail[i] == t.store.trail[..|c.store.trail|][i] == c.store.trail[i];
    } else {
      assert DuringLoop(c.store.disk, t.store.trail[i], name, c.queues[DLQName(name)].pending);
    }
    SameRecords(b.store.disk, c.store.disk, t.store.trail[i], name, b.queues[DLQName(name)].pending);
  }

  lemma CreateOnDisk(b: Broker, name: Bytes, up: Pattern, acc: Accepted)
    requires Safe(b, acc) && DLQName(name) in b.queues
    ensures var c := GetOrCreate(b, name, up).0; var ms := b.queues[DLQName(name)].pending;
            && c.store.disk.records == b.store.disk.records && |c.store.trail| >= |b.store.trail|
            && DLQName(name) in c.queues && c.queues[DLQName(name)] == b.queues[DLQName(name)]
            && forall i :: |b.store.trail| <= i < |c.store.trail| ==>
                 DuringLoop(b.store.disk, c.store.trail[i], name, ms)
  {
    hide Safe, Ids;
    DLQDiffers(name);
    var ms := b.queues[DLQName(name)].pending;
    forall j | 0 <= j < |ms| ensures HasEither(b.store.disk, name, ms[j]) { PendingFacts(b, name, j, acc); }
  }

  lemma SameRecords(d: Disk, d1: Disk, e: Disk, name: Bytes, ms: seq<Message>)
    requires d.records == d1.records
    ensures DuringLoop(d1, e, name, ms) ==> DuringLoop(d, e, name, ms)
  {
    hide HasEither, Ids;
  }

  lemma PassShrinks(b: Broker, name: Bytes, now: int, up: Pattern, hash: Hash)
    requires DLQName(name) in b.queues && b.queues[DLQName(name)].pending != []
    ensures var (t, r, more) := RetryHead(b, name, now, up, hash);
            var ms := b.queues[DLQName(name)].pending;
            DLQName(name) in t.queues && t.queues[DLQName(name)].pending == if more then ms[1..] else ms
  {
    hide Enqueue;
    var p := b.queues[DLQName(name)].pending;
    assert p[..0] + p[1..] == p[1..];
  }

  /** The messages a queue was given, in order. */
  ghost function Arrivals(log: seq<Event>): seq<Message> {
    if log == [] then []
    else
      var p := Arrivals(log[..|log| - 1]);
      if log[|log| - 1].Enqueued? then p + [log[|log| - 1].msg] else p
  }

  ghost function Copies(ms: seq<Message>, name: Bytes, now: int): (r: seq<Message>)
    ensures |r| == |ms| && forall i :: 0 <= i < |ms| ==> r[i] == CopyOf(ms[i], name, now)
  {
    seq(|ms|, i requires 0 <= i < |ms| => CopyOf(ms[i], name, now))
  }

  lemma {:induction false} DeliveryArrivals(s: Queue, now: int, hash: Hash)
    ensures Arrivals(TryDeliver(s, now, hash).log) == Arrivals(s.log)
    decreases |s.pending|
  {
    hide HashTarget, FreeFrom, Target;
    if s.consumers == [] || s.pending == [] || s.pending[0].visibleAt > now {
    } else {
      var a := AssignKey(s, hash);
      if Target(a).Some? {
        Grow(a.log, Dispatch(a, Target(a).value, now).log[|a.log|]);
        DeliveryArrivals(Dispatch(a, Target(a).value, now), now, hash);
      }
    }
  }

  lemma EnqueueArrivals(s: Queue, m: Message, now: int, hash: Hash)
    requires Enqueue(s, m, now, hash).1
    ensures Arrivals(Enqueue(s, m, now, hash).0.log) == Arrivals(s.log) + [m]
  {
    hide TryDeliver;
    Grow(s.log, Enqueued(m));
    DeliveryArrivals(Push(s, m), now, hash);
  }

  lemma PassArrives(b: Broker, name: Bytes, now: int, up: Pattern, hash: Hash)
    requires CanRetry(b, name) && RetryHead(b, name, now, up, hash).2
    ensures var t := RetryHead(b, name, now, up, hash).0;
            name in t.queues &&
            Arrivals(t.queues[name].log) == Arrivals(b.queues[name].log) + [CopyOf(Head(b, name), name, now)]
  {
    hide Enqueue, SaveMessage, DeleteMessage, Pull;
    DLQDiffers(name);
    EnqueueArrivals(b.queues[name], CopyOf(Head(b, name), name, now), now, hash);
  }

  /** From `b` to `t` the first `j` messages of the DLQ left it, and their copies arrived at the
      target in order. */
  ghost predicate RetriedFirst(b: Broker, t: Broker, name: Bytes, now: int, j: nat)
    requires DLQName(name) in b.queues
  {
    var pending := b.queues[DLQName(name)].pending;
    && j <= |pending| && t.queues.Keys == b.queues.Keys && t.queues[DLQName(name)].pending == pending[j..]
    && (name !in b.queues ==> j == 0 && t.queues == b.queues)
    && (name in b.queues ==>
          Arrivals(t.queues[name].log) == Arrivals(b.queues[name].log) + Copies(pending[..j], name, now))
  }

  lemma RetriedNone(b: Broker, t: Broker, name: Bytes, now: int)
    requires DLQName(name) in b.queues && t.queues == b.queues
    ensures RetriedFirst(b, t, name, now, 0)
  {
    hide Arrivals;
    var pending := b.queues[DLQName(name)].pending;
    assert pending[..0] == [] && pending[0..] == pending && Copies([], name, now) == [];
    assert name in b.queues ==> Arrivals(b.queues[name].log) + [] == Arrivals(b.queues[name].log);
  }

  lemma RetriedOneMore(b: Broker, b1: Broker, t: Broker, name: Bytes, now: int, j: nat)
    requires CanRetry(b, name) && b1.queues.Keys == b.queues.Keys
    requires b1.queues[DLQName(name)].pending == b.queues[DLQName(name)].pending[1..]
    requires Arrivals(b1.queues[name].log) == Arrivals(b.queues[name].log) + [CopyOf(Head(b, name), name, now)]
    requires RetriedFirst(b1, t, name, now, j)
    ensures RetriedFirst(b, t, name, now, j + 1)
  {
    hide Arrivals, Copies, CopyOf, DLQName;
    CopiesCons(Arrivals(b.queues[name].log), b.queues[DLQName(name)].pending, j + 1, name, now);
  }

  /** What is retried is a prefix of the DLQ, in order, and the count is its length; when the
      loop reports no error that is all of it. */
  lemma {:induction false} RetriesPrefix(b: Broker, name: Bytes, k: nat, now: int, up: Pattern, hash: Hash)
    requires DLQName(name) in b.queues
    ensures var (t, n, r) := RetryLoop(b, name, k, now, up, hash);
            && k <= n && RetriedFirst(b, t, name, now, n - k)
            && (r == AllRetried ==> n == k + |b.queues[DLQName(name)].pending|)
    decreases |b.queues[DLQName(name)].pending|
  {
    hide RetryHead, RetriedFirst, Arrivals, DLQName;
    if b.queues[DLQName(name)].pending == [] {
      RetriedNone(b, b, name, now);
    } else {
      var (b1, r, more) := RetryHead(b, name, now, up, hash);
      PassShrinks(b, name, now, up, hash);
      PassOutcome(b, name, now, up, hash);
      if more {
        PassArrives(b, name, now, up, hash);
        RetriesPrefix(b1, name, k + 1, now, up, hash);
        var (t, n, _) := RetryLoop(b1, name, k + 1, now, up, hash);
        RetriedOneMore(b, b1, t, name, now, n - k - 1);
      } else {
        RetriedNone(b, b1, name, now);
      }
    }
  }

  lemma CopiesCons(before: seq<Message>, ms: seq<Message>, n: nat, name: Bytes, now: int)
    requires 1 <= n <= |ms|
    ensures ms[1..][n - 1..] == ms[n..]
    ensures before + [CopyOf(ms[0], name, now)] + Copies(ms[1..][..n - 1], name, now) ==
            before + Copies(ms[..n], name, now)
  {
    hide CopyOf;
  }

  lemma PassOutcome(b: Broker, name: Bytes, now: int, up: Pattern, hash: Hash)
    requires HasHead(b, name)
    ensures var (t, r, more) := RetryHead(b, name, now, up, hash);
            && (more <==> r == AllRetried) && (!more ==> t.queues == b.queues) && t.queues.Keys == b.queues.Keys
            && (more ==> name in b.queues)
  {
    hide Enqueue;
  }

  // ---------- the ways to lose a message ----------

  /** A pass leaves its head on disk for every pattern of failing calls if and only if the
      head's own record is there when the pass starts. (After a failed put-back it is not:
      only the copy's record is.) */
  lemma PassKeepsHeadIff(b: Broker, name: Bytes, now: int, hash: Hash)
    requires HasHead(b, name) && Head(b, name).queue == DLQName(name)
    requires var id := Head(b, name).id;
             Key(DLQName(name), id) in b.store.disk.records || Key(name, id) in b.store.disk.records
    ensures var m := Head(b, name);
            Key(DLQName(name), m.id) in b.store.disk.records <==>
            forall up: Pattern ::
              var d := RetryHead(b, name, now, up, hash).0.store.disk;
              Key(DLQName(name), m.id) in d.records || Key(name, m.id) in d.records
  {
    hide Enqueue;
    var m := Head(b, name);
    DLQDiffers(name);
    if Key(DLQName(name), m.id) !in b.store.disk.records {
      var up: Pattern := k => k != b.store.calls + 1;
      var d := RetryHead(b, name, now, up, hash).0.store.disk;
      assert Key(DLQName(name), m.id) !in d.records && Key(name, m.id) !in d.records;
    }
  }

  /** In an exact broker the head's only record is its own. */
  lemma OnlyRecord(b: Broker, name: Bytes, acc: Accepted)
    requires Safe(b, acc) && Exact(b) && HasHead(b, name)
    ensures forall n :: Key(n, Head(b, name).id) in b.store.disk.records ==> n == DLQName(name)
  {
    hide Agrees, Held, Survives, BackedBy, Catalogued;
    PendingFacts(b, name, 0, acc);
    forall n | Key(n, Head(b, name).id) in b.store.disk.records ensures n == DLQName(name) {
      assert Head(b, name).id in HomesOf(b)[n];
    }
  }

  /** From an exact broker a pass leaves the head under two names if and only if a rollback failed
      that should have taken the copy away. */
  lemma LeftoverIff(b: Broker, name: Bytes, now: int, up: Pattern, hash: Hash, acc: Accepted)
    requires Safe(b, acc) && Exact(b) && CanRetry(b, name)
    ensures var (t, r, more) := RetryHead(b, name, now, up, hash); var id := Head(b, name).id;
            (Key(name, id) in t.store.disk.records && Key(DLQName(name), id) in t.store.disk.records)
            <==> r in {CopyLeft, OldNotDeleted(false)}
  {
    hide Safe, Exact, Catalogued, HomesOf, DLQName, RetryHead;
    HeadFacts(b, name, acc);
    OnlyRecord(b, name, acc);
    DLQDiffers(name);
    PassRecords(b, name, now, up, hash);
  }

  lemma PassRecords(b: Broker, name: Bytes, now: int, up: Pattern, hash: Hash)
    requires CanRetry(b, name) && DLQName(name) != name && Head(b, name).queue == DLQName(name)
    requires var id := Head(b, name).id;
             Key(DLQName(name), id) in b.store.disk.records && Key(name, id) !in b.store.disk.records
    ensures var (t, r, more) := RetryHead(b, name, now, up, hash); var id := Head(b, name).id;
            (Key(name, id) in t.store.disk.records && Key(DLQName(name), id) in t.store.disk.records)
            <==> r in {CopyLeft, OldNotDeleted(false)}
  {
    hide Enqueue, DLQName;
  }

  /** Two retries can lose an accepted message. The first finds the target full and cannot
      put the record back; the second cannot delete what is not there and undoes its copy. */
  lemma TwoRetriesCanLose(b: Broker, name: Bytes, now: int, hash: Hash, acc: Accepted)
    requires Safe(b, acc) && Exact(b) && CanRetry(b, name) && Head(b, name).id in acc
    requires !Enqueue(b.queues[name], CopyOf(Head(b, name), name, now), now, hash).1
    ensures exists up: Pattern ::
              var t1 := RetryDLQ(b, name, now, up, hash).0;
              var t2 := RetryDLQ(t1, name, now, up, hash).0;
              !Survives(t2.store.disk, acc)
  {
    hide Agrees, Held, Safe, Exact, Enqueue, RetryDLQ;
    var up: Pattern := k => k != b.store.calls + 2 && k != b.store.calls + 4;
    var t1 := RetryDLQ(b, name, now, up, hash).0;
    var t2 := RetryDLQ(t1, name, now, up, hash).0;
    LostAfterTwo(b, name, now, up, hash, acc);
    assert !StoredAs(t2.store.disk, Head(b, name).id, acc[Head(b, name).id]);
  }

  lemma LostAfterTwo(b: Broker, name: Bytes, now: int, up: Pattern, hash: Hash, acc: Accepted)
    requires Safe(b, acc) && Exact(b) && CanRetry(b, name)
    requires !Enqueue(b.queues[name], CopyOf(Head(b, name), name, now), now, hash).1
    requires forall k :: up(k) == (k != b.store.calls + 2 && k != b.store.calls + 4)
    ensures var t1 := RetryDLQ(b, name, now, up, hash).0;
            var t2 := RetryDLQ(t1, name, now, up, hash).0;
            forall n :: Key(n, Head(b, name).id) !in t2.store.disk.records
  {
    hide Agrees, Held, Safe, Sound, NoStrays, Enqueue;
    OnlyRecord(b, name, acc);
    DLQDiffers(name);
    FirstRetry(b, name, now, up, hash);
    SecondRetry(RetryDLQ(b, name, now, up, hash).0, name, now, up, hash);
  }

  lemma FirstRetry(b: Broker, name: Bytes, now: int, up: Pattern, hash: Hash)
    requires CanRetry(b, name)
    requires !Enqueue(b.queues[name], CopyOf(Head(b, name), name, now), now, hash).1
    requires up(b.store.calls) && up(b.store.calls + 1) && !up(b.store.calls + 2)
    ensures var t := RetryDLQ(b, name, now, up, hash).0;
            && t.queues == b.queues && t.store.calls == b.store.calls + 3
            && t.store.disk.records ==
                 b.store.disk.records[Key(name, Head(b, name).id) := CopyOf(Head(b, name), name, now)]
                 - {Key(DLQName(name), Head(b, name).id)}
  {
    hide Enqueue;
  }

  lemma SecondRetry(b: Broker, name: Bytes, now: int, up: Pattern, hash: Hash)
    requires CanRetry(b, name)
    requires up(b.store.calls) && !up(b.store.calls + 1) && up(b.store.calls + 2)
    ensures RetryDLQ(b, name, now, up, hash).0.store.disk.records ==
            b.store.disk.records - {Key(name, Head(b, name).id)}
  {
    hide Enqueue;
  }

  /** So does a retry whose target is unknown and cannot be saved: the head's record moves to a
      queue recovery does not know, and the missing queue is then used. */
  lemma UnsavedTargetLoses(b: Broker, name: Bytes, now: int, up: Pattern, hash: Hash, acc: Accepted)
    requires Safe(b, acc) && Exact(b)
    requires DLQName(name) in b.queues && b.queues[DLQName(name)].pending != [] && Head(b, name).id in acc
    requires name !in b.queues && name !in b.store.disk.configs
    requires !up(b.store.calls) && up(b.store.calls + 1) && up(b.store.calls + 2)
    ensures RetryDLQ(b, name, now, up, hash).2 == NoTarget
    ensures !Survives(RetryDLQ(b, name, now, up, hash).0.store.disk, acc)
  {
    hide Safe, Exact, Survives, RetryDLQ, DLQName;
    OnlyRecord(b, name, acc);
    NoTargetDisk(b, name, now, up, hash);
    NotStored(RetryDLQ(b, name, now, up, hash).0.store.disk, Head(b, name).id, acc);
  }

  lemma NoTargetDisk(b: Broker, name: Bytes, now: int, up: Pattern, hash: Hash)
    requires HasHead(b, name) && name !in b.queues
    requires !up(b.store.calls) && up(b.store.calls + 1) && up(b.store.calls + 2)
    ensures var (t, n, r) := RetryDLQ(b, name, now, up, hash); var m := Head(b, name);
            && r == NoTarget && t.store.disk.configs == b.store.disk.configs
            && t.store.disk.records ==
                 b.store.disk.records[Key(name, m.id) := CopyOf(m, name, now)] - {Key(DLQName(name), m.id)}
  {
    hide DLQName;
  }

  /** A retry keeps every accepted message where recovery finds it, under every pattern of failing
      calls, if and only if recovery knows the target queue when the retry starts. */
  lemma RetryKeepsIff(b: Broker, name: Bytes, now: int, hash: Hash, acc: Accepted)
    requires Safe(b, acc) && Exact(b) && HasHead(b, name) && Head(b, name).id in acc
    ensures name in b.store.disk.configs <==>
            forall up: Pattern :: Survives(RetryDLQ(b, name, now, up, hash).0.store.disk, acc)
  {
    hide Safe, Exact, Survives, RetryDLQ, Held;
    if name in b.store.disk.configs {
      forall up: Pattern ensures Survives(RetryDLQ(b, name, now, up, hash).0.store.disk, acc) {
        KnownTargetKeeps(b, name, now, up, hash, acc);
      }
    } else {
      var up: Pattern := k => k != b.store.calls;
      SafeKnown(b, acc);
      UnsavedTargetLoses(b, name, now, up, hash, acc);
    }
  }

  lemma KnownTargetKeeps(b: Broker, name: Bytes, now: int, up: Pattern, hash: Hash, acc: Accepted)
    requires Safe(b, acc) && DLQName(name) in b.queues && name in b.store.disk.configs
    ensures Survives(RetryDLQ(b, name, now, up, hash).0.store.disk, acc)
  {
    hide Safe, Survives, RetryLoop, Held;
    CreateSafe(b, name, up, acc, [], Key([], []));
    LoopSafe(GetOrCreate(b, name, up).0, name, 0, now, up, hash, acc);
  }

  lemma NotStored(d: Disk, id: Bytes, acc: Accepted)
    requires id in acc && forall n :: Key(n, id) in d.records ==> n !in d.configs
    ensures !Survives(d, acc)
  {
    assert !StoredAs(d, id, acc[id]);
  }
}
