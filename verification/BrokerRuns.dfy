/**
 Whole runs of the broker: handlers in any order, storage calls failing in any pattern, a
 crash and recovery at the end or between any two handlers.
 */
module BrokerRuns {
  import opened Types
  import opened QueueModel
  import opened QueueRuns
  import opened QueueHoldings
  import opened BrokerModel
  import opened Durability
  import opened Handlers
  import opened Purging
  import opened Retry
  import opened Recovery

  datatype Request =
    | PublishReq(msg: Message)
    | ConsumeReq(queue: Bytes, consumer: nat, timeout: int)
    | ReceiveReq(queue: Bytes, consumer: nat)
    | LeaveReq(queue: Bytes, consumer: nat)
    | AckReq(queue: Bytes, id: Bytes)
    | NackReq(queue: Bytes, id: Bytes, requeue: bool)
    | ExpireReq(queue: Bytes, order: seq<Bytes>)
    | ExtendReq(queue: Bytes, id: Bytes, extension: int)
    | RetryReq(queue: Bytes)
    | PurgeReq(queue: Bytes, batches: seq<set<Bytes>>)
    | ConfigureReq(queue: Bytes, settings: Settings)

  datatype Action = Action(req: Request, now: int)

  /** An operation on one queue's memory. */
  function Locally(b: Broker, n: Bytes, a: Action, hash: Hash): Broker
    requires n in b.queues
  {
    var q := b.queues[n];
    match a.req
    case ReceiveReq(_, c) => SetQueue(b, n, Receive(q, c), b.store)
    case LeaveReq(_, c) => SetQueue(b, n, RemoveConsumer(q, c), b.store)
    case ExpireReq(_, order) => SetQueue(b, n, RequeueExpired(q, order, a.now, hash), b.store)
    case ExtendReq(_, id, extension) => SetQueue(b, n, ExtendVisibility(q, id, extension, a.now), b.store)
    case ConfigureReq(_, c) => SetQueue(b, n, Configure(q, c), b.store)
    case _ => b
  }

  function Handle(b: Broker, a: Action, up: Pattern, hash: Hash): Broker {
    match a.req
    case PublishReq(m) => Publish(b, m, a.now, up, hash).0
    case ConsumeReq(n, c, timeout) => Consume(b, n, c, timeout, a.now, up, hash)
    case AckReq(n, id) => HandleAck(b, n, id, a.now, up, hash).0
    case NackReq(n, id, requeue) => HandleNack(b, n, id, requeue, a.now, up, hash).0
    case RetryReq(n) => RetryDLQ(b, n, a.now, up, hash).0
    case PurgeReq(n, batches) => PurgeQueue(b, n, batches, up).0
    case _ => if a.req.queue in b.queues then Locally(b, a.req.queue, a, hash) else b
  }

  /** Which messages are accepted after the action: a publish that reported success adds one,
      an ack, a drop or a purge that reported success takes away. */
  ghost function AcceptedAfter(b: Broker, acc: Accepted, a: Action, up: Pattern, hash: Hash): Accepted {
    match a.req
    case PublishReq(m) => if Publish(b, m, a.now, up, hash).1 == Published then acc[m.id := ContentOf(m)] else acc
    case AckReq(n, id) => if HandleAck(b, n, id, a.now, up, hash).1 == AckDone then acc - {id} else acc
    case NackReq(n, id, requeue) =>
      if HandleNack(b, n, id, requeue, a.now, up, hash).1 == DroppedFor then acc - {id} else acc
    case PurgeReq(n, batches) => if n in b.queues && PurgeQueue(b, n, batches, up).1 then acc - PurgedIds(b, n) else acc
    case _ => acc
  }

  /** What the environment owes: new messages, new consumers, expiry passes that visit the
      expired, purges that visit the stored. */
  ghost predicate LegalAction(b: Broker, a: Action) {
    match a.req
    case PublishReq(m) => NewMessage(b, m)
    case ConsumeReq(n, c, _) => n in b.queues ==> c !in ConsumerIds(b.queues[n].consumers)
    case ExpireReq(n, order) => n in b.queues ==> ExpiryOrder(b.queues[n], a.now, order)
    case PurgeReq(n, batches) => n in b.queues ==> Batched(StoredIds(b.store.disk, n), batches)
    case _ => true
  }

  /** A retry finds its target queue, or can save its config. */
  predicate TargetReady(b: Broker, n: Bytes, up: Pattern) {
    DLQName(n) in b.queues ==> n in b.queues || up(b.store.calls)
  }

  /** The writes the broker does not recover from when they fail: the save that ends a move
      to the DLQ, the put-back of a retry whose target is full, the target's config, and a batch
      of a purge after the first. */
  predicate Protected(b: Broker, a: Action, up: Pattern, hash: Hash) {
    match a.req
    case NackReq(n, id, requeue) =>
      var r := HandleNack(b, n, id, requeue, a.now, up, hash).1; r.Moved? ==> r.saved
    case RetryReq(n) => TargetReady(b, n, up) && RetryDLQ(b, n, a.now, up, hash).2 != NotRestored
    case PurgeReq(n, batches) => !PartlyPurged(b, n, batches, up)
    case _ => true
  }

  /** Besides, rollbacks succeed and the move to the DLQ goes through whole. */
  predicate Clean(b: Broker, a: Action, up: Pattern, hash: Hash) {
    match a.req
    case PublishReq(m) => Publish(b, m, a.now, up, hash).1 != RollbackFailed
    case NackReq(n, id, requeue) =>
      var r := HandleNack(b, n, id, requeue, a.now, up, hash).1;
      r != NoDLQ && (r.Moved? ==> r == Moved(true, true, true))
    case RetryReq(n) =>
      TargetReady(b, n, up) &&
      RetryDLQ(b, n, a.now, up, hash).2 in {AllRetried, CopyNotSaved, OldNotDeleted(true), Restored}
    case PurgeReq(n, batches) => !PartlyPurged(b, n, batches, up)
    case _ => true
  }

  // ---------- one action ----------

  lemma SameHeldAdvanced(q: Queue, r: Queue)
    requires r.pending == q.pending && r.inFlight == q.inFlight
    ensures Advanced(Held(q), Held(r))
  {
    assert Held(q) == Held(r);
  }

  lemma ReceiveHeld(q: Queue, c: nat)
    requires Agrees(q)
    ensures var r := Receive(q, c); Agrees(r) && r.name == q.name && Advanced(Held(q), Held(r))
  {
    hide Agrees, Held;
    ReceiveAgrees(q, c);
    SameHeldAdvanced(q, Receive(q, c));
  }

  lemma LeaveHeld(q: Queue, c: nat)
    requires Agrees(q)
    ensures var r := RemoveConsumer(q, c); Agrees(r) && r.name == q.name && Advanced(Held(q), Held(r))
  {
    hide Agrees, Held;
    RemoveConsumerAgrees(q, c);
    SameHeldAdvanced(q, RemoveConsumer(q, c));
  }

  lemma ConfigureHeld(q: Queue, c: Settings)
    requires Agrees(q)
    ensures var r := Configure(q, c); Agrees(r) && r.name == q.name && Advanced(Held(q), Held(r))
  {
    hide Agrees, Held;
    ConfigureAgrees(q, c);
    SameHeldAdvanced(q, Configure(q, c));
  }

  lemma LocallySafe(b: Broker, n: Bytes, a: Action, hash: Hash, acc: Accepted)
    requires Safe(b, acc) && n in b.queues && LegalAction(b, a)
    requires !a.req.PublishReq? && a.req.queue == n
    ensures Safe(Locally(b, n, a, hash), acc) && StillExact(b, Locally(b, n, a, hash))
    ensures Locally(b, n, a, hash).store == b.store
  {
    hide Agrees, Held, SoundView, Faithful, Survives, Advanced, NoStrays, ExpiryOrder, RequeueExpired, Receive,
      RemoveConsumer, ExtendVisibility, Configure;
    var q := b.queues[n];
    match a.req
    case ReceiveReq(_, c) => ReceiveHeld(q, c); LocalSafe(b, n, Receive(q, c), acc);
    case LeaveReq(_, c) => LeaveHeld(q, c); LocalSafe(b, n, RemoveConsumer(q, c), acc);
    case ExpireReq(_, order) =>
      ExpireHeld(q, order, a.now, hash);
      LocalSafe(b, n, RequeueExpired(q, order, a.now, hash), acc);
    case ExtendReq(_, id, extension) =>
      ExtendHeld(q, id, extension, a.now);
      LocalSafe(b, n, ExtendVisibility(q, id, extension, a.now), acc);
    case ConfigureReq(_, c) => ConfigureHeld(q, c); LocalSafe(b, n, Configure(q, c), acc);
    case _ =>
  }

  lemma NewQueueConsumers(b: Broker, n: Bytes, c: nat, up: Pattern)
    requires n in b.queues ==> c !in ConsumerIds(b.queues[n].consumers)
    ensures var (t, ok) := GetOrCreate(b, n, up); ok ==> c !in ConsumerIds(t.queues[n].consumers)
  {
  }

  lemma ConsumeSafe(b: Broker, n: Bytes, c: nat, timeout: int, now: int, up: Pattern, hash: Hash, acc: Accepted)
    requires Safe(b, acc) && (n in b.queues ==> c !in ConsumerIds(b.queues[n].consumers))
    ensures var t := Consume(b, n, c, timeout, now, up, hash);
            Safe(t, acc) && StillExact(b, t) && ImagesKeep(b.store, t.store, acc)
  {
    hide Agrees, Held, SoundView, Faithful, Survives, Advanced, NoStrays, AddConsumer;
    CreateSafe(b, n, up, acc, [], Key([], []));
    NewQueueConsumers(b, n, c, up);
    var (t, ok) := GetOrCreate(b, n, up);
    if ok {
      AddConsumerHeld(t.queues[n], c, timeout, now, hash);
      LocalSafe(t, n, AddConsumer(t.queues[n], c, timeout, now, hash), acc);
    }
  }

  lemma NackSafe(b: Broker, n: Bytes, id: Bytes, requeue: bool, now: int, up: Pattern, hash: Hash, acc: Accepted)
    requires Safe(b, acc)
    ensures var (t, r) := HandleNack(b, n, id, requeue, now, up, hash);
            var kept := if r == DroppedFor then acc - {id} else acc;
            && ((r.Moved? ==> r.saved) ==> Safe(t, kept))
            && (!r.Moved? ==> ImagesKeep(b.store, t.store, kept))
            && (r != NoDLQ && (r.Moved? ==> r == Moved(true, true, true)) ==> StillExact(b, t))
  {
    hide Agrees, Held, Safe, StillExact, ImagesKeep, MoveToDLQ;
    if n in b.queues && id in b.queues[n].inFlight {
      match NackVerdict(b.queues[n], b.queues[n].inFlight[id], requeue)
      case ToDLQ => MoveSafe(b, n, id, now, up, hash, acc);
      case ToDrop => DropSafe(b, n, id, requeue, now, up, hash, acc);
      case ToRequeue => RequeueSafe(b, n, id, requeue, now, up, hash, acc);
    } else {
      Unchanged(b, acc);
    }
  }

  lemma Unchanged(b: Broker, acc: Accepted)
    ensures ImagesKeep(b.store, b.store, acc) && StillExact(b, b)
  {
  }

  lemma RetrySafe(b: Broker, n: Bytes, now: int, up: Pattern, hash: Hash, acc: Accepted)
    requires Safe(b, acc) && TargetReady(b, n, up)
    ensures var (t, k, r) := RetryDLQ(b, n, now, up, hash);
            && ImagesKeep(b.store, t.store, acc) && Survives(t.store.disk, acc)
            && (r != NotRestored ==> Safe(t, acc))
            && (r in {AllRetried, CopyNotSaved, OldNotDeleted(true), Restored} ==> StillExact(b, t))
  {
    hide Agrees, Held, Safe, Survives, NoStrays, RetryLoop, ImagesKeep;
    SafeSurvives(b, acc);
    Unchanged(b, acc);
    if DLQName(n) in b.queues {
      CreateSafe(b, n, up, acc, [], Key([], []));
      var (c, ok) := GetOrCreate(b, n, up);
      SafeKnown(c, acc);
      LoopSafe(c, n, 0, now, up, hash, acc);
      ImagesChain(b.store, c.store, RetryLoop(c, n, 0, now, up, hash).0.store, acc);
    }
  }

  /** Every handler keeps every accepted message on disk, as long as the unrecoverable
      writes do not fail. Outside the move to the DLQ this holds at every point between two
      storage calls, not only at the end. */
  lemma HandleSafe(b: Broker, a: Action, up: Pattern, hash: Hash, acc: Accepted)
    requires Safe(b, acc) && LegalAction(b, a) && Protected(b, a, up, hash)
    ensures Safe(Handle(b, a, up, hash), AcceptedAfter(b, acc, a, up, hash))
  {
    hide Agrees, Held, Safe, Publish, Consume, HandleAck, HandleNack, RetryDLQ, PurgeQueue, PartlyPurged, Batched,
      Locally, NewMessage, ExpiryOrder;
    match a.req
    case PublishReq(m) => PublishSafe(b, m, a.now, up, hash, acc);
    case ConsumeReq(n, c, timeout) => ConsumeSafe(b, n, c, timeout, a.now, up, hash, acc);
    case AckReq(n, id) => AckSafe(b, n, id, a.now, up, hash, acc);
    case NackReq(n, id, requeue) => NackSafe(b, n, id, requeue, a.now, up, hash, acc);
    case RetryReq(n) => RetrySafe(b, n, a.now, up, hash, acc);
    case PurgeReq(n, batches) => PurgeSafe(b, n, batches, up, acc);
    case _ => if a.req.queue in b.queues { LocallySafe(b, a.req.queue, a, hash, acc); }
  }

  ghost predicate IsMove(b: Broker, a: Action, up: Pattern, hash: Hash) {
    a.req.NackReq? && HandleNack(b, a.req.queue, a.req.id, a.req.requeue, a.now, up, hash).1.Moved?
  }

  /** Accepted before and after the action. */
  ghost function KeptBy(b: Broker, acc: Accepted, a: Action, up: Pattern, hash: Hash): Accepted {
    if a.req.PublishReq? then acc else AcceptedAfter(b, acc, a, up, hash)
  }

  /** A crash at any moment of any handler but the move, with any storage calls failing before
      it: recovery from the disk it leaves finds every message accepted before and after. */
  lemma CrashAnywhere(b: Broker, a: Action, up: Pattern, hash: Hash, acc: Accepted,
                      i: nat, queues: map<Bytes, Queue>, later: int)
    requires Safe(b, acc) && LegalAction(b, a) && !IsMove(b, a, up, hash)
    requires a.req.RetryReq? ==> TargetReady(b, a.req.queue, up)
    requires a.req.PurgeReq? ==> !PartlyPurged(b, a.req.queue, a.req.batches, up)
    requires |b.store.trail| <= i < |Handle(b, a, up, hash).store.trail|
    requires Recovered(Handle(b, a, up, hash).store.trail[i], queues, later, hash)
    ensures var kept := KeptBy(b, acc, a, up, hash);
            forall id :: id in kept ==>
              exists n :: n in queues && id in Held(queues[n]) && ContentOf(Held(queues[n])[id]) == kept[id]
  {
    hide Agrees, Held, Safe, Recovered, Handle, KeptBy;
    HandleImages(b, a, up, hash, acc);
    RecoveryFinds(Handle(b, a, up, hash).store.trail[i], queues, KeptBy(b, acc, a, up, hash), later, hash);
  }

  lemma HandleImages(b: Broker, a: Action, up: Pattern, hash: Hash, acc: Accepted)
    requires Safe(b, acc) && LegalAction(b, a) && !IsMove(b, a, up, hash)
    requires a.req.RetryReq? ==> TargetReady(b, a.req.queue, up)
    requires a.req.PurgeReq? ==> !PartlyPurged(b, a.req.queue, a.req.batches, up)
    ensures ImagesKeep(b.store, Handle(b, a, up, hash).store, KeptBy(b, acc, a, up, hash))
  {
    hide Agrees, Held, Safe, Publish, Consume, HandleAck, HandleNack, RetryDLQ, PurgeQueue, PartlyPurged, Batched,
      Locally, NewMessage, ExpiryOrder,
      ImagesKeep;
    match a.req
    case PublishReq(m) => PublishSafe(b, m, a.now, up, hash, acc);
    case ConsumeReq(n, c, timeout) => ConsumeSafe(b, n, c, timeout, a.now, up, hash, acc);
    case AckReq(n, id) => AckSafe(b, n, id, a.now, up, hash, acc);
    case NackReq(n, id, requeue) => NackSafe(b, n, id, requeue, a.now, up, hash, acc);
    case RetryReq(n) => RetrySafe(b, n, a.now, up, hash, acc);
    case PurgeReq(n, batches) => PurgeSafe(b, n, batches, up, acc);
    case _ =>
      Unchanged(b, acc);
      if a.req.queue in b.queues { LocallySafe(b, a.req.queue, a, hash, acc); }
  }

  /** What a crash in the middle of the action, or right after an unprotected write has failed, may
      take: the message being moved, or what a purge that failed had deleted by then. */
  ghost function LostBy(b: Broker, a: Action, up: Pattern, hash: Hash): set<Bytes> {
    match a.req
    case NackReq(n, id, _) => if IsMove(b, a, up, hash) then {id} else {}
    case PurgeReq(n, batches) =>
      if PartlyPurged(b, n, batches, up)
      then StoredIds(b.store.disk, n) - StoredIds(PurgeQueue(b, n, batches, up).0.store.disk, n) else {}
    case _ => {}
  }

  /** Everything else is on every disk of every handler, whatever fails. */
  lemma HandleSpares(b: Broker, a: Action, up: Pattern, hash: Hash, acc: Accepted)
    requires Safe(b, acc) && LegalAction(b, a)
    requires a.req.RetryReq? ==> TargetReady(b, a.req.queue, up)
    ensures ImagesKeep(b.store, Handle(b, a, up, hash).store, KeptBy(b, acc, a, up, hash) - LostBy(b, a, up, hash))
  {
    hide Agrees, Held, Safe, ImagesKeep, HandleNack, PurgeQueue, PartlyPurged, StoredIds, Batched, RetryDLQ, Publish,
      Consume, HandleAck, Locally, NewMessage, ExpiryOrder, TargetReady;
    if IsMove(b, a, up, hash) {
      NackIsMove(b, a.req.queue, a.req.id, a.req.requeue, a.now, up, hash);
      MoveImages(b, a.req.queue, a.req.id, a.now, up, hash, acc);
    } else if a.req.PurgeReq? && PartlyPurged(b, a.req.queue, a.req.batches, up) {
      FailedPurge(b, a.req.queue, a.req.batches, up);
      PurgeImages(b, a.req.queue, a.req.batches, up, acc);
    } else {
      HandleImages(b, a, up, hash, acc);
      assert KeptBy(b, acc, a, up, hash) - {} == KeptBy(b, acc, a, up, hash);
    }
  }

  lemma NackIsMove(b: Broker, n: Bytes, id: Bytes, requeue: bool, now: int, up: Pattern, hash: Hash)
    requires HandleNack(b, n, id, requeue, now, up, hash).1.Moved?
    ensures n in b.queues && id in b.queues[n].inFlight
    ensures HandleNack(b, n, id, requeue, now, up, hash) == MoveToDLQ(b, n, id, now, up, hash)
  {
    hide MoveToDLQ, Nack;
  }

  lemma FailedPurge(b: Broker, n: Bytes, batches: seq<set<Bytes>>, up: Pattern)
    requires PartlyPurged(b, n, batches, up)
    ensures n in b.queues && !PurgeQueue(b, n, batches, up).1
  {
  }

  /** With working rollbacks, memory and disk stay in step. */
  lemma HandleExact(b: Broker, a: Action, up: Pattern, hash: Hash)
    requires Exact(b) && LegalAction(b, a) && Clean(b, a, up, hash)
    ensures Exact(Handle(b, a, up, hash))
  {
    hide Agrees, Held, SoundView, Publish, Consume, HandleAck, HandleNack, RetryDLQ, PurgeQueue, PartlyPurged,
      Batched, Locally, NewMessage, ExpiryOrder,
      NoStrays;
    SoundIsSafe(b);
    match a.req
    case PublishReq(m) => PublishExact(b, m, a.now, up, hash);
    case ConsumeReq(n, c, timeout) => ConsumeSafe(b, n, c, timeout, a.now, up, hash, map[]);
    case AckReq(n, id) => AckSafe(b, n, id, a.now, up, hash, map[]);
    case NackReq(n, id, requeue) => NackSafe(b, n, id, requeue, a.now, up, hash, map[]);
    case RetryReq(n) => RetrySafe(b, n, a.now, up, hash, map[]);
    case PurgeReq(n, batches) => PurgeSafe(b, n, batches, up, map[]);
    case _ => if a.req.queue in b.queues { LocallySafe(b, a.req.queue, a, hash, map[]); }
  }

  lemma SoundIsSafe(b: Broker)
    requires Sound(b)
    ensures Safe(b, map[])
  {
  }

  // ---------- known queues ----------

  /** Recovery knows exactly the queues in memory. */
  predicate NamesAgree(b: Broker) {
    b.queues.Keys == b.store.disk.configs.Keys
  }

  lemma {:induction false} LoopNames(b: Broker, name: Bytes, k: nat, now: int, up: Pattern, hash: Hash)
    requires NamesAgree(b) && DLQName(name) in b.queues
    ensures NamesAgree(RetryLoop(b, name, k, now, up, hash).0)
    decreases |b.queues[DLQName(name)].pending|
  {
    hide RetryHead;
    if b.queues[DLQName(name)].pending != [] {
      var (b1, r, more) := RetryHead(b, name, now, up, hash);
      PassOutcome(b, name, now, up, hash);
      PassNames(b, name, now, up, hash);
      PassShrinks(b, name, now, up, hash);
      if more { LoopNames(b1, name, k + 1, now, up, hash); }
    }
  }

  lemma PassNames(b: Broker, name: Bytes, now: int, up: Pattern, hash: Hash)
    requires HasHead(b, name)
    ensures RetryHead(b, name, now, up, hash).0.store.disk.configs == b.store.disk.configs
  {
    hide Enqueue;
  }

  /** Every handler keeps it so. */
  lemma HandleNames(b: Broker, a: Action, up: Pattern, hash: Hash)
    requires NamesAgree(b)
    ensures NamesAgree(Handle(b, a, up, hash))
  {
    hide Enqueue, AddConsumer, Ack, Nack, RetryLoop, Locally, AsHeld, NackVerdict, Settle, DeleteBatches;
    match a.req
    case RetryReq(n) => if DLQName(n) in b.queues { LoopNames(GetOrCreate(b, n, up).0, n, 0, a.now, up, hash); }
    case NackReq(n, id, requeue) => NackNames(b, n, id, requeue, a.now, up, hash);
    case PublishReq(m) =>
    case ConsumeReq(n, c, timeout) =>
    case AckReq(n, id) =>
    case PurgeReq(n, batches) => if n in b.queues { DeleteBatchesPrunes(b.store, n, batches, up); }
    case _ => LocalNames(b, a, hash);
  }

  lemma NackNames(b: Broker, n: Bytes, id: Bytes, requeue: bool, now: int, up: Pattern, hash: Hash)
    requires NamesAgree(b)
    ensures NamesAgree(HandleNack(b, n, id, requeue, now, up, hash).0)
  {
    hide Enqueue, Nack, AsHeld, NackVerdict, Settle;
  }

  lemma LocalNames(b: Broker, a: Action, hash: Hash)
    requires NamesAgree(b) && !a.req.PublishReq?
    ensures a.req.queue in b.queues ==> NamesAgree(Locally(b, a.req.queue, a, hash))
  {
    hide Receive, RemoveConsumer, RequeueExpired, ExtendVisibility;
  }

  /** So, as every run keeps names in agreement, a retry is safe under every failure pattern if
      and only if its target queue exists. */
  lemma RetryNeedsTarget(b: Broker, name: Bytes, now: int, hash: Hash, acc: Accepted)
    requires Safe(b, acc) && Exact(b) && NamesAgree(b) && HasHead(b, name) && Head(b, name).id in acc
    ensures name in b.queues <==> forall up: Pattern :: Survives(RetryDLQ(b, name, now, up, hash).0.store.disk, acc)
  {
    hide Safe, Exact, Survives, RetryDLQ;
    RetryKeepsIff(b, name, now, hash, acc);
  }

  // ---------- runs ----------

  const EMPTY := Broker(map[], Store(Disk(map[], map[]), 0, []))

  lemma EmptyExact()
    ensures Exact(EMPTY) && Safe(EMPTY, map[]) && NamesAgree(EMPTY)
  {
    assert HomesOf(EMPTY) == map[];
  }

  /** A run with restarts: each event is an action; or a crash and recovery between two actions;
      or a crash during an action, when the disk is the given one of those it leaves, and recovery
      from there. */
  datatype LifeEvent =
    | Act(action: Action)
    | Restart(queues: map<Bytes, Queue>, now: int)
    | Crash(action: Action, at: nat, queues: map<Bytes, Queue>, now: int)

  /** The action got as far as its disk `at`. */
  function CrashedAt(b: Broker, a: Action, at: nat, up: Pattern, hash: Hash): Broker {
    var t := Handle(b, a, up, hash);
    if at < |t.store.trail| then t.(store := t.store.(disk := t.store.trail[at])) else t
  }

  function Advance(b: Broker, e: LifeEvent, up: Pattern, hash: Hash): Broker {
    match e
    case Act(a) => Handle(b, a, up, hash)
    case Restart(queues, _) => Restarted(b, queues)
    case Crash(a, at, queues, _) => Restarted(CrashedAt(b, a, at, up, hash), queues)
  }

  function Lifetimes(b: Broker, events: seq<LifeEvent>, up: Pattern, hash: Hash): Broker {
    if events == [] then b
    else Advance(Lifetimes(b, events[..|events| - 1], up, hash), events[|events| - 1], up, hash)
  }

  ghost function LifeAccepted(b: Broker, acc: Accepted, events: seq<LifeEvent>, up: Pattern, hash: Hash): Accepted {
    if events == [] then acc
    else
      var p := Lifetimes(b, events[..|events| - 1], up, hash);
      var so := LifeAccepted(b, acc, events[..|events| - 1], up, hash);
      match events[|events| - 1]
      case Act(a) => AcceptedAfter(p, so, a, up, hash)
      case Restart(_, _) => so
      case Crash(a, _, _, _) => KeptBy(p, so, a, up, hash) - LostBy(p, a, up, hash)
  }

  /** A restart during the action, from one of the disks it leaves. */
  ghost predicate Restartable(b: Broker, a: Action, at: nat, queues: map<Bytes, Queue>, now: int, up: Pattern,
                              hash: Hash)
  {
    && LegalAction(b, a) && (a.req.RetryReq? ==> TargetReady(b, a.req.queue, up))
    && |b.store.trail| <= at < |Handle(b, a, up, hash).store.trail|
    && Recovered(CrashedAt(b, a, at, up, hash).store.disk, queues, now, hash)
    && OneRecord(CrashedAt(b, a, at, up, hash).store.disk)
  }

  /** Actions spare the unprotected writes, unless a restart follows at once; a retry's target is
      ready; restarts find no message recorded twice. */
  ghost predicate ProtectedEvent(b: Broker, e: LifeEvent, up: Pattern, hash: Hash) {
    match e
    case Act(a) => LegalAction(b, a) && Protected(b, a, up, hash)
    case Restart(queues, now) => Recovered(b.store.disk, queues, now, hash) && OneRecord(b.store.disk)
    case Crash(a, at, queues, now) => Restartable(b, a, at, queues, now, up, hash)
  }

  lemma CrashSafe(b: Broker, a: Action, at: nat, queues: map<Bytes, Queue>, now: int, up: Pattern, hash: Hash,
                  acc: Accepted)
    requires Safe(b, acc) && Restartable(b, a, at, queues, now, up, hash)
    ensures var t := Restarted(CrashedAt(b, a, at, up, hash), queues);
            Safe(t, KeptBy(b, acc, a, up, hash) - LostBy(b, a, up, hash)) && Exact(t)
  {
    hide Agrees, Held, Safe, Exact, Handle, KeptBy, LostBy, LegalAction, Recovered, Restarted, OneRecord, Survives,
      Catalogued, TargetReady;
    HandleSpares(b, a, up, hash, acc);
    var kept := KeptBy(b, acc, a, up, hash) - LostBy(b, a, up, hash);
    RestartSafeIff(CrashedAt(b, a, at, up, hash), queues, kept, now, hash);
  }

  lemma DiskOfSafe(b: Broker, acc: Accepted)
    requires Safe(b, acc)
    ensures Catalogued(b.store.disk) && Survives(b.store.disk, acc)
  {
  }

  ghost predicate ProtectedLife(b: Broker, events: seq<LifeEvent>, up: Pattern, hash: Hash) {
    events != [] ==>
      && ProtectedLife(b, events[..|events| - 1], up, hash)
      && ProtectedEvent(Lifetimes(b, events[..|events| - 1], up, hash), events[|events| - 1], up, hash)
  }

  /** Whatever storage calls fail, short of the named writes, and however often the broker crashes,
      between handlers or inside them, and is restarted: every message whose publish succeeded and
      that was not acked, dropped or purged is on disk after the run. A crash inside a handler, or
      after a named write has failed, takes at most what `LostBy` says and spares the others.
      Excluded are restarts that find a message recorded twice (`DoubledCanLose` shows why), and
      retries whose target is neither there nor saved. The run may start anywhere safe. */
  lemma {:induction false} AcceptedSurvive(b: Broker, acc: Accepted, events: seq<LifeEvent>, up: Pattern, hash: Hash)
    requires Safe(b, acc) && ProtectedLife(b, events, up, hash)
    ensures Safe(Lifetimes(b, events, up, hash), LifeAccepted(b, acc, events, up, hash))
  {
    hide Agrees, Held, Safe, Handle, AcceptedAfter, KeptBy, LostBy, LegalAction, Protected, Recovered, Restarted,
      OneRecord, CrashedAt, Restartable, Survives, Catalogued;
    if events != [] {
      var p := events[..|events| - 1];
      AcceptedSurvive(b, acc, p, up, hash);
      var t, so := Lifetimes(b, p, up, hash), LifeAccepted(b, acc, p, up, hash);
      match events[|events| - 1]
      case Act(a) => HandleSafe(t, a, up, hash, so);
      case Restart(queues, now) => DiskOfSafe(t, so); RestartSafeIff(t, queues, so, now, hash);
      case Crash(a, at, queues, now) => CrashSafe(t, a, at, queues, now, up, hash, so);
    }
  }

  /** ... and recovery reloads it, with the content it was published with. */
  lemma AcceptedReloaded(b: Broker, acc: Accepted, events: seq<LifeEvent>, up: Pattern, hash: Hash,
                         queues: map<Bytes, Queue>, later: int)
    requires Safe(b, acc) && ProtectedLife(b, events, up, hash)
    requires Recovered(Lifetimes(b, events, up, hash).store.disk, queues, later, hash)
    ensures var kept := LifeAccepted(b, acc, events, up, hash);
            forall id :: id in kept ==>
              exists n :: n in queues && id in Held(queues[n]) && ContentOf(Held(queues[n])[id]) == kept[id]
  {
    hide Agrees, Held, Recovered, Advance, AcceptedAfter, Survives, ProtectedEvent;
    AcceptedSurvive(b, acc, events, up, hash);
    var kept := LifeAccepted(b, acc, events, up, hash);
    RecoveryFinds(Lifetimes(b, events, up, hash).store.disk, queues, kept, later, hash);
  }

  ghost predicate CleanEvent(b: Broker, e: LifeEvent, up: Pattern, hash: Hash) {
    match e
    case Act(a) => LegalAction(b, a) && Clean(b, a, up, hash)
    case Restart(queues, now) => Recovered(b.store.disk, queues, now, hash)
    case Crash(a, at, queues, now) => Restartable(b, a, at, queues, now, up, hash)
  }

  ghost predicate CleanRun(b: Broker, events: seq<LifeEvent>, up: Pattern, hash: Hash) {
    events != [] ==>
      && CleanRun(b, events[..|events| - 1], up, hash)
      && CleanEvent(Lifetimes(b, events[..|events| - 1], up, hash), events[|events| - 1], up, hash)
  }

  /** While rollbacks succeed and the DLQ has room, after every handler and every restart the
      stored messages are exactly the pending and in-flight ones, with the same content and
      no later attempt: so a crash loses nothing and brings nothing back. */
  lemma {:induction false} StoreIsExact(b: Broker, events: seq<LifeEvent>, up: Pattern, hash: Hash)
    requires Exact(b) && CleanRun(b, events, up, hash)
    ensures Exact(Lifetimes(b, events, up, hash))
  {
    hide Agrees, Held, Exact, Handle, LegalAction, Clean, Recovered, Restarted, CrashedAt, Restartable;
    if events != [] {
      var p := events[..|events| - 1];
      StoreIsExact(b, p, up, hash);
      match events[|events| - 1]
      case Act(a) => HandleExact(Lifetimes(b, p, up, hash), a, up, hash);
      case Restart(queues, now) => RestartExact(Lifetimes(b, p, up, hash), queues, now, hash);
      case Crash(a, at, queues, now) =>
        ExactIsSafe(Lifetimes(b, p, up, hash));
        CrashSafe(Lifetimes(b, p, up, hash), a, at, queues, now, up, hash, map[]);
    }
  }

  lemma ExactIsSafe(b: Broker)
    requires Exact(b)
    ensures Safe(b, map[])
  {
  }

  /** Clean runs are protected ones: from nothing, a clean run keeps every accepted message, and
      records and messages in step. */
  lemma CleanFromNothing(events: seq<LifeEvent>, up: Pattern, hash: Hash)
    requires CleanRun(EMPTY, events, up, hash)
    ensures Safe(Lifetimes(EMPTY, events, up, hash), LifeAccepted(EMPTY, map[], events, up, hash))
    ensures Exact(Lifetimes(EMPTY, events, up, hash))
  {
    hide Safe, Exact, CleanRun, ProtectedLife, Lifetimes;
    EmptyExact();
    CleanIsProtected(EMPTY, events, up, hash);
    AcceptedSurvive(EMPTY, map[], events, up, hash);
    StoreIsExact(EMPTY, events, up, hash);
  }

  lemma {:induction false} CleanIsProtected(b: Broker, events: seq<LifeEvent>, up: Pattern, hash: Hash)
    requires Exact(b) && CleanRun(b, events, up, hash)
    ensures ProtectedLife(b, events, up, hash)
  {
    hide Exact, Lifetimes, CleanEvent, ProtectedEvent;
    if events != [] {
      var p := events[..|events| - 1];
      CleanIsProtected(b, p, up, hash);
      StoreIsExact(b, p, up, hash);
      CleanEventProtected(Lifetimes(b, p, up, hash), events[|events| - 1], up, hash);
    }
  }

  lemma CleanEventProtected(b: Broker, e: LifeEvent, up: Pattern, hash: Hash)
    requires Exact(b) && CleanEvent(b, e, up, hash)
    ensures ProtectedEvent(b, e, up, hash)
  {
    hide Exact, OneRecord, Recovered, HandleNack, RetryDLQ, PartlyPurged, Publish, LegalAction, Restartable,
      TargetReady;
    ExactOneRecord(b);
  }

  ghost predicate RestartsRecover(b: Broker, events: seq<LifeEvent>, up: Pattern, hash: Hash) {
    events != [] ==>
      var p, e := events[..|events| - 1], events[|events| - 1];
      && RestartsRecover(b, p, up, hash)
      && (e.Restart? ==> Recovered(Lifetimes(b, p, up, hash).store.disk, e.queues, e.now, hash))
      && (e.Crash? ==>
            var d := CrashedAt(Lifetimes(b, p, up, hash), e.action, e.at, up, hash).store.disk;
            Recovered(d, e.queues, e.now, hash))
  }

  /** In every run, whatever fails, recovery knows exactly the queues in memory. */
  lemma {:induction false} LifetimesNames(b: Broker, events: seq<LifeEvent>, up: Pattern, hash: Hash)
    requires NamesAgree(b) && RestartsRecover(b, events, up, hash)
    ensures NamesAgree(Lifetimes(b, events, up, hash))
  {
    hide Handle;
    if events != [] {
      var p := events[..|events| - 1];
      LifetimesNames(b, p, up, hash);
      match events[|events| - 1]
      case Act(a) => HandleNames(Lifetimes(b, p, up, hash), a, up, hash);
      case Restart(_, _) =>
      case Crash(_, _, _, _) =>
    }
  }
}
