/**
 The broker's handlers over an abstract store. Storage calls may fail in any pattern: the
 k-th call succeeds iff `up(k)`, and a failed call has no effect. The store remembers the
 disk after every call, so that a crash can be placed between any two of them.
 */
module BrokerModel {
  import opened Types
  import opened QueueModel
  import opened QueueRuns

  // ---------- storage ----------

  datatype Key = Key(queue: Bytes, id: Bytes)

  /** `policy` is absent where the stored string is empty. */
  datatype Config = Config(maxSize: int, maxSizeSet: bool, maxRetries: nat, policy: Option<FailurePolicy>)

  datatype Disk = Disk(configs: map<Bytes, Config>, records: map<Key, Message>)

  datatype Store = Store(disk: Disk, calls: nat, trail: seq<Disk>)

  type Pattern = nat -> bool

  const DEFAULT_CONFIG := Config(DEFAULT_MAX_SIZE, false, DEFAULT_MAX_RETRIES, Some(DeadLetter))

  /** One storage call: `next` is the disk if it succeeds. */
  function Call(st: Store, next: Disk, up: Pattern): (Store, bool) {
    var d := if up(st.calls) then next else st.disk;
    (Store(d, st.calls + 1, st.trail + [d]), up(st.calls))
  }

  function SaveMessage(st: Store, m: Message, up: Pattern): (Store, bool) {
    Call(st, st.disk.(records := st.disk.records[Key(m.queue, m.id) := m]), up)
  }

  function DeleteMessage(st: Store, queue: Bytes, id: Bytes, up: Pattern): (Store, bool) {
    Call(st, st.disk.(records := st.disk.records - {Key(queue, id)}), up)
  }

  const DELETE_BATCH := 500

  function StoredIds(d: Disk, queue: Bytes): set<Bytes> {
    set k | k in d.records && k.queue == queue :: k.id
  }

  function WithoutIds(d: Disk, queue: Bytes, ids: set<Bytes>): Disk {
    d.(records := map k | k in d.records && !(k.queue == queue && k.id in ids) :: d.records[k])
  }

  /** Ids taken a batch at a time, whichever the scan yields first, until none is left. */
  ghost predicate Batched(ids: set<Bytes>, batches: seq<set<Bytes>>) {
    if batches == [] then ids == {}
    else
      && {} < batches[0] <= ids && |batches[0]| == (if |ids| < DELETE_BATCH then |ids| else DELETE_BATCH)
      && Batched(ids - batches[0], batches[1..])
  }

  /** A queue's records are deleted in batches; the first that fails ends it. */
  function DeleteBatches(st: Store, queue: Bytes, batches: seq<set<Bytes>>, up: Pattern): (Store, bool)
    decreases |batches|
  {
    if batches == [] then (st, true)
    else
      var (st1, ok) := Call(st, WithoutIds(st.disk, queue, batches[0]), up);
      if ok then DeleteBatches(st1, queue, batches[1..], up) else (st1, false)
  }

  function SaveQueue(st: Store, name: Bytes, c: Config, up: Pattern): (Store, bool) {
    Call(st, st.disk.(configs := st.disk.configs[name := c]), up)
  }

  // ---------- the broker ----------

  datatype Broker = Broker(queues: map<Bytes, Queue>, store: Store)

  /** ".dlq" */
  const DLQ_SUFFIX: Bytes := [0x2e, 0x64, 0x6c, 0x71]

  function DLQName(queue: Bytes): Bytes {
    queue + DLQ_SUFFIX
  }

  function GetOrCreate(b: Broker, name: Bytes, up: Pattern): (r: (Broker, bool))
    ensures r.1 <==> name in r.0.queues
  {
    if name in b.queues then (b, true)
    else
      var (st, ok) := SaveQueue(b.store, name, DEFAULT_CONFIG, up);
      if ok then (Broker(b.queues[name := NewQueue(name)], st), true) else (b.(store := st), false)
  }

  function SetQueue(b: Broker, name: Bytes, q: Queue, st: Store): Broker {
    Broker(b.queues[name := q], st)
  }

  datatype PublishResult = Published | ConfigNotSaved | MessageNotSaved | RolledBack | RollbackFailed

  /** The queue exists: the message is stored first, then enqueued; a full queue undoes the store. */
  function PublishTo(b: Broker, m: Message, now: int, up: Pattern, hash: Hash): (Broker, PublishResult)
    requires m.queue in b.queues
  {
    var (st, saved) := SaveMessage(b.store, m, up);
    if !saved then (b.(store := st), MessageNotSaved)
    else
      var (q, enqueued) := Enqueue(b.queues[m.queue], m, now, hash);
      if enqueued then (SetQueue(b, m.queue, q, st), Published)
      else
        var (rb, undone) := DeleteMessage(st, m.queue, m.id, up);
        (b.(store := rb), if undone then RolledBack else RollbackFailed)
  }

  function Publish(b0: Broker, m: Message, now: int, up: Pattern, hash: Hash): (Broker, PublishResult) {
    var (b, created) := GetOrCreate(b0, m.queue, up);
    if created then PublishTo(b, m, now, up, hash) else (b, ConfigNotSaved)
  }

  /** Thirty seconds unless the request asks for some other number of seconds. */
  function VisibilityTimeout(seconds: nat): int {
    (if seconds > 0 then seconds else 30) * 1_000_000_000
  }

  /** The queue's config could not be saved: there is no queue object, and using it is a
      nil dereference. Nothing has changed by then but the store's call count. */
  function Consume(b0: Broker, name: Bytes, c: nat, timeout: int, now: int, up: Pattern, hash: Hash): Broker {
    var (b, created) := GetOrCreate(b0, name, up);
    if created then
      SetQueue(b, name, AddConsumer(b.queues[name], c, timeout, now, hash), b.store)
    else b
  }

  /** The record is deleted before the message is forgotten, under the queue's lock. */
  function HandleAck(b: Broker, name: Bytes, id: Bytes, now: int, up: Pattern, hash: Hash): (Broker, AckResult) {
    if name !in b.queues || id !in b.queues[name].inFlight then (b, AckNotFound)
    else
      var (st, ok) := DeleteMessage(b.store, name, id, up);
      var (q, r) := Ack(b.queues[name], id, ok, now, hash);
      (SetQueue(b, name, q, st), r)
  }

  datatype HandleNackResult =
    | NotInFlight
    | NackFailed
    | DroppedFor
    | RequeuedFor
    | Moved(deleted: bool, saved: bool, enqueued: bool)
    | NoDLQ

  /** The message as the queue holds it after taking it in: delivered already, or not. */
  function AsHeld(q: Queue, m: Message): Message {
    if m.id in q.inFlight then q.inFlight[m.id] else m
  }

  /** A nack decided as dead-letter. The three effects on the DLQ's side ignore their errors:
      the enqueue, the delete of the old record and the save of the new one. The message is
      shared by reference, so what is saved is the message as the DLQ holds it by then. */
  function MoveToDLQ(b: Broker, name: Bytes, id: Bytes, now: int, up: Pattern, hash: Hash): (Broker, HandleNackResult)
    requires name in b.queues && id in b.queues[name].inFlight
  {
    var left := SetQueue(b, name, Settle(b.queues[name], id, DeadLettered), b.store);
    JoinDLQ(left, name, b.queues[name].inFlight[id], now, up, hash)
  }

  function JoinDLQ(b: Broker, name: Bytes, m: Message, now: int, up: Pattern, hash: Hash): (Broker, HandleNackResult) {
    var (b1, created) := GetOrCreate(b, DLQName(name), up);
    if created then Deposit(b1, name, m.(queue := DLQName(name), visibleAt := now), now, up, hash) else (b1, NoDLQ)
  }

  function Deposit(b: Broker, from: Bytes, moved: Message, now: int, up: Pattern, hash: Hash): (Broker,
                   HandleNackResult)
    requires moved.queue in b.queues
  {
    var (d, enqueued) := Enqueue(b.queues[moved.queue], moved, now, hash);
    var (st1, deleted) := DeleteMessage(b.store, from, moved.id, up);
    var (st2, saved) := SaveMessage(st1, AsHeld(d, moved), up);
    (SetQueue(b, moved.queue, d, st2), Moved(deleted, saved, enqueued))
  }

  function HandleNack(b: Broker, name: Bytes, id: Bytes, requeue: bool, now: int, up: Pattern, hash: Hash)
    : (Broker, HandleNackResult)
  {
    if name !in b.queues || id !in b.queues[name].inFlight then (b, NotInFlight)
    else
      var q := b.queues[name];
      match NackVerdict(q, q.inFlight[id], requeue)
      case ToDLQ => MoveToDLQ(b, name, id, now, up, hash)
      case ToDrop =>
        var (st, ok) := DeleteMessage(b.store, name, id, up);
        (SetQueue(b, name, Nack(q, id, requeue, ok, now, hash).0, st), if ok then DroppedFor else NackFailed)
      case ToRequeue =>
        var (st, ok) := SaveMessage(b.store, q.inFlight[id].(visibleAt := now), up);
        (SetQueue(b, name, Nack(q, id, requeue, ok, now, hash).0, st), if ok then RequeuedFor else NackFailed)
  }

  // ---------- retrying a dead-letter queue ----------

  datatype RetryResult =
    | AllRetried
    | CopyNotSaved                        // nothing changed for the head
    | OldNotDeleted(undone: bool)         // the copy's record was deleted again, or not
    | Restored                            // target full: the head's record is back as it was
    | NotRestored                         // target full, and its record could not be saved back
    | CopyLeft                            // target full, head's record back, the copy's left over
    | NoTarget                            // the target queue could not be created

  /** What one pass of the loop does to the head of the DLQ; the last component tells
      whether the loop goes on. */
  function RetryHead(b: Broker, name: Bytes, now: int, up: Pattern, hash: Hash): (Broker, RetryResult, bool)
    requires DLQName(name) in b.queues && b.queues[DLQName(name)].pending != []
  {
    var m := b.queues[DLQName(name)].pending[0];
    var (st1, saved) := SaveMessage(b.store, m.(queue := name, attempt := 0, visibleAt := now), up);
    if !saved then (b.(store := st1), CopyNotSaved, false)
    else
      var (st2, deleted) := DeleteMessage(st1, DLQName(name), m.id, up);
      if !deleted then
        var (st3, undone) := DeleteMessage(st2, name, m.id, up);
        (b.(store := st3), OldNotDeleted(undone), false)
      else if name !in b.queues then (b.(store := st2), NoTarget, false)
      else RetryEnqueue(b.(store := st2), name, now, up, hash)
  }

  /** The copy is stored and the head's record gone: the target takes the copy, or all is put back. */
  function RetryEnqueue(b: Broker, name: Bytes, now: int, up: Pattern, hash: Hash): (Broker, RetryResult, bool)
    requires name in b.queues && DLQName(name) in b.queues && b.queues[DLQName(name)].pending != []
  {
    var dlq := b.queues[DLQName(name)];
    var m := dlq.pending[0];
    var (q, enqueued) := Enqueue(b.queues[name], m.(queue := name, attempt := 0, visibleAt := now), now, hash);
    if enqueued then
      (Broker(b.queues[name := q][DLQName(name) := Pull(dlq, 0, Retried)], b.store), AllRetried, true)
    else
      var (st3, restored) := SaveMessage(b.store, m, up);
      if !restored then (b.(store := st3), NotRestored, false)
      else
        var (st4, undone) := DeleteMessage(st3, name, m.id, up);
        (b.(store := st4), if undone then Restored else CopyLeft, false)
  }

  function RetryLoop(b: Broker, name: Bytes, retried: nat, now: int, up: Pattern, hash: Hash): (Broker, nat,
                     RetryResult)
    requires DLQName(name) in b.queues
    decreases |b.queues[DLQName(name)].pending|
  {
    if b.queues[DLQName(name)].pending == [] then (b, retried, AllRetried)
    else
      var (b1, r, more) := RetryHead(b, name, now, up, hash);
      if more then RetryLoop(b1, name, retried + 1, now, up, hash) else (b1, retried, r)
  }

  function RetryDLQ(b0: Broker, name: Bytes, now: int, up: Pattern, hash: Hash): (Broker, nat, RetryResult) {
    if DLQName(name) !in b0.queues then (b0, 0, AllRetried)
    else
      var (b, _) := GetOrCreate(b0, name, up);
      RetryLoop(b, name, 0, now, up, hash)
  }

  /** Durable messages go first; nothing happens in memory if that fails. */
  function PurgeQueue(b: Broker, name: Bytes, batches: seq<set<Bytes>>, up: Pattern): (Broker, bool) {
    if name !in b.queues then (b, true)
    else
      var (st, ok) := DeleteBatches(b.store, name, batches, up);
      if ok then (SetQueue(b, name, Purge(b.queues[name]), st), true) else (b.(store := st), false)
  }

  // ---------- recovery ----------

  /** The ids stored for a queue, each once, in whatever order the scan yields them. */
  ghost predicate Listing(d: Disk, name: Bytes, ids: seq<Bytes>) {
    && (forall id :: id in ids <==> Key(name, id) in d.records)
    && (forall i, j :: 0 <= i < j < |ids| ==> ids[i] != ids[j])
  }

  /** A new queue with the stored settings applied. */
  function ConfiguredQueue(name: Bytes, c: Config): Queue {
    var q := NewQueue(name);
    Configure(q, Settings(if c.maxSizeSet || c.maxSize != 0 then c.maxSize else q.maxSize,
                          if c.policy.Some? then c.policy.value else q.policy,
                          if c.maxRetries != 0 then c.maxRetries else q.maxRetries))
  }

  /** A stored message as recovery rebuilds it: all but the sequence number. */
  function Reloaded(m: Message): Message {
    m.(sequence := 0)
  }

  /** Stored messages are enqueued in listing order, past the capacity check. */
  function Refill(q: Queue, d: Disk, ids: seq<Bytes>, now: int, hash: Hash): Queue
    requires forall id :: id in ids ==> Key(q.name, id) in d.records
    decreases |ids|
  {
    if ids == [] then q
    else
      var p := ids[..|ids| - 1];
      EnqueueDirect(Refill(q, d, p, now, hash), Reloaded(d.records[Key(q.name, ids[|ids| - 1])]), now, hash)
  }

  /** The queue rebuilt from its stored config and messages, in some listing order. */
  ghost predicate Rebuilt(d: Disk, n: Bytes, c: Config, q: Queue, now: int, hash: Hash) {
    exists ids :: Listing(d, n, ids) && q == Refill(ConfiguredQueue(n, c), d, ids, now, hash)
  }

  /** Every stored queue, rebuilt. */
  ghost predicate Recovered(d: Disk, queues: map<Bytes, Queue>, now: int, hash: Hash) {
    queues.Keys == d.configs.Keys && forall n :: n in queues ==> Rebuilt(d, n, d.configs[n], queues[n], now, hash)
  }
}
