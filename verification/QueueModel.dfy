/**
 The delivery engine as functions on a value. Every operation runs under the queue's
 mutex, so each is one step; `now` is the clock reading of that step. `Hash` stands for
 the 32-bit FNV hash of an ordering key.

 The state carries a log of what happened. No operation reads it: it is what the
 whole-run properties are stated over.
 */
module QueueModel {
  import opened Types

  type Hash = Bytes -> nat

  /** A connected consumer: its channel holds at most one message. */
  datatype Consumer = Consumer(id: nat, timeout: int, ch: Option<Message>)

  datatype Ending = Acked | Dropped | DeadLettered | Retried | Removed

  datatype Event =
    | Enqueued(msg: Message)
    | Delivered(id: Bytes, key: Bytes, consumer: nat, at: int, deadline: int)
    | Requeued(id: Bytes, at: int)
    | Expired(id: Bytes, at: int)
    | Extended(id: Bytes, at: int, extension: int)
    | Ended(id: Bytes, how: Ending)
    | Purged
    | Joined(consumer: nat, timeout: int)
    | Received(consumer: nat, msg: Message)
    | Left(consumer: nat)

  datatype Queue = Queue(
    name: Bytes,
    pending: seq<Message>,
    inFlight: map<Bytes, Message>,
    consumers: seq<Consumer>,
    nextIdx: nat,
    maxSize: int,
    policy: FailurePolicy,
    maxRetries: nat,
    keys: map<Bytes, nat>,
    log: seq<Event>)

  const DEFAULT_MAX_SIZE := 10_000
  const DEFAULT_MAX_RETRIES := 5

  function NewQueue(name: Bytes): Queue {
    Queue(name, [], map[], [], 0, DEFAULT_MAX_SIZE, DeadLetter, DEFAULT_MAX_RETRIES, map[], [])
  }

  // ---------- delivery ----------

  function ConsumerIds(cs: seq<Consumer>): set<nat> {
    set i | 0 <= i < |cs| :: cs[i].id
  }

  /** The position of the consumer with the given identity. */
  function ConsumerAt(cs: seq<Consumer>, id: nat): (r: Option<nat>)
    ensures r.Some? <==> id in ConsumerIds(cs)
    ensures r.Some? ==> r.value < |cs| && cs[r.value].id == id
    ensures r.Some? ==> forall i :: 0 <= i < r.value ==> cs[i].id != id
    ensures r.None? ==> forall i :: 0 <= i < |cs| ==> cs[i].id != id
  {
    if cs == [] then None
    else
      var r := ConsumerAt(cs[..|cs| - 1], id);
      if r.Some? then r
      else if cs[|cs| - 1].id == id then Some(|cs| - 1)
      else None
  }

  /** The first consumer with room, starting at the round-robin index, from the j-th try on. */
  function FreeFrom(cs: seq<Consumer>, nextIdx: nat, j: nat): (r: Option<nat>)
    requires j <= |cs|
    ensures r.Some? ==> r.value < |cs| && cs[r.value].ch.None?
    decreases |cs| - j
  {
    if j == |cs| then None
    else if cs[(nextIdx + j) % |cs|].ch.None? then Some((nextIdx + j) % |cs|)
    else FreeFrom(cs, nextIdx, j + 1)
  }

  /** The consumer an unassigned ordering key is given: by hash, for a stable placement. */
  function HashTarget(s: Queue, key: Bytes, hash: Hash): (i: nat)
    requires s.consumers != []
    ensures i < |s.consumers|
  {
    hash(key) % |s.consumers|
  }

  /** Gives the head's ordering key an owner if it has none. The owner stays recorded even
      when its channel turns out to be full. */
  function AssignKey(s: Queue, hash: Hash): Queue
    requires s.consumers != [] && s.pending != []
  {
    var key := s.pending[0].orderingKey;
    if key == [] || key in s.keys then s
    else s.(keys := s.keys[key := s.consumers[HashTarget(s, key, hash)].id])
  }

  /** Where the head can go now: its key's owner, or the next free consumer in turn. */
  function Target(s: Queue): (r: Option<nat>)
    requires s.pending != []
    ensures r.Some? ==> r.value < |s.consumers| && s.consumers[r.value].ch.None?
  {
    var key := s.pending[0].orderingKey;
    if key == [] then FreeFrom(s.consumers, s.nextIdx, 0)
    else if key !in s.keys then None
    else
      var i := ConsumerAt(s.consumers, s.keys[key]);
      if i.Some? && s.consumers[i.value].ch.None? then i else None
  }

  /** Sends the head to consumer `i`: a clone with the next attempt number goes into the
      channel, the message itself becomes in-flight under a lease. */
  function Dispatch(s: Queue, i: nat, now: int): Queue
    requires s.pending != [] && i < |s.consumers|
  {
    var m := s.pending[0];
    var c := s.consumers[i];
    var leased := m.(attempt := m.attempt + 1, visibleAt := now + c.timeout);
    s.(pending := s.pending[1..],
       inFlight := s.inFlight[m.id := leased],
       consumers := s.consumers[i := c.(ch := Some(m.(attempt := m.attempt + 1)))],
       nextIdx := if m.orderingKey == [] then (i + 1) % |s.consumers| else s.nextIdx,
       log := s.log + [Delivered(m.id, m.orderingKey, c.id, now, now + c.timeout)])
  }

  /** Delivers heads until the queue is empty or the head cannot go anywhere. */
  function TryDeliver(s: Queue, now: int, hash: Hash): Queue
    decreases |s.pending|
  {
    if s.consumers == [] || s.pending == [] || s.pending[0].visibleAt > now then s
    else
      var a := AssignKey(s, hash);
      var t := Target(a);
      if t.None? then a else TryDeliver(Dispatch(a, t.value, now), now, hash)
  }

  // ---------- the steps operations are made of ----------

  function Push(s: Queue, m: Message): Queue {
    s.(pending := s.pending + [m], log := s.log + [Enqueued(m)])
  }

  /** An in-flight message goes to the back of the queue, visible from `at`. */
  function Requeue(s: Queue, id: Bytes, at: int, e: Event): Queue
    requires id in s.inFlight
  {
    s.(inFlight := s.inFlight - {id},
       pending := s.pending + [s.inFlight[id].(visibleAt := at)],
       log := s.log + [e])
  }

  function Settle(s: Queue, id: Bytes, how: Ending): Queue {
    s.(inFlight := s.inFlight - {id}, log := s.log + [Ended(id, how)])
  }

  // ---------- operations ----------

  /** Fails with no effect when the queue is at capacity. */
  function Enqueue(s: Queue, m: Message, now: int, hash: Hash): (Queue, bool) {
    if s.maxSize > 0 && |s.pending| >= s.maxSize then (s, false)
    else (TryDeliver(Push(s, m), now, hash), true)
  }

  /** Recovery's enqueue: no capacity check. */
  function EnqueueDirect(s: Queue, m: Message, now: int, hash: Hash): Queue {
    TryDeliver(Push(s, m), now, hash)
  }

  function Join(s: Queue, id: nat, timeout: int): Queue {
    s.(consumers := s.consumers + [Consumer(id, timeout, None)], log := s.log + [Joined(id, timeout)])
  }

  function AddConsumer(s: Queue, id: nat, timeout: int, now: int, hash: Hash): Queue {
    TryDeliver(Join(s, id, timeout), now, hash)
  }

  /** The environment takes the message out of a consumer's channel, if there is one. */
  function Receive(s: Queue, id: nat): Queue {
    var i := ConsumerAt(s.consumers, id);
    if i.None? || s.consumers[i.value].ch.None? then s
    else
      var c := s.consumers[i.value];
      s.(consumers := s.consumers[i.value := c.(ch := None)], log := s.log + [Received(id, c.ch.value)])
  }

  /** The consumer's keys lose their owner, to be placed again at the next delivery. */
  function RemoveConsumer(s: Queue, id: nat): Queue {
    var i := ConsumerAt(s.consumers, id);
    if i.None? then s
    else s.(consumers := s.consumers[..i.value] + s.consumers[i.value + 1..],
            keys := map k | k in s.keys && s.keys[k] != id :: s.keys[k],
            log := s.log + [Left(id)])
  }

  datatype AckResult = AckNotFound | AckHookFailed | AckDone

  /** `hookOk` is the outcome of the hook that runs before the message is forgotten. */
  function Ack(s: Queue, id: Bytes, hookOk: bool, now: int, hash: Hash): (Queue, AckResult) {
    if id !in s.inFlight then (s, AckNotFound)
    else if !hookOk then (s, AckHookFailed)
    else (TryDeliver(Settle(s, id, Acked), now, hash), AckDone)
  }

  datatype NackResult = NackNotFound | NackHookFailed | NackToDLQ(msg: Message) | NackDropped | NackRequeued

  /** What a nack asks for, decided before any hook runs. */
  datatype Verdict = ToDLQ | ToDrop | ToRequeue

  function NackVerdict(s: Queue, m: Message, requeue: bool): Verdict {
    if !requeue then (if s.policy == DeadLetter then ToDLQ else ToDrop)
    else if s.policy == DeadLetter && m.attempt >= s.maxRetries then ToDLQ
    else if s.policy == DropMessage && m.attempt >= s.maxRetries then ToDrop
    else ToRequeue
  }

  function Nack(s: Queue, id: Bytes, requeue: bool, hookOk: bool, now: int, hash: Hash): (Queue, NackResult) {
    if id !in s.inFlight then (s, NackNotFound)
    else
      match NackVerdict(s, s.inFlight[id], requeue)
      case ToDLQ => (Settle(s, id, DeadLettered), NackToDLQ(s.inFlight[id]))
      case ToDrop => if hookOk then (Settle(s, id, Dropped), NackDropped) else (s, NackHookFailed)
      case ToRequeue =>
        if hookOk then (TryDeliver(Requeue(s, id, now, Requeued(id, now)), now, hash), NackRequeued)
        else (s, NackHookFailed)
  }

  ghost predicate IsExpired(s: Queue, id: Bytes, now: int) {
    id in s.inFlight && s.inFlight[id].visibleAt < now
  }

  /** Map iteration order is arbitrary: any listing of exactly the expired messages. */
  ghost predicate ExpiryOrder(s: Queue, now: int, order: seq<Bytes>) {
    && (forall id :: id in order <==> IsExpired(s, id, now))
    && (forall i, j :: 0 <= i < j < |order| ==> order[i] != order[j])
  }

  function ExpireAll(s: Queue, order: seq<Bytes>, now: int): Queue {
    if order == [] then s
    else
      var p := ExpireAll(s, order[..|order| - 1], now);
      var id := order[|order| - 1];
      if id in p.inFlight then Requeue(p, id, now, Expired(id, now)) else p
  }

  function RequeueExpired(s: Queue, order: seq<Bytes>, now: int, hash: Hash): Queue {
    TryDeliver(ExpireAll(s, order, now), now, hash)
  }

  function ExtendVisibility(s: Queue, id: Bytes, extension: int, now: int): Queue {
    if id !in s.inFlight then s
    else s.(inFlight := s.inFlight[id := s.inFlight[id].(visibleAt := now + extension)],
            log := s.log + [Extended(id, now, extension)])
  }

  /** The first pending message with the given id. */
  function PendingAt(ms: seq<Message>, id: Bytes): (r: Option<nat>)
    ensures r.Some? ==> r.value < |ms| && ms[r.value].id == id
    ensures r.Some? ==> forall i :: 0 <= i < r.value ==> ms[i].id != id
    ensures r.None? ==> forall i :: 0 <= i < |ms| ==> ms[i].id != id
  {
    if ms == [] then None
    else
      var r := PendingAt(ms[..|ms| - 1], id);
      if r.Some? then r
      else if ms[|ms| - 1].id == id then Some(|ms| - 1)
      else None
  }

  /** Deletes a message wherever it is; true if there was one. */
  function Remove(s: Queue, id: Bytes): (Queue, bool) {
    var i := PendingAt(s.pending, id);
    if i.Some? then
      (s.(pending := s.pending[..i.value] + s.pending[i.value + 1..], log := s.log + [Ended(id, Removed)]), true)
    else if id in s.inFlight then (Settle(s, id, Removed), true)
    else (s, false)
  }

  function Purge(s: Queue): Queue {
    s.(pending := [], inFlight := map[], log := s.log + [Purged])
  }

  /** What the setters change, at any time. */
  datatype Settings = Settings(maxSize: int, policy: FailurePolicy, maxRetries: nat)

  function SettingsOf(s: Queue): Settings {
    Settings(s.maxSize, s.policy, s.maxRetries)
  }

  function Configure(s: Queue, c: Settings): Queue {
    s.(maxSize := c.maxSize, policy := c.policy, maxRetries := c.maxRetries)
  }

  // ---------- runs ----------

  datatype Op =
    | DoEnqueue(msg: Message)
    | DoEnqueueDirect(msg: Message)
    | DoConsume(consumer: nat, timeout: int)
    | DoReceive(consumer: nat)
    | DoLeave(consumer: nat)
    | DoAck(id: Bytes, hookOk: bool)
    | DoNack(id: Bytes, requeue: bool, hookOk: bool)
    | DoExpire(order: seq<Bytes>)
    | DoExtend(id: Bytes, extension: int)
    | DoRemove(id: Bytes)
    | DoPurge
    | DoConfigure(settings: Settings)

  datatype Step = Step(op: Op, now: int)

  function Apply(s: Queue, st: Step, hash: Hash): Queue {
    match st.op
    case DoEnqueue(m) => Enqueue(s, m, st.now, hash).0
    case DoEnqueueDirect(m) => EnqueueDirect(s, m, st.now, hash)
    case DoConsume(c, timeout) => AddConsumer(s, c, timeout, st.now, hash)
    case DoReceive(c) => Receive(s, c)
    case DoLeave(c) => RemoveConsumer(s, c)
    case DoAck(id, hookOk) => Ack(s, id, hookOk, st.now, hash).0
    case DoNack(id, requeue, hookOk) => Nack(s, id, requeue, hookOk, st.now, hash).0
    case DoExpire(order) => RequeueExpired(s, order, st.now, hash)
    case DoExtend(id, extension) => ExtendVisibility(s, id, extension, st.now)
    case DoRemove(id) => Remove(s, id).0
    case DoPurge => Purge(s)
    case DoConfigure(c) => Configure(s, c)
  }

  function Ids(ms: seq<Message>): set<Bytes> {
    set i | 0 <= i < |ms| :: ms[i].id
  }

  predicate Holds(s: Queue, id: Bytes) {
    id in s.inFlight || id in Ids(s.pending)
  }

  /** What the environment owes the queue: an enqueued id is not one the queue still
      holds, a new consumer is not one already connected, an expiry pass visits exactly the expired. */
  ghost predicate Legal(s: Queue, st: Step) {
    match st.op
    case DoEnqueue(m) => !Holds(s, m.id)
    case DoEnqueueDirect(m) => !Holds(s, m.id)
    case DoConsume(c, _) => c !in ConsumerIds(s.consumers)
    case DoExpire(order) => ExpiryOrder(s, st.now, order)
    case _ => true
  }

  function Exec(s: Queue, steps: seq<Step>, hash: Hash): Queue {
    if steps == [] then s
    else Apply(Exec(s, steps[..|steps| - 1], hash), steps[|steps| - 1], hash)
  }

  ghost predicate LegalRun(s: Queue, steps: seq<Step>, hash: Hash) {
    steps != [] ==>
      && LegalRun(s, steps[..|steps| - 1], hash)
      && Legal(Exec(s, steps[..|steps| - 1], hash), steps[|steps| - 1])
  }
}
