/**
 The queue as the object it is: fields changed in place, delivery as loops. `State()` is
 the object's value; each method takes it from one model state to the next.
 */
module QueueObject {
  import opened Types
  import M = QueueModel
  import R = QueueRuns

  class Queue {
    const name: Bytes
    const hash: M.Hash
    var messages: seq<Message>
    var inFlight: map<Bytes, Message>
    var consumers: seq<M.Consumer>
    var nextIdx: nat
    var maxSize: int
    var failurePolicy: FailurePolicy
    var maxRetries: nat
    var keyAssignments: map<Bytes, nat>
    ghost var log: seq<M.Event>

    ghost function State(): M.Queue
      reads this
    {
      M.Queue(name, messages, inFlight, consumers, nextIdx, maxSize, failurePolicy, maxRetries, keyAssignments, log)
    }

    constructor (name: Bytes, hash: M.Hash)
      ensures State() == M.NewQueue(name) && this.hash == hash && this.name == name
    {
      this.name := name;
      this.hash := hash;
      messages, inFlight, consumers := [], map[], [];
      nextIdx, maxSize := 0, M.DEFAULT_MAX_SIZE;
      failurePolicy, maxRetries := DeadLetter, M.DEFAULT_MAX_RETRIES;
      keyAssignments := map[];
      log := [];
    }

    method SetMaxSize(max: int)
      modifies this
      ensures State() == M.Configure(old(State()), M.SettingsOf(old(State())).(maxSize := max))
    {
      maxSize := max;
    }

    method SetFailurePolicy(policy: FailurePolicy)
      modifies this
      ensures State() == M.Configure(old(State()), M.SettingsOf(old(State())).(policy := policy))
    {
      failurePolicy := policy;
    }

    method SetMaxRetries(max: nat)
      modifies this
      ensures State() == M.Configure(old(State()), M.SettingsOf(old(State())).(maxRetries := max))
    {
      maxRetries := max;
    }

    method FindConsumer(id: nat) returns (r: Option<nat>)
      ensures r == M.ConsumerAt(consumers, id)
    {
      var i := 0;
      while i < |consumers|
        invariant i <= |consumers|
        invariant forall k :: 0 <= k < i ==> consumers[k].id != id
      {
        if consumers[i].id == id { return Some(i); }
        i := i + 1;
      }
      return None;
    }

    /** Puts the head into consumer `i`'s channel and records the lease. */
    method Send(i: nat, now: int)
      requires messages != [] && i < |consumers|
      modifies this
      ensures State() == M.Dispatch(old(State()), i, now)
    {
      var m, c := messages[0], consumers[i];
      consumers := consumers[i := c.(ch := Some(m.(attempt := m.attempt + 1)))];
      if m.orderingKey == [] { nextIdx := (i + 1) % |consumers|; }
      messages := messages[1..];
      inFlight := inFlight[m.id := m.(attempt := m.attempt + 1, visibleAt := now + c.timeout)];
      log := log + [M.Delivered(m.id, m.orderingKey, c.id, now, now + c.timeout)];
    }

    method DeliverOrdered(now: int) returns (delivered: bool)
      requires messages != [] && consumers != [] && messages[0].orderingKey != []
      modifies this
      ensures var a := M.AssignKey(old(State()), hash);
              var t := M.Target(a);
              && delivered == t.Some?
              && State() == if t.Some? then M.Dispatch(a, t.value, now) else a
    {
      var key := messages[0].orderingKey;
      if key !in keyAssignments {
        keyAssignments := keyAssignments[key := consumers[hash(key) % |consumers|].id];
      }
      assert State() == M.AssignKey(old(State()), hash);
      var i := FindConsumer(keyAssignments[key]);
      if i.Some? && consumers[i.value].ch.None? {
        Send(i.value, now);
        return true;
      }
      return false;
    }

    method DeliverRoundRobin(now: int) returns (delivered: bool)
      requires messages != [] && consumers != [] && messages[0].orderingKey == []
      modifies this
      ensures var s := old(State());
              var t := M.Target(s);
              && delivered == t.Some?
              && State() == if t.Some? then M.Dispatch(s, t.value, now) else s
    {
      var j := 0;
      while j < |consumers|
        invariant j <= |consumers| && State() == old(State())
        invariant M.FreeFrom(consumers, nextIdx, 0) == M.FreeFrom(consumers, nextIdx, j)
      {
        var idx := (nextIdx + j) % |consumers|;
        if consumers[idx].ch.None? {
          Send(idx, now);
          return true;
        }
        j := j + 1;
      }
      return false;
    }

    method TryDeliver(now: int)
      modifies this
      ensures State() == M.TryDeliver(old(State()), now, hash)
    {
      if consumers == [] { return; }
      while messages != []
        invariant consumers != []
        invariant M.TryDeliver(State(), now, hash) == M.TryDeliver(old(State()), now, hash)
        decreases |messages|
      {
        if messages[0].visibleAt > now { return; }
        var delivered;
        if messages[0].orderingKey != [] {
          delivered := DeliverOrdered(now);
        } else {
          delivered := DeliverRoundRobin(now);
        }
        if !delivered { return; }
      }
    }

    method Enqueue(msg: Message, now: int) returns (ok: bool)
      modifies this
      ensures (State(), ok) == M.Enqueue(old(State()), msg, now, hash)
    {
      if maxSize > 0 && |messages| >= maxSize { return false; }
      messages := messages + [msg];
      log := log + [M.Enqueued(msg)];
      TryDeliver(now);
      return true;
    }

    method EnqueueDirect(msg: Message, now: int)
      modifies this
      ensures State() == M.EnqueueDirect(old(State()), msg, now, hash)
    {
      messages := messages + [msg];
      log := log + [M.Enqueued(msg)];
      TryDeliver(now);
    }

    method Dequeue(id: nat, timeout: int, now: int)
      modifies this
      ensures State() == M.AddConsumer(old(State()), id, timeout, now, hash)
    {
      consumers := consumers + [M.Consumer(id, timeout, None)];
      log := log + [M.Joined(id, timeout)];
      TryDeliver(now);
    }

    /** What the consumer gets out of its channel, if anything. */
    method Receive(id: nat) returns (r: Option<Message>)
      modifies this
      ensures State() == M.Receive(old(State()), id)
      ensures r == if log == old(log) then None else Some(log[|log| - 1].msg)
    {
      r := None;
      var i := FindConsumer(id);
      if i.Some? && consumers[i.value].ch.Some? {
        r := consumers[i.value].ch;
        consumers := consumers[i.value := consumers[i.value].(ch := None)];
        log := log + [M.Received(id, r.value)];
        assert |log| > |old(log)|;
      }
    }

    method RemoveConsumer(id: nat)
      modifies this
      ensures State() == M.RemoveConsumer(old(State()), id)
    {
      var i := FindConsumer(id);
      if i.Some? {
        keyAssignments := map k | k in keyAssignments && keyAssignments[k] != id :: keyAssignments[k];
        consumers := consumers[..i.value] + consumers[i.value + 1..];
        log := log + [M.Left(id)];
      }
    }

    /** `hookOk` is what the hook run before the delete reported. */
    method AckWithHook(id: Bytes, hookOk: bool, now: int) returns (r: M.AckResult)
      modifies this
      ensures (State(), r) == M.Ack(old(State()), id, hookOk, now, hash)
    {
      if id !in inFlight { return M.AckNotFound; }
      if !hookOk { return M.AckHookFailed; }
      inFlight := inFlight - {id};
      log := log + [M.Ended(id, M.Acked)];
      TryDeliver(now);
      return M.AckDone;
    }

    method NackWithHooks(id: Bytes, requeue: bool, hookOk: bool, now: int) returns (r: M.NackResult)
      modifies this
      ensures (State(), r) == M.Nack(old(State()), id, requeue, hookOk, now, hash)
    {
      if id !in inFlight { return M.NackNotFound; }
      var msg := inFlight[id];
      if !requeue {
        if failurePolicy == DeadLetter {
          inFlight := inFlight - {id};
          log := log + [M.Ended(id, M.DeadLettered)];
          return M.NackToDLQ(msg);
        }
        if !hookOk { return M.NackHookFailed; }
        inFlight := inFlight - {id};
        log := log + [M.Ended(id, M.Dropped)];
        return M.NackDropped;
      }
      if failurePolicy != Infinite && msg.attempt >= maxRetries {
        if failurePolicy == DeadLetter {
          inFlight := inFlight - {id};
          log := log + [M.Ended(id, M.DeadLettered)];
          return M.NackToDLQ(msg);
        } else if failurePolicy == DropMessage {
          if !hookOk { return M.NackHookFailed; }
          inFlight := inFlight - {id};
          log := log + [M.Ended(id, M.Dropped)];
          return M.NackDropped;
        }
      }
      if !hookOk { return M.NackHookFailed; }
      inFlight := inFlight - {id};
      messages := messages + [msg.(visibleAt := now)];
      log := log + [M.Requeued(id, now)];
      TryDeliver(now);
      return M.NackRequeued;
    }

    method ExpireOne(id: Bytes, now: int)
      requires id in inFlight
      modifies this
      ensures State() == M.Requeue(old(State()), id, now, M.Expired(id, now))
    {
      var msg := inFlight[id];
      inFlight := inFlight - {id};
      messages := messages + [msg.(visibleAt := now)];
      log := log + [M.Expired(id, now)];
    }

    /** Visits the in-flight map in an arbitrary order, which it reports. */
    method RequeueExpired(now: int) returns (ghost order: seq<Bytes>)
      modifies this
      ensures M.ExpiryOrder(old(State()), now, order)
      ensures State() == M.RequeueExpired(old(State()), order, now, hash)
    {
      order := [];
      var todo := inFlight.Keys;
      while todo != {}
        invariant todo <= old(inFlight).Keys
        invariant State() == M.ExpireAll(old(State()), order, now)
        invariant forall id :: id in todo ==> id in inFlight && inFlight[id] == old(inFlight)[id]
        invariant forall id :: id in order <==> M.IsExpired(old(State()), id, now) && id !in todo
        invariant forall i, j :: 0 <= i < j < |order| ==> order[i] != order[j]
        decreases |todo|
      {
        var id :| id in todo;
        todo := todo - {id};
        if inFlight[id].visibleAt < now {
          ExpireOne(id, now);
          assert (order + [id])[..|order|] == order;
          order := order + [id];
        }
      }
      TryDeliver(now);
    }

    method ExtendVisibility(id: Bytes, extension: int, now: int) returns (r: Option<int>)
      modifies this
      ensures State() == M.ExtendVisibility(old(State()), id, extension, now)
      ensures r == if id in old(inFlight) then Some(now + extension) else None
    {
      if id !in inFlight { return None; }
      inFlight := inFlight[id := inFlight[id].(visibleAt := now + extension)];
      log := log + [M.Extended(id, now, extension)];
      return Some(now + extension);
    }

    method Remove(id: Bytes) returns (found: bool)
      modifies this
      ensures (State(), found) == M.Remove(old(State()), id)
    {
      var i := 0;
      while i < |messages|
        invariant i <= |messages| && State() == old(State())
        invariant forall k :: 0 <= k < i ==> messages[k].id != id
      {
        if messages[i].id == id {
          messages := messages[..i] + messages[i + 1..];
          log := log + [M.Ended(id, M.Removed)];
          return true;
        }
        i := i + 1;
      }
      if id in inFlight {
        inFlight := inFlight - {id};
        log := log + [M.Ended(id, M.Removed)];
        return true;
      }
      return false;
    }

    /** The head leaves for its original queue. */
    method PopRetried()
      requires messages != []
      modifies this
      ensures State() == R.Pull(old(State()), 0, M.Retried)
    {
      log := log + [M.Ended(messages[0].id, M.Retried)];
      assert messages[..0] + messages[1..] == messages[1..];
      messages := messages[1..];
    }

    method Purge() returns (count: nat)
      modifies this
      ensures State() == M.Purge(old(State()))
      ensures count == |old(messages)| + |old(inFlight)|
    {
      count := |messages| + |inFlight|;
      messages := [];
      inFlight := map[];
      log := log + [M.Purged];
    }
  }
}
