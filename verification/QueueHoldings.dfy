/**
 What each queue operation does to the set of messages the queue holds: the view the
 durability protocol has of the delivery engine.
 */
module QueueHoldings {
  import opened Types
  import opened QueueModel
  import opened QueueRuns

  /** Pending and in-flight messages, by id. */
  function Held(s: Queue): map<Bytes, Message> {
    map id | id in Ids(s.pending) + s.inFlight.Keys ::
      if id in s.inFlight then s.inFlight[id]
      else
        var i := PendingAt(s.pending, id);
        if i.Some? then s.pending[i.value] else s.pending[0]
  }

  /** The same message at a later moment: only its attempt count and visibility moved. */
  predicate Later(m: Message, n: Message) {
    m.id == n.id && m.queue == n.queue && ContentOf(m) == ContentOf(n) && m.attempt <= n.attempt
  }

  ghost predicate Advanced(h: map<Bytes, Message>, k: map<Bytes, Message>) {
    h.Keys == k.Keys && forall id :: id in h ==> Later(h[id], k[id])
  }

  lemma HeldIsLive(s: Queue)
    requires Agrees(s)
    ensures Held(s) == Live(s.log)
  {
    forall id | id in Held(s) ensures Held(s)[id] == Live(s.log)[id] {
      if id !in s.inFlight {
        var k :| 0 <= k < |s.pending| && s.pending[k].id == id;
      }
    }
  }

  lemma DispatchLive(s: Queue, i: nat, now: int)
    requires s.pending != [] && i < |s.consumers|
    ensures Advanced(Live(s.log), Live(Dispatch(s, i, now).log))
  {
    Grow(s.log, Dispatch(s, i, now).log[|s.log|]);
  }

  lemma {:induction false} TryDeliverLive(s: Queue, now: int, hash: Hash)
    ensures var t := TryDeliver(s, now, hash);
            && Advanced(Live(s.log), Live(t.log))
            && t.name == s.name
    decreases |s.pending|
  {
    hide Live;
    if s.consumers == [] || s.pending == [] || s.pending[0].visibleAt > now {
    } else {
      var a := AssignKey(s, hash);
      if Target(a).Some? {
        DispatchLive(a, Target(a).value, now);
        TryDeliverLive(Dispatch(a, Target(a).value, now), now, hash);
      }
    }
  }

  lemma EnqueueHeld(s: Queue, m: Message, now: int, hash: Hash)
    requires Agrees(s) && !Holds(s, m.id)
    ensures var (t, ok) := Enqueue(s, m, now, hash);
            && Agrees(t) && t.name == s.name
            && (ok ==> Advanced(Held(s)[m.id := m], Held(t)))
            && (!ok ==> t == s)
  {
    hide Agrees, Held;
    var (t, ok) := Enqueue(s, m, now, hash);
    EnqueueAgrees(s, m, now, hash);
    HeldIsLive(s);
    if ok {
      HeldIsLive(t);
      Grow(s.log, Enqueued(m));
        TryDeliverLive(Push(s, m), now, hash);
    }
  }

  lemma AddConsumerHeld(s: Queue, c: nat, timeout: int, now: int, hash: Hash)
    requires Agrees(s) && c !in ConsumerIds(s.consumers)
    ensures var t := AddConsumer(s, c, timeout, now, hash);
            Agrees(t) && t.name == s.name && Advanced(Held(s), Held(t))
  {
    hide Agrees, Held;
    AddConsumerAgrees(s, c, timeout, now, hash);
    HeldIsLive(s);
    HeldIsLive(AddConsumer(s, c, timeout, now, hash));
    Grow(s.log, Joined(c, timeout));
    TryDeliverLive(Join(s, c, timeout), now, hash);
  }

  lemma AckHeld(s: Queue, id: Bytes, hookOk: bool, now: int, hash: Hash)
    requires Agrees(s)
    ensures var (t, r) := Ack(s, id, hookOk, now, hash);
            && Agrees(t) && t.name == s.name
            && (r == AckDone ==> Advanced(Held(s) - {id}, Held(t)))
            && (r != AckDone ==> t == s)
  {
    hide Agrees, Held;
    var (t, r) := Ack(s, id, hookOk, now, hash);
    AckAgrees(s, id, hookOk, now, hash);
    HeldIsLive(s);
    HeldIsLive(t);
    Grow(s.log, Ended(id, Acked));
    TryDeliverLive(Settle(s, id, Acked), now, hash);
  }

  lemma InFlightHeld(s: Queue, id: Bytes)
    requires id in s.inFlight
    ensures id in Held(s) && Held(s)[id] == s.inFlight[id]
  {
  }

  lemma SettleHeld(s: Queue, id: Bytes, how: Ending)
    requires Agrees(s) && id in s.inFlight
    ensures Agrees(Settle(s, id, how)) && Held(Settle(s, id, how)) == Held(s) - {id}
  {
    hide Agrees, Held;
    SettleAgrees(s, id, how);
    HeldIsLive(s);
    HeldIsLive(Settle(s, id, how));
    Grow(s.log, Ended(id, how));
  }

  lemma RequeueHeld(s: Queue, id: Bytes, now: int, hash: Hash)
    requires Agrees(s) && id in s.inFlight
    ensures var t := TryDeliver(Requeue(s, id, now, Requeued(id, now)), now, hash);
            Agrees(t) && t.name == s.name && Advanced(Held(s), Held(t))
  {
    hide Agrees, Held;
    var r := Requeue(s, id, now, Requeued(id, now));
    RequeueAgrees(s, id, now, Requeued(id, now));
    TryDeliverAgrees(r, now, hash);
    HeldIsLive(s);
    HeldIsLive(TryDeliver(r, now, hash));
    Grow(s.log, Requeued(id, now));
    TryDeliverLive(r, now, hash);
  }

  lemma NackHeld(s: Queue, id: Bytes, requeue: bool, hookOk: bool, now: int, hash: Hash)
    requires Agrees(s)
    ensures var (t, r) := Nack(s, id, requeue, hookOk, now, hash);
            && Agrees(t) && t.name == s.name
            && (r.NackToDLQ? ==> id in Held(s) && r.msg == Held(s)[id] && Held(t) == Held(s) - {id})
            && (r.NackDropped? ==> Held(t) == Held(s) - {id})
            && (r.NackRequeued? ==> Advanced(Held(s), Held(t)))
            && (r.NackNotFound? || r.NackHookFailed? ==> t == s)
  {
    hide Agrees, Held, Advanced;
    if id in s.inFlight {
      InFlightHeld(s, id);
      match NackVerdict(s, s.inFlight[id], requeue)
      case ToDLQ => SettleHeld(s, id, DeadLettered);
      case ToDrop => SettleHeld(s, id, Dropped);
      case ToRequeue => RequeueHeld(s, id, now, hash);
    }
  }

  lemma {:induction false} ExpireLive(s: Queue, order: seq<Bytes>, now: int)
    ensures var t := ExpireAll(s, order, now); Advanced(Live(s.log), Live(t.log)) && t.name == s.name
  {
    if order != [] {
      ExpireLive(s, order[..|order| - 1], now);
      var p := ExpireAll(s, order[..|order| - 1], now);
      Grow(p.log, Expired(order[|order| - 1], now));
    }
  }

  lemma ExpireHeld(s: Queue, order: seq<Bytes>, now: int, hash: Hash)
    requires Agrees(s) && ExpiryOrder(s, now, order)
    ensures var t := RequeueExpired(s, order, now, hash);
            Agrees(t) && t.name == s.name && Advanced(Held(s), Held(t))
  {
    hide Agrees, Held;
    RequeueExpiredAgrees(s, order, now, hash);
    HeldIsLive(s);
    HeldIsLive(RequeueExpired(s, order, now, hash));
    ExpireLive(s, order, now);
    TryDeliverLive(ExpireAll(s, order, now), now, hash);
  }

  lemma ExtendHeld(s: Queue, id: Bytes, extension: int, now: int)
    requires Agrees(s)
    ensures var t := ExtendVisibility(s, id, extension, now);
            Agrees(t) && t.name == s.name && Advanced(Held(s), Held(t))
  {
    hide Agrees, Held;
    ExtendAgrees(s, id, extension, now);
    HeldIsLive(s);
    HeldIsLive(ExtendVisibility(s, id, extension, now));
    Grow(s.log, Extended(id, now, extension));
  }

  lemma PullHeld(s: Queue, i: nat, how: Ending)
    requires Agrees(s) && i < |s.pending| && how in {Retried, Removed}
    ensures var t := Pull(s, i, how);
            Agrees(t) && t.name == s.name && Held(t) == Held(s) - {s.pending[i].id}
  {
    hide Agrees, Held;
    PullAgrees(s, i, how);
    HeldIsLive(s);
    HeldIsLive(Pull(s, i, how));
    Grow(s.log, Ended(s.pending[i].id, how));
  }

  lemma PendingHeld(s: Queue, i: nat)
    requires Agrees(s) && i < |s.pending|
    ensures s.pending[i].id in Held(s) && Held(s)[s.pending[i].id] == s.pending[i]
  {
    hide Held;
    HeldIsLive(s);
  }
}
