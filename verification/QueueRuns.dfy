/**
 What every run of the delivery engine keeps. The log is given a meaning of its own,
 without looking at the queue: which messages are alive and how they look (`Live`),
 which are under a lease (`Leased`), which wait for a delivery and in which order (`Line`),
 which consumer each ordering key last went to (`Owner`), who is
 connected (`Members`) and what they have been sent and not received (`Unread`).
 `Lawful` is the delivery contract stated on the log alone. `Agrees` ties the queue's
 fields to the meaning of its log.
 */
module QueueRuns {
  import opened Types
  import opened QueueModel

  // ---------- what a log means ----------

  ghost function Live(log: seq<Event>): map<Bytes, Message> {
    if log == [] then map[]
    else
      var p := Live(log[..|log| - 1]);
      match log[|log| - 1]
      case Enqueued(m) => p[m.id := m]
      case Delivered(id, _, _, _, deadline) =>
        if id in p then p[id := p[id].(attempt := p[id].attempt + 1, visibleAt := deadline)] else p
      case Requeued(id, at) => if id in p then p[id := p[id].(visibleAt := at)] else p
      case Expired(id, at) => if id in p then p[id := p[id].(visibleAt := at)] else p
      case Extended(id, at, extension) => if id in p then p[id := p[id].(visibleAt := at + extension)] else p
      case Ended(id, _) => p - {id}
      case Purged => map[]
      case _ => p
  }

  ghost function Leased(log: seq<Event>): set<Bytes> {
    if log == [] then {}
    else
      var p := Leased(log[..|log| - 1]);
      match log[|log| - 1]
      case Delivered(id, _, _, _, _) => p + {id}
      case Requeued(id, _) => p - {id}
      case Expired(id, _) => p - {id}
      case Ended(id, _) => p - {id}
      case Purged => {}
      case _ => p
  }

  /** `ids` without `id`. */
  ghost function Without(ids: seq<Bytes>, id: Bytes): seq<Bytes> {
    if ids == [] then []
    else if ids[|ids| - 1] == id then Without(ids[..|ids| - 1], id)
    else Without(ids[..|ids| - 1], id) + [ids[|ids| - 1]]
  }

  /** The messages waiting for a delivery, in the order they began to wait: a message joins at
      the back when it is enqueued and when its lease ends. */
  ghost function Line(log: seq<Event>): seq<Bytes> {
    if log == [] then []
    else
      var p := Line(log[..|log| - 1]);
      match log[|log| - 1]
      case Enqueued(m) => p + [m.id]
      case Delivered(id, _, _, _, _) => Without(p, id)
      case Requeued(id, _) => p + [id]
      case Expired(id, _) => p + [id]
      case Ended(id, _) => Without(p, id)
      case Purged => []
      case _ => p
  }

  /** The consumer each ordering key was last delivered to, while it stays connected. */
  ghost function Owner(log: seq<Event>): map<Bytes, nat> {
    if log == [] then map[]
    else
      var p := Owner(log[..|log| - 1]);
      match log[|log| - 1]
      case Delivered(_, key, c, _, _) => if key == [] then p else p[key := c]
      case Left(c) => map k | k in p && p[k] != c :: p[k]
      case _ => p
  }

  /** The consumers connected, each with its visibility timeout. */
  ghost function Members(log: seq<Event>): map<nat, int> {
    if log == [] then map[]
    else
      var p := Members(log[..|log| - 1]);
      match log[|log| - 1]
      case Joined(c, timeout) => p[c := timeout]
      case Left(c) => p - {c}
      case _ => p
  }

  /** What each consumer has been sent and has not received yet: the message as it was then, with
      the next attempt number. */
  ghost function Unread(log: seq<Event>): map<nat, Message> {
    if log == [] then map[]
    else
      var q := log[..|log| - 1];
      var p := Unread(q);
      match log[|log| - 1]
      case Delivered(id, _, c, _, _) =>
        if id in Live(q) then p[c := Live(q)[id].(attempt := Live(q)[id].attempt + 1)] else p
      case Received(c, _) => p - {c}
      case Left(c) => p - {c}
      case _ => p
  }

  // ---------- the contract, on the log alone ----------

  ghost predicate LawfulEvent(p: seq<Event>, e: Event) {
    match e
    case Enqueued(m) => m.id !in Live(p)
    case Delivered(id, key, c, at, deadline) =>
      && c in Members(p) && c !in Unread(p) && deadline == at + Members(p)[c]
      && id in Live(p) && id !in Leased(p)
      && key == Live(p)[id].orderingKey
      && Live(p)[id].visibleAt <= at
      && Line(p) != [] && Line(p)[0] == id
      && (key in Owner(p) ==> Owner(p)[key] == c)
    case Requeued(id, _) => id in Live(p) && id in Leased(p)
    case Expired(id, at) => id in Live(p) && id in Leased(p) && Live(p)[id].visibleAt < at
    case Extended(id, _, _) => id in Live(p) && id in Leased(p)
    case Ended(id, how) => id in Live(p) && (how in {Acked, Dropped, DeadLettered} ==> id in Leased(p))
    case Purged => true
    case Joined(c, _) => c !in Members(p)
    case Received(c, m) => c in Unread(p) && Unread(p)[c] == m
    case Left(c) => c in Members(p)
  }

  ghost predicate Lawful(log: seq<Event>) {
    log == [] || (Lawful(log[..|log| - 1]) && LawfulEvent(log[..|log| - 1], log[|log| - 1]))
  }

  // ---------- the queue agrees with its log ----------

  /** Pending ids are distinct, none is in-flight, in-flight keys are their messages' ids. */
  ghost predicate Distinct(pending: seq<Message>, inFlight: map<Bytes, Message>) {
    && (forall i, j :: 0 <= i < j < |pending| ==> pending[i].id != pending[j].id)
    && (forall i :: 0 <= i < |pending| ==> pending[i].id !in inFlight)
    && (forall id :: id in inFlight ==> inFlight[id].id == id)
  }

  /** Pending and in-flight together are exactly `live`, message for message. */
  ghost predicate Balanced(pending: seq<Message>, inFlight: map<Bytes, Message>, live: map<Bytes, Message>) {
    && Distinct(pending, inFlight)
    && live.Keys == Ids(pending) + inFlight.Keys
    && (forall i :: 0 <= i < |pending| ==> pending[i].id in live && live[pending[i].id] == pending[i])
    && (forall id :: id in inFlight ==> id in live && live[id] == inFlight[id])
  }

  /** Consumers are distinct and every ordering key's owner is connected. */
  ghost predicate Connected(s: Queue) {
    && Apart(s.consumers)
    && (forall k :: k in s.keys ==> s.keys[k] in ConsumerIds(s.consumers))
  }

  ghost function IdList(ms: seq<Message>): seq<Bytes> {
    seq(|ms|, i requires 0 <= i < |ms| => ms[i].id)
  }

  /** The queue holds the line, in its order. */
  ghost predicate InOrder(s: Queue) {
    IdList(s.pending) == Line(s.log)
  }

  ghost predicate Sticky(s: Queue) {
    forall k :: k in Owner(s.log) ==> k in s.keys && s.keys[k] == Owner(s.log)[k]
  }

  /** Nothing lost, nothing duplicated, nothing altered: the queue holds exactly the live
      messages, and those in-flight are the leased ones. */
  ghost predicate Books(s: Queue) {
    Balanced(s.pending, s.inFlight, Live(s.log)) && s.inFlight.Keys == Leased(s.log)
  }

  ghost predicate Routes(s: Queue) {
    Connected(s) && Sticky(s)
  }

  /** The consumers are the members, with their timeouts, and their channels hold exactly what
      they have not received yet. */
  ghost predicate Staff(cs: seq<Consumer>, members: map<nat, int>, unread: map<nat, Message>) {
    && members.Keys == ConsumerIds(cs) && unread.Keys <= members.Keys
    && (forall i :: 0 <= i < |cs| ==> cs[i].id in members && cs[i].timeout == members[cs[i].id])
    && (forall i :: 0 <= i < |cs| ==> cs[i].ch == if cs[i].id in unread then Some(unread[cs[i].id]) else None)
  }

  ghost predicate Staffed(s: Queue) {
    Staff(s.consumers, Members(s.log), Unread(s.log))
  }

  ghost predicate Agrees(s: Queue) {
    Books(s) && InOrder(s) && Routes(s) && Staffed(s) && Lawful(s.log)
  }

  // ---------- lists of waiting ids ----------

  lemma IdsPush(ms: seq<Message>, m: Message)
    ensures Ids(ms + [m]) == Ids(ms) + {m.id}
  {
    var t := ms + [m];
    assert t[|ms|].id == m.id;
    assert forall i :: 0 <= i < |ms| ==> t[i].id == ms[i].id;
  }

  lemma IdsDrop(ms: seq<Message>, i: nat)
    requires i < |ms|
    requires forall a, b :: 0 <= a < b < |ms| ==> ms[a].id != ms[b].id
    ensures Ids(ms[..i] + ms[i + 1..]) == Ids(ms) - {ms[i].id}
  {
    var t := ms[..i] + ms[i + 1..];
    forall id | id in Ids(ms) - {ms[i].id} ensures id in Ids(t) {
      var k :| 0 <= k < |ms| && ms[k].id == id;
      assert t[if k < i then k else k - 1].id == id;
    }
    forall id | id in Ids(t) ensures id in Ids(ms) - {ms[i].id} {
      var k :| 0 <= k < |t| && t[k].id == id;
      assert ms[if k < i then k else k + 1].id == id;
    }
  }

  lemma IdsTail(ms: seq<Message>)
    requires ms != [] && forall a, b :: 0 <= a < b < |ms| ==> ms[a].id != ms[b].id
    ensures Ids(ms[1..]) == Ids(ms) - {ms[0].id}
  {
    hide Ids;
    IdsDrop(ms, 0);
    assert ms[..0] + ms[1..] == ms[1..];
  }

  lemma {:induction false} WithoutIn(ids: seq<Bytes>, id: Bytes)
    ensures forall x :: x in Without(ids, id) <==> x in ids && x != id
    ensures id !in ids ==> Without(ids, id) == ids
  {
    if ids != [] {
      WithoutIn(ids[..|ids| - 1], id);
      assert ids == ids[..|ids| - 1] + [ids[|ids| - 1]];
    }
  }

  lemma {:induction false} IdListDrop(ms: seq<Message>, i: nat)
    requires i < |ms|
    requires forall a, b :: 0 <= a < b < |ms| ==> ms[a].id != ms[b].id
    ensures IdList(ms[..i] + ms[i + 1..]) == Without(IdList(ms), ms[i].id)
  {
    var p, last := ms[..|ms| - 1], ms[|ms| - 1];
    assert IdList(ms) == IdList(p) + [last.id];
    if i == |ms| - 1 {
      assert ms[..i] + ms[i + 1..] == p;
      WithoutIn(IdList(p), last.id);
    } else {
      IdListDrop(p, i);
      assert ms[..i] + ms[i + 1..] == (p[..i] + p[i + 1..]) + [last];
    }
  }

  lemma IdListTail(ms: seq<Message>)
    requires ms != []
    requires forall a, b :: 0 <= a < b < |ms| ==> ms[a].id != ms[b].id
    ensures IdList(ms[1..]) == Without(IdList(ms), ms[0].id)
  {
    hide Without;
    IdListDrop(ms, 0);
    assert ms[..0] + ms[1..] == ms[1..];
  }

  // ---------- moving one message keeps the books balanced ----------

  lemma BalancePush(pending: seq<Message>, inFlight: map<Bytes, Message>, live: map<Bytes, Message>, m: Message)
    requires Balanced(pending, inFlight, live) && m.id !in live
    ensures Balanced(pending + [m], inFlight, live[m.id := m])
  {
    IdsPush(pending, m);
  }

  lemma BalanceDrop(pending: seq<Message>, inFlight: map<Bytes, Message>, live: map<Bytes, Message>, i: nat)
    requires Balanced(pending, inFlight, live) && i < |pending|
    ensures Balanced(pending[..i] + pending[i + 1..], inFlight, live - {pending[i].id})
  {
    IdsDrop(pending, i);
  }

  lemma BalanceSettle(pending: seq<Message>, inFlight: map<Bytes, Message>, live: map<Bytes, Message>, id: Bytes)
    requires Balanced(pending, inFlight, live) && id in inFlight
    ensures Balanced(pending, inFlight - {id}, live - {id})
  {
  }

  lemma BalanceLease(pending: seq<Message>, inFlight: map<Bytes, Message>, live: map<Bytes, Message>, m: Message)
    requires Balanced(pending, inFlight, live) && m.id !in Ids(pending)
    ensures Balanced(pending, inFlight[m.id := m], live[m.id := m])
  {
  }

  lemma BalanceDispatch(pending: seq<Message>, inFlight: map<Bytes, Message>, live: map<Bytes, Message>, m: Message)
    requires Balanced(pending, inFlight, live) && pending != [] && m.id == pending[0].id
    ensures Balanced(pending[1..], inFlight[m.id := m], live[m.id := m])
  {
    hide Ids;
    var rest := pending[1..];
    BalanceTail(pending, inFlight, live, m.id);
    BalanceLease(rest, inFlight, live - {m.id}, m);
    Overwrites(live, m);
  }

  lemma BalanceTail(pending: seq<Message>, inFlight: map<Bytes, Message>, live: map<Bytes, Message>, id: Bytes)
    requires Balanced(pending, inFlight, live) && pending != [] && id == pending[0].id
    ensures Balanced(pending[1..], inFlight, live - {id}) && id !in Ids(pending[1..])
  {
    hide Ids;
    IdsTail(pending);
  }

  lemma Overwrites(live: map<Bytes, Message>, m: Message)
    ensures (live - {m.id})[m.id := m] == live[m.id := m]
  {
  }

  // ---------- who is connected and what is in the channels ----------

  /** Consumers are told apart by their ids. */
  ghost predicate Apart(cs: seq<Consumer>) {
    forall i, j :: 0 <= i < j < |cs| ==> cs[i].id != cs[j].id
  }

  lemma StaffChannel(cs: seq<Consumer>, members: map<nat, int>, unread: map<nat, Message>, i: nat, x: Option<Message>)
    requires Apart(cs) && Staff(cs, members, unread) && i < |cs|
    ensures Staff(cs[i := cs[i].(ch := x)], members,
                  if x.Some? then unread[cs[i].id := x.value] else unread - {cs[i].id})
  {
    SameConsumers(cs, i, cs[i].(ch := x));
  }

  lemma StaffAt(cs: seq<Consumer>, members: map<nat, int>, unread: map<nat, Message>, i: nat)
    requires Staff(cs, members, unread) && i < |cs|
    ensures cs[i].id in members && members[cs[i].id] == cs[i].timeout
    ensures cs[i].ch == if cs[i].id in unread then Some(unread[cs[i].id]) else None
  {
  }

  lemma StaffJoin(cs: seq<Consumer>, members: map<nat, int>, unread: map<nat, Message>, c: nat, timeout: int)
    requires Staff(cs, members, unread) && c !in members
    ensures Staff(cs + [Consumer(c, timeout, None)], members[c := timeout], unread)
  {
    ConsumersJoin(cs, Consumer(c, timeout, None));
  }

  lemma ConsumersJoin(cs: seq<Consumer>, c: Consumer)
    ensures ConsumerIds(cs + [c]) == ConsumerIds(cs) + {c.id}
  {
    var ds := cs + [c];
    forall id | id in ConsumerIds(cs) + {c.id} ensures id in ConsumerIds(ds) {
      if id == c.id { assert ds[|cs|].id == id; }
      else { var i :| 0 <= i < |cs| && cs[i].id == id; assert ds[i].id == id; }
    }
  }

  lemma StaffLeave(cs: seq<Consumer>, members: map<nat, int>, unread: map<nat, Message>, at: nat)
    requires Apart(cs) && Staff(cs, members, unread) && at < |cs|
    ensures Staff(cs[..at] + cs[at + 1..], members - {cs[at].id}, unread - {cs[at].id})
  {
    ConsumersDrop(cs, at);
    var ds := cs[..at] + cs[at + 1..];
    forall i | 0 <= i < |ds| ensures ds[i] == cs[if i < at then i else i + 1] {}
  }

  // ---------- each step keeps agreement ----------

  lemma Grow(log: seq<Event>, e: Event)
    ensures var l := log + [e]; l[..|l| - 1] == log && l[|l| - 1] == e && l != []
  {
  }

  lemma PushBooks(s: Queue, m: Message)
    requires Books(s) && !Holds(s, m.id)
    ensures Books(Push(s, m))
  {
    Grow(s.log, Enqueued(m));
    BalancePush(s.pending, s.inFlight, Live(s.log), m);
  }

  lemma PushOrder(s: Queue, m: Message)
    requires InOrder(s)
    ensures InOrder(Push(s, m))
  {
    Grow(s.log, Enqueued(m));
  }

  lemma PushAgrees(s: Queue, m: Message)
    requires Agrees(s) && !Holds(s, m.id)
    ensures Agrees(Push(s, m))
  {
    Grow(s.log, Enqueued(m));
    PushBooks(s, m);
    PushOrder(s, m);
  }

  lemma DispatchBooks(s: Queue, i: nat, now: int)
    requires Books(s) && s.pending != [] && i < |s.consumers|
    ensures Books(Dispatch(s, i, now))
  {
    var t := Dispatch(s, i, now);
    Grow(s.log, t.log[|s.log|]);
    BalanceDispatch(s.pending, s.inFlight, Live(s.log), t.inFlight[s.pending[0].id]);
  }

  lemma DispatchOrder(s: Queue, i: nat, now: int)
    requires Books(s) && InOrder(s) && s.pending != [] && i < |s.consumers|
    ensures InOrder(Dispatch(s, i, now))
    ensures Line(s.log) != [] && Line(s.log)[0] == s.pending[0].id
  {
    hide Live, Leased, Without;
    Grow(s.log, Dispatch(s, i, now).log[|s.log|]);
    IdListTail(s.pending);
  }

  /** A consumer keeps its identity when its channel fills or empties. */
  lemma SameConsumers(cs: seq<Consumer>, i: nat, c: Consumer)
    requires i < |cs| && c.id == cs[i].id
    ensures ConsumerIds(cs[i := c]) == ConsumerIds(cs)
  {
    var ds := cs[i := c];
    assert forall k :: 0 <= k < |cs| ==> ds[k].id == cs[k].id;
  }

  lemma DispatchConnected(s: Queue, i: nat, now: int)
    requires Connected(s) && s.pending != [] && i < |s.consumers|
    ensures Connected(Dispatch(s, i, now))
  {
    SameConsumers(s.consumers, i, Dispatch(s, i, now).consumers[i]);
  }

  lemma AssignKeyConnected(s: Queue, hash: Hash)
    requires Connected(s) && s.consumers != [] && s.pending != []
    ensures Connected(AssignKey(s, hash))
  {
  }

  /** The head goes only to its key's owner, and that is the consumer the key had before. */
  lemma DispatchRoutes(s: Queue, now: int)
    requires Routes(s) && s.pending != [] && Target(s).Some?
    ensures Routes(Dispatch(s, Target(s).value, now))
    ensures var key := s.pending[0].orderingKey;
            key in Owner(s.log) ==> Owner(s.log)[key] == s.consumers[Target(s).value].id
  {
    Grow(s.log, Dispatch(s, Target(s).value, now).log[|s.log|]);
    OwnerNonEmpty(s.log);
    DispatchConnected(s, Target(s).value, now);
  }

  lemma {:induction false} OwnerNonEmpty(log: seq<Event>)
    ensures [] !in Owner(log)
  {
    if log != [] { OwnerNonEmpty(log[..|log| - 1]); }
  }

  lemma HeadLive(s: Queue)
    requires Books(s) && s.pending != []
    ensures var m := s.pending[0]; m.id in Live(s.log) && Live(s.log)[m.id] == m && m.id !in Leased(s.log)
  {
  }

  /** The consumer's channel gets the head as it stands, and nothing else. */
  lemma DispatchStaffed(s: Queue, i: nat, now: int)
    requires Books(s) && Connected(s) && Staffed(s) && s.pending != [] && i < |s.consumers| && s.consumers[i].ch.None?
    ensures Staffed(Dispatch(s, i, now))
    ensures s.consumers[i].id in Members(s.log) && s.consumers[i].id !in Unread(s.log)
    ensures s.consumers[i].timeout == Members(s.log)[s.consumers[i].id]
  {
    hide Live, Staff, Balanced;
    var m := s.pending[0];
    HeadLive(s);
    StaffAt(s.consumers, Members(s.log), Unread(s.log), i);
    Grow(s.log, Dispatch(s, i, now).log[|s.log|]);
    StaffChannel(s.consumers, Members(s.log), Unread(s.log), i, Some(m.(attempt := m.attempt + 1)));
  }

  lemma DispatchAgrees(s: Queue, now: int)
    requires Agrees(s) && s.pending != [] && s.pending[0].visibleAt <= now && Target(s).Some?
    ensures Agrees(Dispatch(s, Target(s).value, now))
  {
    hide InOrder, Sticky, Staff, Balanced;
    var t := Dispatch(s, Target(s).value, now);
    Grow(s.log, t.log[|s.log|]);
    HeadLive(s);
    DispatchStaffed(s, Target(s).value, now);
    DispatchBooks(s, Target(s).value, now);
    DispatchOrder(s, Target(s).value, now);
    DispatchRoutes(s, now);
  }

  lemma AssignKeyAgrees(s: Queue, hash: Hash)
    requires Agrees(s) && s.consumers != [] && s.pending != []
    ensures Agrees(AssignKey(s, hash))
  {
    AssignKeyConnected(s, hash);
  }

  lemma {:induction false} TryDeliverAgrees(s: Queue, now: int, hash: Hash)
    requires Agrees(s)
    ensures Agrees(TryDeliver(s, now, hash))
    decreases |s.pending|
  {
    hide Agrees;
    if s.consumers == [] || s.pending == [] || s.pending[0].visibleAt > now {
    } else {
      var a := AssignKey(s, hash);
      AssignKeyAgrees(s, hash);
      if Target(a).Some? {
        DispatchAgrees(a, now);
        TryDeliverAgrees(Dispatch(a, Target(a).value, now), now, hash);
      }
    }
  }

  lemma RequeueBooks(s: Queue, id: Bytes, at: int, e: Event)
    requires Books(s) && id in s.inFlight && (e == Requeued(id, at) || e == Expired(id, at))
    ensures Books(Requeue(s, id, at, e))
  {
    var t := Requeue(s, id, at, e);
    var m, live := s.inFlight[id].(visibleAt := at), Live(s.log);
    Grow(s.log, e);
    BalanceSettle(s.pending, s.inFlight, live, id);
    BalancePush(s.pending, t.inFlight, live - {id}, m);
    assert (live - {id})[m.id := m] == Live(t.log);
  }

  lemma RequeueOrder(s: Queue, id: Bytes, at: int, e: Event)
    requires Books(s) && InOrder(s) && id in s.inFlight && (e == Requeued(id, at) || e == Expired(id, at))
    ensures InOrder(Requeue(s, id, at, e))
  {
    Grow(s.log, e);
  }

  lemma RequeueAgrees(s: Queue, id: Bytes, at: int, e: Event)
    requires Agrees(s) && id in s.inFlight
    requires e == Requeued(id, at) || (e == Expired(id, at) && s.inFlight[id].visibleAt < at)
    ensures Agrees(Requeue(s, id, at, e))
  {
    Grow(s.log, e);
    RequeueBooks(s, id, at, e);
    RequeueOrder(s, id, at, e);
  }

  lemma SettleAgrees(s: Queue, id: Bytes, how: Ending)
    requires Agrees(s) && id in s.inFlight
    ensures Agrees(Settle(s, id, how))
  {
    var t := Settle(s, id, how);
    Grow(s.log, Ended(id, how));
    assert InOrder(t) by { WithoutIn(Line(s.log), id); }
    BalanceSettle(s.pending, s.inFlight, Live(s.log), id);
  }

  lemma {:induction false} ExpireInFlight(s: Queue, order: seq<Bytes>, now: int)
    requires forall i :: 0 <= i < |order| ==> order[i] in s.inFlight
    requires forall i, j :: 0 <= i < j < |order| ==> order[i] != order[j]
    ensures ExpireAll(s, order, now).inFlight == s.inFlight - (set i | 0 <= i < |order| :: order[i])
  {
    if order != [] {
      var p := order[..|order| - 1];
      ExpireInFlight(s, p, now);
      assert (set i | 0 <= i < |order| :: order[i]) == (set i | 0 <= i < |p| :: p[i]) + {order[|order| - 1]};
    }
  }

  lemma {:induction false} ExpireAgrees(s: Queue, order: seq<Bytes>, now: int)
    requires Agrees(s)
    requires forall i :: 0 <= i < |order| ==> IsExpired(s, order[i], now)
    requires forall i, j :: 0 <= i < j < |order| ==> order[i] != order[j]
    ensures Agrees(ExpireAll(s, order, now))
  {
    if order != [] {
      var p, id := order[..|order| - 1], order[|order| - 1];
      ExpireAgrees(s, p, now);
      ExpireInFlight(s, p, now);
      assert IsExpired(s, id, now);
      RequeueAgrees(ExpireAll(s, p, now), id, now, Expired(id, now));
    }
  }

  lemma ExtendBooks(s: Queue, id: Bytes, extension: int, now: int)
    requires Books(s) && id in s.inFlight
    ensures Books(ExtendVisibility(s, id, extension, now))
  {
    Grow(s.log, Extended(id, now, extension));
    BalanceLease(s.pending, s.inFlight, Live(s.log), ExtendVisibility(s, id, extension, now).inFlight[id]);
  }

  lemma ExtendAgrees(s: Queue, id: Bytes, extension: int, now: int)
    requires Agrees(s)
    ensures Agrees(ExtendVisibility(s, id, extension, now))
  {
    if id in s.inFlight {
      Grow(s.log, Extended(id, now, extension));
      ExtendBooks(s, id, extension, now);
    }
  }

  /** A pending message taken out of the middle of the queue. */
  function Pull(s: Queue, i: nat, how: Ending): Queue
    requires i < |s.pending|
  {
    s.(pending := s.pending[..i] + s.pending[i + 1..], log := s.log + [Ended(s.pending[i].id, how)])
  }

  lemma PullBooks(s: Queue, i: nat, how: Ending)
    requires Books(s) && i < |s.pending|
    ensures Books(Pull(s, i, how))
  {
    Grow(s.log, Ended(s.pending[i].id, how));
    BalanceDrop(s.pending, s.inFlight, Live(s.log), i);
  }

  lemma PullOrder(s: Queue, i: nat, how: Ending)
    requires Books(s) && InOrder(s) && i < |s.pending|
    ensures InOrder(Pull(s, i, how))
  {
    Grow(s.log, Ended(s.pending[i].id, how));
    IdListDrop(s.pending, i);
  }

  lemma PullAgrees(s: Queue, i: nat, how: Ending)
    requires Agrees(s) && i < |s.pending| && how in {Retried, Removed}
    ensures Agrees(Pull(s, i, how))
  {
    Grow(s.log, Ended(s.pending[i].id, how));
    PullBooks(s, i, how);
    PullOrder(s, i, how);
    hide InOrder;
    assert s.pending[i].id in Live(s.log);
  }

  lemma RemoveAgrees(s: Queue, id: Bytes)
    requires Agrees(s)
    ensures Agrees(Remove(s, id).0)
  {
    hide Agrees;
    var i := PendingAt(s.pending, id);
    if i.Some? { PullAgrees(s, i.value, Removed); }
    else if id in s.inFlight { SettleAgrees(s, id, Removed); }
  }

  lemma PurgeAgrees(s: Queue)
    requires Agrees(s)
    ensures Agrees(Purge(s))
  {
    Grow(s.log, Purged);
  }

  lemma AddConsumerAgrees(s: Queue, id: nat, timeout: int, now: int, hash: Hash)
    requires Agrees(s) && id !in ConsumerIds(s.consumers)
    ensures Agrees(AddConsumer(s, id, timeout, now, hash))
  {
    hide Agrees;
    JoinAgrees(s, id, timeout);
    TryDeliverAgrees(Join(s, id, timeout), now, hash);
  }

  lemma JoinAgrees(s: Queue, id: nat, timeout: int)
    requires Agrees(s) && id !in ConsumerIds(s.consumers)
    ensures Agrees(Join(s, id, timeout))
  {
    hide Balanced, Staff;
    Grow(s.log, Joined(id, timeout));
    JoinRoutes(s, id, timeout);
    JoinStaffed(s, id, timeout);
  }

  lemma JoinStaffed(s: Queue, id: nat, timeout: int)
    requires Staffed(s) && id !in ConsumerIds(s.consumers)
    ensures Staffed(Join(s, id, timeout)) && id !in Members(s.log)
  {
    Grow(s.log, Joined(id, timeout));
    StaffJoin(s.consumers, Members(s.log), Unread(s.log), id, timeout);
  }

  lemma JoinRoutes(s: Queue, id: nat, timeout: int)
    requires Routes(s) && id !in ConsumerIds(s.consumers)
    ensures Routes(Join(s, id, timeout))
  {
    var t := Join(s, id, timeout);
    Grow(s.log, Joined(id, timeout));
    ConsumersJoin(s.consumers, Consumer(id, timeout, None));
    assert Apart(t.consumers) by { NewApart(s.consumers, Consumer(id, timeout, None)); }
  }

  lemma NewApart(cs: seq<Consumer>, c: Consumer)
    requires Apart(cs) && c.id !in ConsumerIds(cs)
    ensures Apart(cs + [c])
  {
    forall i | 0 <= i < |cs| ensures cs[i].id != c.id { assert cs[i].id in ConsumerIds(cs); }
  }

  lemma ReceiveRoutes(s: Queue, id: nat)
    requires Routes(s)
    ensures Routes(Receive(s, id))
  {
    var i := ConsumerAt(s.consumers, id);
    if i.Some? && s.consumers[i.value].ch.Some? {
      Grow(s.log, Received(id, s.consumers[i.value].ch.value));
      SameConsumers(s.consumers, i.value, s.consumers[i.value].(ch := None));
    }
  }

  lemma ReceiveStaffed(s: Queue, id: nat)
    requires Staffed(s) && Connected(s)
    ensures Staffed(Receive(s, id))
    ensures var i := ConsumerAt(s.consumers, id);
            i.Some? && s.consumers[i.value].ch.Some? ==>
              id in Unread(s.log) && Unread(s.log)[id] == s.consumers[i.value].ch.value
  {
    hide Staff, ConsumerAt;
    var i := ConsumerAt(s.consumers, id);
    if i.Some? && s.consumers[i.value].ch.Some? {
      Grow(s.log, Received(id, s.consumers[i.value].ch.value));
      StaffAt(s.consumers, Members(s.log), Unread(s.log), i.value);
      StaffChannel(s.consumers, Members(s.log), Unread(s.log), i.value, None);
    }
  }

  lemma ReceiveAgrees(s: Queue, id: nat)
    requires Agrees(s)
    ensures Agrees(Receive(s, id))
  {
    hide Balanced, Staff, Sticky, ConsumerAt;
    ReceiveRoutes(s, id);
    ReceiveStaffed(s, id);
    var i := ConsumerAt(s.consumers, id);
    if i.Some? && s.consumers[i.value].ch.Some? { Grow(s.log, Received(id, s.consumers[i.value].ch.value)); }
  }

  lemma ConsumersDrop(cs: seq<Consumer>, at: nat)
    requires at < |cs|
    ensures ConsumerIds(cs) - {cs[at].id} <= ConsumerIds(cs[..at] + cs[at + 1..])
    ensures Apart(cs) ==> ConsumerIds(cs[..at] + cs[at + 1..]) == ConsumerIds(cs) - {cs[at].id}
  {
    var ds := cs[..at] + cs[at + 1..];
    assert forall i :: 0 <= i < |ds| ==> ds[i] == cs[if i < at then i else i + 1];
    forall id | id in ConsumerIds(cs) - {cs[at].id} ensures id in ConsumerIds(cs[..at] + cs[at + 1..]) {
      var i :| 0 <= i < |cs| && cs[i].id == id;
      assert (cs[..at] + cs[at + 1..])[if i < at then i else i - 1].id == id;
    }
  }

  lemma RemoveConsumerRoutes(s: Queue, id: nat)
    requires Routes(s) && id in ConsumerIds(s.consumers)
    ensures Routes(RemoveConsumer(s, id))
  {
    var t := RemoveConsumer(s, id);
    assert Sticky(t) by { Grow(s.log, Left(id)); }
    ConsumersDrop(s.consumers, ConsumerAt(s.consumers, id).value);
  }

  lemma RemoveConsumerAgrees(s: Queue, id: nat)
    requires Agrees(s)
    ensures Agrees(RemoveConsumer(s, id))
  {
    hide Balanced, Staff, Sticky, ConsumerAt;
    if id in ConsumerIds(s.consumers) {
      Grow(s.log, Left(id));
      RemoveConsumerRoutes(s, id);
      RemoveConsumerStaffed(s, id);
    }
  }

  lemma RemoveConsumerStaffed(s: Queue, id: nat)
    requires Staffed(s) && Connected(s) && id in ConsumerIds(s.consumers)
    ensures Staffed(RemoveConsumer(s, id)) && id in Members(s.log)
  {
    Grow(s.log, Left(id));
    StaffLeave(s.consumers, Members(s.log), Unread(s.log), ConsumerAt(s.consumers, id).value);
  }

  /** A consumer that leaves is gone and owns no key; everyone else stays, with their keys. */
  lemma LeavesForGood(s: Queue, id: nat)
    requires Connected(s)
    ensures var t := RemoveConsumer(s, id);
            && ConsumerIds(t.consumers) == ConsumerIds(s.consumers) - {id}
            && (forall k :: k in t.keys <==> k in s.keys && s.keys[k] != id)
            && (forall k :: k in t.keys ==> t.keys[k] == s.keys[k])
  {
    if id in ConsumerIds(s.consumers) { ConsumersDrop(s.consumers, ConsumerAt(s.consumers, id).value); }
  }

  lemma EnqueueAgrees(s: Queue, m: Message, now: int, hash: Hash)
    requires Agrees(s) && !Holds(s, m.id)
    ensures Agrees(EnqueueDirect(s, m, now, hash)) && Agrees(Enqueue(s, m, now, hash).0)
  {
    hide Agrees;
    PushAgrees(s, m);
    TryDeliverAgrees(Push(s, m), now, hash);
  }

  lemma AckAgrees(s: Queue, id: Bytes, hookOk: bool, now: int, hash: Hash)
    requires Agrees(s)
    ensures Agrees(Ack(s, id, hookOk, now, hash).0)
  {
    hide Agrees;
    if id in s.inFlight {
      SettleAgrees(s, id, Acked);
      TryDeliverAgrees(Settle(s, id, Acked), now, hash);
    }
  }

  lemma RequeueExpiredAgrees(s: Queue, order: seq<Bytes>, now: int, hash: Hash)
    requires Agrees(s) && ExpiryOrder(s, now, order)
    ensures Agrees(RequeueExpired(s, order, now, hash))
  {
    hide Agrees;
    ExpireAgrees(s, order, now);
    TryDeliverAgrees(ExpireAll(s, order, now), now, hash);
  }

  lemma NackAgrees(s: Queue, id: Bytes, requeue: bool, hookOk: bool, now: int, hash: Hash)
    requires Agrees(s)
    ensures Agrees(Nack(s, id, requeue, hookOk, now, hash).0)
  {
    hide Agrees;
    if id in s.inFlight {
      match NackVerdict(s, s.inFlight[id], requeue)
      case ToDLQ => SettleAgrees(s, id, DeadLettered);
      case ToDrop => SettleAgrees(s, id, Dropped);
      case ToRequeue =>
        RequeueAgrees(s, id, now, Requeued(id, now));
        TryDeliverAgrees(Requeue(s, id, now, Requeued(id, now)), now, hash);
    }
  }

  /** Every operation of the queue keeps agreement. */
  lemma ApplyAgrees(s: Queue, st: Step, hash: Hash)
    requires Agrees(s) && Legal(s, st)
    ensures Agrees(Apply(s, st, hash))
  {
    hide Agrees;
    match st.op
    case DoEnqueue(m) => EnqueueAgrees(s, m, st.now, hash);
    case DoEnqueueDirect(m) => EnqueueAgrees(s, m, st.now, hash);
    case DoConsume(c, timeout) => AddConsumerAgrees(s, c, timeout, st.now, hash);
    case DoReceive(c) => ReceiveAgrees(s, c);
    case DoLeave(c) => RemoveConsumerAgrees(s, c);
    case DoAck(id, hookOk) => AckAgrees(s, id, hookOk, st.now, hash);
    case DoNack(id, requeue, hookOk) => NackAgrees(s, id, requeue, hookOk, st.now, hash);
    case DoExpire(order) => RequeueExpiredAgrees(s, order, st.now, hash);
    case DoExtend(id, extension) => ExtendAgrees(s, id, extension, st.now);
    case DoRemove(id) => RemoveAgrees(s, id);
    case DoPurge => PurgeAgrees(s);
    case DoConfigure(c) => ConfigureAgrees(s, c);
  }

  /** Agreement does not depend on the settings. */
  lemma ConfigureAgrees(s: Queue, c: Settings)
    requires Agrees(s)
    ensures Agrees(Configure(s, c))
  {
  }

  /** A new queue agrees, whatever its settings. */
  lemma NewAgrees(name: Bytes, c: Settings)
    ensures Agrees(Configure(NewQueue(name), c))
  {
  }

  /** The whole-run theorem: from any queue in agreement (a new one, or one recovered from
      disk, with any settings), any legal run of operations, changes of settings included. */
  lemma {:induction false} RunAgrees(s: Queue, steps: seq<Step>, hash: Hash)
    requires Agrees(s) && LegalRun(s, steps, hash)
    ensures Agrees(Exec(s, steps, hash))
  {
    hide Agrees;
    if steps != [] {
      RunAgrees(s, steps[..|steps| - 1], hash);
      ApplyAgrees(Exec(s, steps[..|steps| - 1], hash), steps[|steps| - 1], hash);
    }
  }
}
