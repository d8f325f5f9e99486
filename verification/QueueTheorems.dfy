/**
 What agreement between a queue and its log gives: conservation by count, lease
 exclusivity, first-in-first-out deliveries, sticky ordering keys, and when
 delivery stops.
 */
module QueueTheorems {
  import opened Types
  import opened QueueModel
  import opened QueueRuns
  import opened Arith

  // ---------- positions in a lawful log ----------

  lemma {:induction false} LawfulAt(log: seq<Event>, k: nat)
    requires Lawful(log) && k < |log|
    ensures Lawful(log[..k]) && LawfulEvent(log[..k], log[k])
  {
    var p := log[..|log| - 1];
    if k < |p| {
      LawfulAt(p, k);
      assert p[..k] == log[..k];
    }
  }

  lemma PrefixGrows(log: seq<Event>, k: nat)
    requires k < |log|
    ensures log[..k + 1][..k] == log[..k] && log[..k + 1][k] == log[k] && |log[..k + 1]| == k + 1
  {
  }

  // ---------- conservation ----------

  lemma {:induction false} IdsCount(ms: seq<Message>)
    requires forall i, j :: 0 <= i < j < |ms| ==> ms[i].id != ms[j].id
    ensures |Ids(ms)| == |ms|
  {
    if ms == [] {
    } else {
      var p := ms[..|ms| - 1];
      IdsCount(p);
      IdsPush(p, ms[|ms| - 1]);
      assert ms == p + [ms[|ms| - 1]];
    }
  }

  /** Pending plus in-flight is the number of messages enqueued and not yet ended: delivery,
      expiry in any order and consumer removal lose and duplicate nothing. */
  lemma HeldCount(s: Queue, steps: seq<Step>, hash: Hash)
    requires Agrees(s) && LegalRun(s, steps, hash)
    ensures var t := Exec(s, steps, hash);
            && Distinct(t.pending, t.inFlight)
            && Ids(t.pending) + t.inFlight.Keys == Live(t.log).Keys
            && |t.pending| + |t.inFlight| == |Live(t.log)|
  {
    hide Exec, LegalRun, InOrder, Routes, Lawful;
    var t := Exec(s, steps, hash);
    RunAgrees(s, steps, hash);
    IdsCount(t.pending);
    assert Ids(t.pending) !! t.inFlight.Keys;
    assert |Live(t.log).Keys| == |Ids(t.pending)| + |t.inFlight.Keys|;
  }

  // ---------- leases ----------

  /** The deadline last recorded for a message, by its delivery or by an extension. */
  ghost function LastDeadline(log: seq<Event>, id: Bytes): Option<int> {
    if log == [] then None
    else
      match log[|log| - 1]
      case Delivered(x, _, _, _, deadline) =>
        if x == id then Some(deadline) else LastDeadline(log[..|log| - 1], id)
      case Extended(x, at, extension) =>
        if x == id then Some(at + extension) else LastDeadline(log[..|log| - 1], id)
      case _ => LastDeadline(log[..|log| - 1], id)
  }

  lemma {:induction false} LeaseDeadline(log: seq<Event>, id: Bytes)
    requires Lawful(log) && id in Leased(log)
    ensures id in Live(log) && LastDeadline(log, id) == Some(Live(log)[id].visibleAt)
  {
    var p := log[..|log| - 1];
    if id in Leased(p) { LeaseDeadline(p, id); }
  }

  /** Event `m` ends a lease on `id`: a nack that requeues, an expiry past the deadline last
      recorded, or the end of the message itself. */
  ghost predicate EndsLease(log: seq<Event>, m: nat, id: Bytes)
    requires m < |log|
  {
    match log[m]
    case Requeued(x, _) => x == id
    case Expired(x, at) =>
      x == id && LastDeadline(log[..m], id).Some? && LastDeadline(log[..m], id).value < at
    case Ended(x, _) => x == id
    case Purged => true
    case _ => false
  }

  lemma {:induction false} LeaseLasts(log: seq<Event>, i: nat, k: nat, id: Bytes)
    requires Lawful(log) && i < k <= |log|
    requires log[i].Delivered? && log[i].id == id
    requires forall m :: i < m < k ==> !EndsLease(log, m, id)
    ensures id in Leased(log[..k])
  {
    PrefixGrows(log, k - 1);
    if k > i + 1 {
      LeaseLasts(log, i, k - 1, id);
      LawfulAt(log, k - 1);
      LeaseDeadline(log[..k - 1], id);
      assert !EndsLease(log, k - 1, id);
    }
  }

  /** Between two deliveries of one message its lease ended: at no moment do two leases overlap. */
  lemma LeaseExclusive(log: seq<Event>, i: nat, k: nat)
    requires Lawful(log) && i < k < |log|
    requires log[i].Delivered? && log[k].Delivered? && log[i].id == log[k].id
    ensures exists m :: i < m < k && EndsLease(log, m, log[i].id)
  {
    if forall m :: i < m < k ==> !EndsLease(log, m, log[i].id) {
      LeaseLasts(log, i, k, log[i].id);
      LawfulAt(log, k);
      assert false;
    }
  }

  // ---------- the order of deliveries ----------

  ghost predicate Before(w: seq<Bytes>, x: Bytes, y: Bytes) {
    exists p, q :: 0 <= p < q < |w| && w[p] == x && w[q] == y
  }

  lemma {:induction false} BeforeWithout(w: seq<Bytes>, x: Bytes, y: Bytes, id: Bytes)
    requires Before(w, x, y) && id != x && id != y
    ensures Before(Without(w, id), x, y)
  {
    var p, q :| 0 <= p < q < |w| && w[p] == x && w[q] == y;
    var f := w[..|w| - 1];
    if q < |w| - 1 {
      assert f[p] == x && f[q] == y;
      BeforeWithout(f, x, y, id);
      var a, b :| 0 <= a < b < |Without(f, id)| && Without(f, id)[a] == x && Without(f, id)[b] == y;
      assert Without(w, id)[a] == x && Without(w, id)[b] == y;
    } else {
      WithoutIn(f, id);
      assert f[p] == x;
      assert x in Without(f, id);
      var a :| 0 <= a < |Without(f, id)| && Without(f, id)[a] == x;
      assert Without(w, id)[a] == x && Without(w, id)[|Without(f, id)|] == y;
    }
  }

  /** The message begins to wait: enqueued, or its lease ends. */
  ghost predicate Queued(e: Event, id: Bytes) {
    (e.Enqueued? && e.msg.id == id) || (e.Requeued? && e.id == id) || (e.Expired? && e.id == id)
  }

  /** The message stops waiting: delivered, ended or purged. */
  ghost predicate Served(e: Event, id: Bytes) {
    (e.Delivered? && e.id == id) || (e.Ended? && e.id == id) || e.Purged?
  }

  lemma {:induction false} WithoutDistinct(w: seq<Bytes>, id: Bytes)
    requires forall i, j :: 0 <= i < j < |w| ==> w[i] != w[j]
    ensures forall i, j :: 0 <= i < j < |Without(w, id)| ==> Without(w, id)[i] != Without(w, id)[j]
  {
    if w != [] {
      var f := w[..|w| - 1];
      WithoutDistinct(f, id);
      WithoutIn(f, id);
      assert w[|w| - 1] !in f;
    }
  }

  lemma {:induction false} LineSound(log: seq<Event>)
    requires Lawful(log)
    ensures Leased(log) <= Live(log).Keys
    ensures forall x :: x in Line(log) ==> x in Live(log) && x !in Leased(log)
    ensures forall i, j :: 0 <= i < j < |Line(log)| ==> Line(log)[i] != Line(log)[j]
  {
    if log != [] {
      var p, e := log[..|log| - 1], log[|log| - 1];
      LineSound(p);
      if e.Delivered? || e.Ended? {
        WithoutIn(Line(p), e.id);
        WithoutDistinct(Line(p), e.id);
      }
    }
  }

  lemma {:induction false} StillWaiting(log: seq<Event>, i: nat, k: nat, x: Bytes)
    requires i < k <= |log| && Queued(log[i], x)
    requires forall m :: i < m < k ==> !Served(log[m], x)
    ensures x in Line(log[..k])
  {
    PrefixGrows(log, k - 1);
    if k > i + 1 {
      StillWaiting(log, i, k - 1, x);
      assert !Served(log[k - 1], x);
      if log[k - 1].Delivered? || log[k - 1].Ended? { WithoutIn(Line(log[..k - 1]), log[k - 1].id); }
    }
  }

  lemma BeforeMore(w: seq<Bytes>, x: Bytes, y: Bytes, id: Bytes)
    requires Before(w, x, y)
    ensures Before(w + [id], x, y)
  {
    var p, q :| 0 <= p < q < |w| && w[p] == x && w[q] == y;
    assert (w + [id])[p] == x && (w + [id])[q] == y;
  }

  lemma {:induction false} StillBefore(log: seq<Event>, i: nat, j: nat, k: nat, x: Bytes, y: Bytes)
    requires i < j < k <= |log| && Queued(log[i], x) && Queued(log[j], y)
    requires forall m :: i < m < k ==> !Served(log[m], x)
    requires forall m :: j < m < k ==> !Served(log[m], y)
    ensures Before(Line(log[..k]), x, y)
  {
    var w := Line(log[..k - 1]);
    PrefixGrows(log, k - 1);
    if k == j + 1 {
      StillWaiting(log, i, j, x);
      var p :| 0 <= p < |w| && w[p] == x;
      assert (w + [y])[p] == x && (w + [y])[|w|] == y;
    } else {
      StillBefore(log, i, j, k - 1, x, y);
      assert !Served(log[k - 1], x) && !Served(log[k - 1], y);
      match log[k - 1]
      case Enqueued(m) => BeforeMore(w, x, y, m.id);
      case Requeued(id, _) => BeforeMore(w, x, y, id);
      case Expired(id, _) => BeforeMore(w, x, y, id);
      case Delivered(id, _, _, _, _) => BeforeWithout(w, x, y, id);
      case Ended(id, _) => BeforeWithout(w, x, y, id);
      case _ =>
    }
  }

  /** If one message began to wait before another, by its publish or by the end of a lease, it is
      delivered (or gone) before the other is. */
  lemma DeliveriesInOrder(log: seq<Event>, i: nat, j: nat, k: nat, x: Bytes)
    requires Lawful(log) && i < j < k < |log|
    requires Queued(log[i], x) && log[k].Delivered? && Queued(log[j], log[k].id)
    requires forall m :: j < m < k ==> !Served(log[m], log[k].id)
    ensures exists m :: i < m < k && Served(log[m], x)
  {
    if forall m :: i < m < k ==> !Served(log[m], x) {
      StillBefore(log, i, j, k, x, log[k].id);
      LawfulAt(log, k);
      LineSound(log[..k]);
      assert false;
    }
  }

  // ---------- ordering keys ----------

  lemma {:induction false} OwnerLasts(log: seq<Event>, i: nat, k: nat)
    requires Lawful(log) && i < k <= |log| && log[i].Delivered? && log[i].key != []
    requires forall m :: i < m < k ==> log[m] != Left(log[i].consumer)
    ensures log[i].key in Owner(log[..k]) && Owner(log[..k])[log[i].key] == log[i].consumer
  {
    PrefixGrows(log, k - 1);
    if k > i + 1 {
      OwnerLasts(log, i, k - 1);
      LawfulAt(log, k - 1);
    }
  }

  /** All deliveries of an ordering key go to one consumer until that consumer leaves. */
  lemma StickyKeys(log: seq<Event>, i: nat, k: nat)
    requires Lawful(log) && i < k < |log|
    requires log[i].Delivered? && log[k].Delivered? && log[i].key == log[k].key != []
    ensures log[i].consumer == log[k].consumer || exists m :: i < m < k && log[m] == Left(log[i].consumer)
  {
    if forall m :: i < m < k ==> log[m] != Left(log[i].consumer) {
      OwnerLasts(log, i, k);
      LawfulAt(log, k);
    }
  }

  // ---------- consumers and their channels ----------

  ghost predicate Returns(e: Event, c: nat) {
    e.Joined? && e.consumer == c
  }

  lemma {:induction false} GoneStays(log: seq<Event>, i: nat, k: nat)
    requires i < k <= |log| && log[i].Left?
    requires forall m :: i < m < k ==> !Returns(log[m], log[i].consumer)
    ensures log[i].consumer !in Members(log[..k])
  {
    PrefixGrows(log, k - 1);
    if k > i + 1 {
      GoneStays(log, i, k - 1);
      assert !Returns(log[k - 1], log[i].consumer);
    }
  }

  /** A consumer that left is sent nothing until it connects again. */
  lemma NothingAfterLeaving(log: seq<Event>, i: nat, k: nat)
    requires Lawful(log) && i < k < |log| && log[i].Left?
    requires log[k].Delivered? && log[k].consumer == log[i].consumer
    ensures exists m :: i < m < k && Returns(log[m], log[i].consumer)
  {
    if forall m :: i < m < k ==> !Returns(log[m], log[i].consumer) {
      GoneStays(log, i, k);
      LawfulAt(log, k);
      assert false;
    }
  }

  lemma {:induction false} LiveIds(log: seq<Event>, id: Bytes)
    requires id in Live(log)
    ensures Live(log)[id].id == id
  {
    var p := log[..|log| - 1];
    if id in Live(p) { LiveIds(p, id); }
  }

  /** Touches the channel of `c`. */
  ghost predicate ForChannel(e: Event, c: nat) {
    (e.Delivered? || e.Received? || e.Left?) && e.consumer == c
  }

  /** Event `k` is the delivery that put `x` into the channel of `c`, and nothing has touched the
      channel since: `x` is the delivered message as it was then, with the next attempt number. */
  ghost predicate SentAt(log: seq<Event>, k: nat, c: nat, x: Message) {
    && k < |log| && log[k].Delivered? && log[k].consumer == c
    && log[k].id == x.id && log[k].key == x.orderingKey
    && x.id in Live(log[..k]) && x == Live(log[..k])[x.id].(attempt := Live(log[..k])[x.id].attempt + 1)
    && forall m :: k < m < |log| ==> !ForChannel(log[m], c)
  }

  lemma {:induction false} UnreadWasSent(log: seq<Event>, c: nat) returns (k: nat)
    requires Lawful(log) && c in Unread(log)
    ensures SentAt(log, k, c, Unread(log)[c])
  {
    var p, e := log[..|log| - 1], log[|log| - 1];
    if e.Delivered? && e.consumer == c {
      k := |p|;
      LiveIds(p, e.id);
    } else {
      k := UnreadWasSent(p, c);
      assert log[..k] == p[..k];
    }
  }

  // ---------- when delivery stops ----------

  /** The head cannot go anywhere: its owner's channel is full, or every channel is. */
  ghost predicate HeadBlocked(s: Queue) {
    s.pending != [] &&
    var key := s.pending[0].orderingKey;
    if key == [] then forall i :: 0 <= i < |s.consumers| ==> s.consumers[i].ch.Some?
    else
      && key in s.keys
      && exists i :: 0 <= i < |s.consumers| && s.consumers[i].id == s.keys[key] && s.consumers[i].ch.Some?
  }

  lemma {:induction false} NoneFree(cs: seq<Consumer>, nextIdx: nat, j: nat, i: nat)
    requires j <= i < |cs| && FreeFrom(cs, nextIdx, j).None?
    ensures cs[(nextIdx + i) % |cs|].ch.Some?
    decreases |cs| - j
  {
    if j < i { NoneFree(cs, nextIdx, j + 1, i); }
  }

  /** Round robin tries every consumer: each position is reached by some try. */
  lemma TryReaches(n: nat, nextIdx: nat, i: nat) returns (j: nat)
    requires i < n
    ensures j < n && (nextIdx + j) % n == i
  {
    var r := nextIdx % n;
    DivMod(nextIdx, n);
    j := if r <= i then i - r else i + n - r;
    var q := nextIdx / n + if r <= i then 0 else 1;
    assert nextIdx + j == q * n + i;
    DivModOf(q, n, i);
  }

  lemma NoTargetMeansBlocked(s: Queue)
    requires s.pending != [] && Target(s).None? && Connected(s)
    requires s.pending[0].orderingKey != [] ==> s.pending[0].orderingKey in s.keys
    ensures HeadBlocked(s)
  {
    var cs := s.consumers;
    if s.pending[0].orderingKey == [] {
      forall i | 0 <= i < |cs| ensures cs[i].ch.Some? {
        var j := TryReaches(|cs|, s.nextIdx, i);
        NoneFree(cs, s.nextIdx, 0, j);
      }
    }
  }

  /** Delivery takes messages off the front only, and stops for one of four reasons. */
  lemma {:induction false} DeliveryStops(s: Queue, now: int, hash: Hash)
    requires Connected(s)
    ensures var t := TryDeliver(s, now, hash);
            t.pending == [] || t.consumers == [] || t.pending[0].visibleAt > now || HeadBlocked(t)
    decreases |s.pending|
  {
    if s.consumers == [] || s.pending == [] || s.pending[0].visibleAt > now {
    } else {
      var a := AssignKey(s, hash);
      AssignKeyConnected(s, hash);
      if Target(a).None? {
        NoTargetMeansBlocked(a);
      } else {
        DispatchConnected(a, Target(a).value, now);
        DeliveryStops(Dispatch(a, Target(a).value, now), now, hash);
      }
    }
  }

  lemma {:induction false} DeliversFront(s: Queue, now: int, hash: Hash)
    ensures var t := TryDeliver(s, now, hash);
            |t.pending| <= |s.pending| && t.pending == s.pending[|s.pending| - |t.pending|..]
    decreases |s.pending|
  {
    hide HashTarget, FreeFrom, Target;
    if s.consumers == [] || s.pending == [] || s.pending[0].visibleAt > now {
    } else {
      var a := AssignKey(s, hash);
      if Target(a).Some? { DeliversFront(Dispatch(a, Target(a).value, now), now, hash); }
    }
  }

  /** Every pending message is visible by time t. */
  ghost predicate VisibleBy(s: Queue, t: int) {
    forall i :: 0 <= i < |s.pending| ==> s.pending[i].visibleAt <= t
  }

  /** If the messages are visible, invisibility never holds up the head. */
  lemma NeverHeldByVisibility(s: Queue, now: int, hash: Hash)
    requires Connected(s) && VisibleBy(s, now)
    ensures var t := TryDeliver(s, now, hash);
            VisibleBy(t, now) && (t.pending == [] || t.consumers == [] || HeadBlocked(t))
  {
    DeliversFront(s, now, hash);
    DeliveryStops(s, now, hash);
  }

  ghost predicate VisibleWhenEnqueued(st: Step) {
    (st.op.DoEnqueue? || st.op.DoEnqueueDirect?) ==> st.op.msg.visibleAt <= st.now
  }

  lemma {:induction false} ExpireVisible(s: Queue, order: seq<Bytes>, now: int)
    requires VisibleBy(s, now)
    ensures VisibleBy(ExpireAll(s, order, now), now)
  {
    if order != [] { ExpireVisible(s, order[..|order| - 1], now); }
  }

  lemma DeliveryVisible(s: Queue, now: int, hash: Hash)
    requires VisibleBy(s, now)
    ensures VisibleBy(TryDeliver(s, now, hash), now)
  {
    DeliversFront(s, now, hash);
  }

  lemma NackVisible(s: Queue, id: Bytes, requeue: bool, hookOk: bool, now: int, hash: Hash)
    requires VisibleBy(s, now)
    ensures VisibleBy(Nack(s, id, requeue, hookOk, now, hash).0, now)
  {
    if id in s.inFlight { DeliveryVisible(Requeue(s, id, now, Requeued(id, now)), now, hash); }
  }

  lemma RemoveVisible(s: Queue, id: Bytes, now: int)
    requires VisibleBy(s, now)
    ensures VisibleBy(Remove(s, id).0, now)
  {
  }

  lemma ApplyVisible(s: Queue, st: Step, hash: Hash)
    requires VisibleBy(s, st.now) && VisibleWhenEnqueued(st)
    ensures VisibleBy(Apply(s, st, hash), st.now)
  {
    hide TryDeliver, ExpireAll, PendingAt, Remove, Nack;
    match st.op
    case DoEnqueue(m) => DeliveryVisible(Push(s, m), st.now, hash);
    case DoEnqueueDirect(m) => DeliveryVisible(Push(s, m), st.now, hash);
    case DoConsume(c, timeout) =>
      DeliveryVisible(Join(s, c, timeout), st.now, hash);
    case DoAck(id, hookOk) => DeliveryVisible(Settle(s, id, Acked), st.now, hash);
    case DoNack(id, requeue, hookOk) => NackVisible(s, id, requeue, hookOk, st.now, hash);
    case DoExpire(order) =>
      ExpireVisible(s, order, st.now);
      DeliveryVisible(ExpireAll(s, order, st.now), st.now, hash);
    case DoRemove(id) => RemoveVisible(s, id, st.now);
    case _ =>
  }

  ghost predicate Monotone(steps: seq<Step>) {
    forall i, j :: 0 <= i < j < |steps| ==> steps[i].now <= steps[j].now
  }

  /** The last clock reading of a run that starts at `start`. */
  function Clock(steps: seq<Step>, start: int): int {
    if steps == [] then start else steps[|steps| - 1].now
  }

  /** With a monotone clock, from a queue whose messages are visible, enqueueing visible ones, no
      run reaches a state with a message not visible at the time of the last step. */
  lemma {:induction false} RunVisible(s: Queue, steps: seq<Step>, start: int, hash: Hash)
    requires VisibleBy(s, start)
    requires Monotone(steps) && forall i :: 0 <= i < |steps| ==> start <= steps[i].now && VisibleWhenEnqueued(steps[i])
    ensures VisibleBy(Exec(s, steps, hash), Clock(steps, start))
  {
    hide Apply, VisibleWhenEnqueued;
    if steps != [] {
      var p, st := steps[..|steps| - 1], steps[|steps| - 1];
      RunVisible(s, p, start, hash);
      assert Clock(p, start) <= st.now;
      ApplyVisible(Exec(s, p, hash), st, hash);
    }
  }

  // ---------- ordering keys from their assignment on ----------

  /** From position `from` on, every delivery of the key goes to the consumer. */
  ghost predicate OnlyTo(log: seq<Event>, from: nat, key: Bytes, c: nat) {
    forall i :: from <= i < |log| && log[i].Delivered? && log[i].key == key ==> log[i].consumer == c
  }

  /** `t` comes after `s`; meanwhile the key kept its owner and went nowhere else. */
  ghost predicate KeyHeld(s: Queue, t: Queue, key: Bytes)
    requires key in s.keys
  {
    key in t.keys && t.keys[key] == s.keys[key] && s.log <= t.log && OnlyTo(t.log, |s.log|, key, s.keys[key])
  }

  lemma KeyHeldChain(s: Queue, t: Queue, u: Queue, key: Bytes)
    requires key in s.keys && KeyHeld(s, t, key) && KeyHeld(t, u, key)
    ensures KeyHeld(s, u, key)
  {
    forall i | |s.log| <= i < |u.log| && u.log[i].Delivered? && u.log[i].key == key
      ensures u.log[i].consumer == s.keys[key]
    {
      if i < |t.log| { assert u.log[i] == t.log[i]; }
    }
  }

  /** One delivery goes to its key's owner. */
  lemma DispatchKey(s: Queue, now: int, hash: Hash, key: Bytes)
    requires key != [] && key in s.keys && s.consumers != [] && s.pending != []
    ensures var a := AssignKey(s, hash);
            && KeyHeld(s, a, key)
            && (Target(a).Some? ==> KeyHeld(s, Dispatch(a, Target(a).value, now), key))
  {
    hide HashTarget, FreeFrom;
  }

  lemma {:induction false} TryDeliverKey(s: Queue, now: int, hash: Hash, key: Bytes)
    requires key != [] && key in s.keys
    ensures KeyHeld(s, TryDeliver(s, now, hash), key)
    decreases |s.pending|
  {
    hide AssignKey, Target, KeyHeld;
    if s.consumers == [] || s.pending == [] || s.pending[0].visibleAt > now {
      KeyHeldRefl(s, key);
    } else {
      var a := AssignKey(s, hash);
      DispatchKey(s, now, hash, key);
      AssignKeeps(s, hash);
      if Target(a).Some? {
        var d := Dispatch(a, Target(a).value, now);
        TryDeliverKey(d, now, hash, key);
        KeyHeldChain(s, d, TryDeliver(d, now, hash), key);
      }
    }
  }

  lemma KeyHeldRefl(s: Queue, key: Bytes)
    requires key in s.keys
    ensures KeyHeld(s, s, key)
  {
  }

  lemma AssignKeeps(s: Queue, hash: Hash)
    requires s.consumers != [] && s.pending != []
    ensures AssignKey(s, hash).pending == s.pending
    ensures forall key :: key in s.keys ==> key in AssignKey(s, hash).keys
  {
  }

  /** A step without deliveries of its own, followed by delivery. */
  lemma ThenDeliver(s: Queue, t: Queue, now: int, hash: Hash, key: Bytes)
    requires key != [] && key in s.keys && KeyHeld(s, t, key)
    ensures KeyHeld(s, TryDeliver(t, now, hash), key)
  {
    hide TryDeliver;
    TryDeliverKey(t, now, hash, key);
    KeyHeldChain(s, t, TryDeliver(t, now, hash), key);
  }

  lemma {:induction false} ExpireKey(s: Queue, order: seq<Bytes>, now: int, key: Bytes)
    requires key in s.keys
    ensures KeyHeld(s, ExpireAll(s, order, now), key)
  {
    if order != [] { ExpireKey(s, order[..|order| - 1], now, key); }
  }

  /** Every operation but the owner's leaving. */
  lemma ApplyKey(s: Queue, st: Step, hash: Hash, key: Bytes)
    requires key != [] && key in s.keys && st.op != DoLeave(s.keys[key])
    ensures KeyHeld(s, Apply(s, st, hash), key)
  {
    hide TryDeliver, ExpireAll, PendingAt, NackVerdict, ConsumerAt;
    match st.op
    case DoEnqueue(m) => ThenDeliver(s, Push(s, m), st.now, hash, key);
    case DoEnqueueDirect(m) => ThenDeliver(s, Push(s, m), st.now, hash, key);
    case DoConsume(c, timeout) =>
      ThenDeliver(s, Join(s, c, timeout), st.now, hash, key);
    case DoAck(id, hookOk) => ThenDeliver(s, Settle(s, id, Acked), st.now, hash, key);
    case DoNack(id, requeue, hookOk) =>
      if id in s.inFlight { ThenDeliver(s, Requeue(s, id, st.now, Requeued(id, st.now)), st.now, hash, key); }
    case DoExpire(order) =>
      ExpireKey(s, order, st.now, key);
      ThenDeliver(s, ExpireAll(s, order, st.now), st.now, hash, key);
    case _ =>
  }

  /** From the moment a key is assigned, delivered or not, for as long as its consumer does not
      leave: over every run the key keeps its owner and every delivery of it goes there. */
  lemma {:induction false} KeyStays(s: Queue, steps: seq<Step>, hash: Hash, key: Bytes)
    requires key != [] && key in s.keys
    requires forall i :: 0 <= i < |steps| ==> steps[i].op != DoLeave(s.keys[key])
    ensures KeyHeld(s, Exec(s, steps, hash), key)
  {
    hide Apply, OnlyTo;
    if steps == [] {
      KeyHeldRefl(s, key);
    } else {
      var p := steps[..|steps| - 1];
      KeyStays(s, p, hash, key);
      ApplyKey(Exec(s, p, hash), steps[|steps| - 1], hash, key);
      KeyHeldChain(s, Exec(s, p, hash), Exec(s, steps, hash), key);
    }
  }

  // ---------- the contract of every run ----------

  ghost predicate LeasesExclusive(log: seq<Event>) {
    forall i, k :: 0 <= i < k < |log| && log[i].Delivered? && log[k].Delivered? && log[i].id == log[k].id
      ==> exists m :: i < m < k && EndsLease(log, m, log[i].id)
  }

  /** `k` delivers the message that has waited since `j`. */
  ghost predicate WaitedSince(log: seq<Event>, j: nat, k: nat) {
    && j < k < |log| && log[k].Delivered? && Queued(log[j], log[k].id)
    && forall m :: j < m < k ==> !Served(log[m], log[k].id)
  }

  ghost predicate FirstInFirstOut(log: seq<Event>) {
    forall i: nat, j: nat, k: nat, x: Bytes :: i < j && WaitedSince(log, j, k) && Queued(log[i], x)
      ==> exists m :: i < m < k && Served(log[m], x)
  }

  ghost predicate KeysSticky(log: seq<Event>) {
    forall i, k :: 0 <= i < k < |log| && log[i].Delivered? && log[k].Delivered? && log[i].key == log[k].key != []
      ==> log[i].consumer == log[k].consumer || Left(log[i].consumer) in log[i + 1..k]
  }

  ghost predicate LeavingHeeded(log: seq<Event>) {
    forall i, k :: 0 <= i < k < |log| && log[i].Left? && log[k].Delivered? && log[k].consumer == log[i].consumer
      ==> exists m :: i < m < k && Returns(log[m], log[i].consumer)
  }

  /** What a consumer receives is what the last delivery to it sent, and each delivery is
      received at most once. */
  ghost predicate ReceivedAsSent(log: seq<Event>) {
    forall k :: 0 <= k < |log| && log[k].Received?
      ==> exists j :: SentAt(log[..k], j, log[k].consumer, log[k].msg)
  }

  /** What a channel holds is what the last delivery to its consumer sent. */
  ghost predicate ChannelsAsSent(t: Queue) {
    forall i :: 0 <= i < |t.consumers| && t.consumers[i].ch.Some?
      ==> exists k :: SentAt(t.log, k, t.consumers[i].id, t.consumers[i].ch.value)
  }

  lemma AgreedChannels(t: Queue)
    requires Lawful(t.log) && Staffed(t)
    ensures ChannelsAsSent(t)
  {
    hide Lawful, SentAt;
    forall i | 0 <= i < |t.consumers| && t.consumers[i].ch.Some?
      ensures exists k :: SentAt(t.log, k, t.consumers[i].id, t.consumers[i].ch.value)
    {
      StaffAt(t.consumers, Members(t.log), Unread(t.log), i);
      var k := UnreadWasSent(t.log, t.consumers[i].id);
    }
  }

  lemma LawfulReceives(log: seq<Event>)
    requires Lawful(log)
    ensures LeavingHeeded(log) && ReceivedAsSent(log)
  {
    hide Lawful, SentAt;
    forall i, k | 0 <= i < k < |log| && log[i].Left? && log[k].Delivered? && log[k].consumer == log[i].consumer
      ensures exists m :: i < m < k && Returns(log[m], log[i].consumer)
    {
      NothingAfterLeaving(log, i, k);
    }
    forall k | 0 <= k < |log| && log[k].Received?
      ensures exists j :: SentAt(log[..k], j, log[k].consumer, log[k].msg)
    {
      LawfulAt(log, k);
      var j := UnreadWasSent(log[..k], log[k].consumer);
    }
  }

  lemma LawfulContract(log: seq<Event>)
    requires Lawful(log)
    ensures LeasesExclusive(log) && FirstInFirstOut(log) && KeysSticky(log)
  {
    forall i, k | 0 <= i < k < |log| && log[i].Delivered? && log[k].Delivered? && log[i].id == log[k].id
      ensures exists m :: i < m < k && EndsLease(log, m, log[i].id)
    {
      LeaseExclusive(log, i, k);
    }
    forall i: nat, j: nat, k: nat, x: Bytes | i < j && WaitedSince(log, j, k) && Queued(log[i], x)
      ensures exists m :: i < m < k && Served(log[m], x)
    {
      DeliveriesInOrder(log, i, j, k, x);
    }
    forall i, k | 0 <= i < k < |log| && log[i].Delivered? && log[k].Delivered? && log[i].key == log[k].key != []
      ensures log[i].consumer == log[k].consumer || Left(log[i].consumer) in log[i + 1..k]
    {
      StickyKeys(log, i, k);
    }
  }

  /** From any queue in agreement, with any settings: whatever is enqueued, delivered, acked,
      nacked, dropped, expired, extended, removed or purged, whoever connects or leaves, and
      however the settings change on the way. */
  lemma DeliveryContract(s: Queue, steps: seq<Step>, hash: Hash)
    requires Agrees(s) && LegalRun(s, steps, hash)
    ensures var t := Exec(s, steps, hash);
            && LeasesExclusive(t.log) && FirstInFirstOut(t.log) && KeysSticky(t.log)
            && LeavingHeeded(t.log) && ReceivedAsSent(t.log) && ChannelsAsSent(t)
            && Connected(t)
  {
    hide Exec, LegalRun, Books, InOrder, LeasesExclusive, FirstInFirstOut, KeysSticky;
    hide LeavingHeeded, ReceivedAsSent, ChannelsAsSent, Staffed;
    RunAgrees(s, steps, hash);
    LawfulContract(Exec(s, steps, hash).log);
    LawfulReceives(Exec(s, steps, hash).log);
    AgreedChannels(Exec(s, steps, hash));
  }
}
