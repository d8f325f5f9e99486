/**
 Why each event of a queue's log is there, and what each operation must make of it: the causes
 and effects of the operations, in terms of the log and the settings.
 */
module QueueEffects {
  import opened Types
  import opened QueueModel
  import opened QueueRuns
  import opened QueueTheorems
  import opened Arith

  // ---------- causes ----------

  /** Retries are used up under a policy that counts them. */
  predicate Exhausted(s: Queue, m: Message) {
    s.policy in {DeadLetter, DropMessage} && m.attempt >= s.maxRetries
  }

  /** The operation that may log the event, and what must have been so before it. */
  ghost predicate Caused(s: Queue, st: Step, e: Event) {
    match e
    case Enqueued(m) =>
      st.op == DoEnqueueDirect(m) || (st.op == DoEnqueue(m) && !(s.maxSize > 0 && |s.pending| >= s.maxSize))
    case Delivered(_, _, _, at, _) => at == st.now
    case Requeued(id, at) =>
      && st.op.DoNack? && st.op.id == id && st.op.requeue && st.op.hookOk && at == st.now
      && id in s.inFlight && !Exhausted(s, s.inFlight[id])
    case Expired(id, at) => st.op.DoExpire? && at == st.now && IsExpired(s, id, st.now)
    case Extended(id, at, extension) => st.op == DoExtend(id, extension) && at == st.now && id in s.inFlight
    case Ended(id, how) => EndedBy(s, st, id, how)
    case Purged => st.op == DoPurge
    case Joined(c, timeout) => st.op == DoConsume(c, timeout)
    case Received(c, _) => st.op == DoReceive(c)
    case Left(c) => st.op == DoLeave(c)
  }

  /** Dead-lettered and dropped are for the policy to choose between, and a nack that asks for
      another try is refused only when the retries are used up. */
  ghost predicate EndedBy(s: Queue, st: Step, id: Bytes, how: Ending) {
    match how
    case Acked => st.op == DoAck(id, true) && id in s.inFlight
    case Removed => st.op == DoRemove(id)
    case Retried => false
    case DeadLettered =>
      && st.op.DoNack? && st.op.id == id && id in s.inFlight && s.policy == DeadLetter
      && (st.op.requeue ==> Exhausted(s, s.inFlight[id]))
    case Dropped =>
      && st.op.DoNack? && st.op.id == id && st.op.hookOk && id in s.inFlight && s.policy != DeadLetter
      && (st.op.requeue ==> Exhausted(s, s.inFlight[id]))
  }

  /** `t` is `s` with more deliveries at `now`. */
  ghost predicate OnlyDelivered(s: Queue, t: Queue, now: int) {
    && s.log <= t.log
    && forall k :: |s.log| <= k < |t.log| ==> t.log[k].Delivered? && t.log[k].at == now
  }

  lemma {:induction false} TryDeliverOnly(s: Queue, now: int, hash: Hash)
    ensures OnlyDelivered(s, TryDeliver(s, now, hash), now)
    decreases |s.pending|
  {
    hide HashTarget, FreeFrom, Target;
    if s.consumers == [] || s.pending == [] || s.pending[0].visibleAt > now {
    } else {
      var a := AssignKey(s, hash);
      if Target(a).Some? {
        var d := Dispatch(a, Target(a).value, now);
        TryDeliverOnly(d, now, hash);
        OneThenMore(s, d, TryDeliver(d, now, hash), now);
      }
    }
  }

  lemma OneThenMore(s: Queue, d: Queue, t: Queue, now: int)
    requires |d.log| == |s.log| + 1 && s.log <= d.log && d.log[|s.log|].Delivered? && d.log[|s.log|].at == now
    requires OnlyDelivered(d, t, now)
    ensures OnlyDelivered(s, t, now)
  {
    assert t.log[|s.log|] == d.log[|s.log|];
  }

  /** Everything logged from `s` to `t` has its cause in the step; a nack's own event comes first. */
  ghost predicate AllCaused(s: Queue, t: Queue, st: Step) {
    && s.log <= t.log
    && (forall k :: |s.log| <= k < |t.log| ==> Caused(s, st, t.log[k]))
    && (forall k :: |s.log| < k < |t.log| ==> !t.log[k].Requeued? && !t.log[k].Ended?)
  }

  /** One event of the operation's own, then deliveries. */
  lemma ThenDeliveries(s: Queue, u: Queue, st: Step, hash: Hash)
    requires AllCaused(s, u, st)
    ensures AllCaused(s, TryDeliver(u, st.now, hash), st)
  {
    hide TryDeliver;
    TryDeliverOnly(u, st.now, hash);
    var t := TryDeliver(u, st.now, hash);
    forall k | |s.log| <= k < |t.log|
      ensures Caused(s, st, t.log[k]) && (k > |s.log| ==> !t.log[k].Requeued? && !t.log[k].Ended?)
    {
      if k < |u.log| { assert t.log[k] == u.log[k]; }
    }
  }

  lemma {:induction false} ExpireCaused(s: Queue, order: seq<Bytes>, st: Step)
    requires st.op.DoExpire? && forall i :: 0 <= i < |order| ==> IsExpired(s, order[i], st.now)
    ensures AllCaused(s, ExpireAll(s, order, st.now), st)
  {
    hide IsExpired;
    if order != [] { ExpireCaused(s, order[..|order| - 1], st); }
  }

  /** Every operation logs only what it has cause for. */
  lemma StepCauses(s: Queue, st: Step, hash: Hash)
    requires Legal(s, st)
    ensures AllCaused(s, Apply(s, st, hash), st)
  {
    hide TryDeliver, ExpireAll, PendingAt, ConsumerAt;
    match st.op
    case DoEnqueue(m) => ThenDeliveries(s, if Caused(s, st, Enqueued(m)) then Push(s, m) else s, st, hash);
    case DoEnqueueDirect(m) => ThenDeliveries(s, Push(s, m), st, hash);
    case DoConsume(c, timeout) => ThenDeliveries(s, Join(s, c, timeout), st, hash);
    case DoAck(id, hookOk) => if id in s.inFlight && hookOk { ThenDeliveries(s, Settle(s, id, Acked), st, hash); }
    case DoNack(id, requeue, hookOk) => NackCauses(s, st, hash);
    case DoExpire(order) =>
      ExpireCaused(s, order, st);
      ThenDeliveries(s, ExpireAll(s, order, st.now), st, hash);
    case _ =>
  }

  lemma NackCauses(s: Queue, st: Step, hash: Hash)
    requires st.op.DoNack?
    ensures AllCaused(s, Nack(s, st.op.id, st.op.requeue, st.op.hookOk, st.now, hash).0, st)
  {
    hide TryDeliver;
    var id := st.op.id;
    if id in s.inFlight && NackVerdict(s, s.inFlight[id], st.op.requeue).ToRequeue? && st.op.hookOk {
      ThenDeliveries(s, Requeue(s, id, st.now, Requeued(id, st.now)), st, hash);
    }
  }

  /** Over every run: each event was caused by one of the steps, in the state it met. */
  lemma {:induction false} RunCauses(s: Queue, steps: seq<Step>, hash: Hash, k: nat) returns (i: nat)
    requires LegalRun(s, steps, hash) && |s.log| <= k < |Exec(s, steps, hash).log|
    ensures i < |steps| && Caused(Exec(s, steps[..i], hash), steps[i], Exec(s, steps, hash).log[k])
    ensures var e := Exec(s, steps, hash).log[k];
            e.Requeued? || e.Ended? ==> Exec(s, steps[..i], hash).log == Exec(s, steps, hash).log[..k]
  {
    hide Apply, Caused, Legal;
    assert steps != [];
    var n := |steps| - 1;
    var p := Exec(s, steps[..n], hash);
    StepCauses(p, steps[n], hash);
    if k < |p.log| {
      i := RunCauses(s, steps[..n], hash, k);
      assert steps[..n][..i] == steps[..i];
    } else {
      i := n;
    }
  }

  // ---------- the failure policy over runs ----------

  /** The policy is `p` at every step. */
  ghost predicate PolicyStays(s: Queue, steps: seq<Step>, p: FailurePolicy) {
    s.policy == p && forall i :: 0 <= i < |steps| ==> steps[i].op.DoConfigure? ==> steps[i].op.settings.policy == p
  }

  lemma {:induction false} DeliveryKeepsSettings(s: Queue, now: int, hash: Hash)
    ensures SettingsOf(TryDeliver(s, now, hash)) == SettingsOf(s)
    decreases |s.pending|
  {
    hide HashTarget, FreeFrom, Target;
    if s.consumers == [] || s.pending == [] || s.pending[0].visibleAt > now {
    } else {
      var a := AssignKey(s, hash);
      if Target(a).Some? { DeliveryKeepsSettings(Dispatch(a, Target(a).value, now), now, hash); }
    }
  }

  lemma {:induction false} ExpireKeepsSettings(s: Queue, order: seq<Bytes>, now: int)
    ensures SettingsOf(ExpireAll(s, order, now)) == SettingsOf(s)
  {
    if order != [] { ExpireKeepsSettings(s, order[..|order| - 1], now); }
  }

  /** Only the setters change the settings. */
  lemma StepSettings(s: Queue, st: Step, hash: Hash)
    ensures SettingsOf(Apply(s, st, hash)) == if st.op.DoConfigure? then st.op.settings else SettingsOf(s)
  {
    hide TryDeliver, ExpireAll, PendingAt, ConsumerAt, NackVerdict;
    match st.op
    case DoEnqueue(m) => DeliveryKeepsSettings(Push(s, m), st.now, hash);
    case DoEnqueueDirect(m) => DeliveryKeepsSettings(Push(s, m), st.now, hash);
    case DoConsume(c, timeout) => DeliveryKeepsSettings(Join(s, c, timeout), st.now, hash);
    case DoAck(id, hookOk) => DeliveryKeepsSettings(Settle(s, id, Acked), st.now, hash);
    case DoNack(id, requeue, hookOk) =>
      if id in s.inFlight { DeliveryKeepsSettings(Requeue(s, id, st.now, Requeued(id, st.now)), st.now, hash); }
    case DoExpire(order) =>
      ExpireKeepsSettings(s, order, st.now);
      DeliveryKeepsSettings(ExpireAll(s, order, st.now), st.now, hash);
    case _ =>
  }

  lemma {:induction false} RunPolicy(s: Queue, steps: seq<Step>, hash: Hash, p: FailurePolicy)
    requires PolicyStays(s, steps, p)
    ensures Exec(s, steps, hash).policy == p
  {
    hide Apply;
    if steps != [] {
      var n := |steps| - 1;
      RunPolicy(s, steps[..n], hash, p);
      StepSettings(Exec(s, steps[..n], hash), steps[n], hash);
    }
  }

  /** While the policy is to dead-letter nothing is dropped; while it is not, nothing is
      dead-lettered. */
  lemma PolicyRules(s: Queue, steps: seq<Step>, hash: Hash, p: FailurePolicy, k: nat)
    requires LegalRun(s, steps, hash) && PolicyStays(s, steps, p) && |s.log| <= k < |Exec(s, steps, hash).log|
    ensures var e := Exec(s, steps, hash).log[k];
            e.Ended? ==> (if p == DeadLetter then e.how != Dropped else e.how != DeadLettered)
  {
    hide Apply, Legal;
    var i := RunCauses(s, steps, hash, k);
    RunPolicy(s, steps[..i], hash, p);
  }

  lemma {:induction false} RunSettings(s: Queue, steps: seq<Step>, hash: Hash)
    requires forall i :: 0 <= i < |steps| && steps[i].op.DoConfigure? ==> steps[i].op.settings == SettingsOf(s)
    ensures SettingsOf(Exec(s, steps, hash)) == SettingsOf(s)
  {
    hide Apply, SettingsOf;
    if steps != [] {
      var n := |steps| - 1;
      RunSettings(s, steps[..n], hash);
      StepSettings(Exec(s, steps[..n], hash), steps[n], hash);
    }
  }

  lemma {:induction false} LegalPrefix(s: Queue, steps: seq<Step>, hash: Hash, i: nat)
    requires LegalRun(s, steps, hash) && i <= |steps|
    ensures LegalRun(s, steps[..i], hash)
  {
    hide Exec, Legal;
    if i == |steps| {
      assert steps[..i] == steps;
    } else {
      LegalPrefix(s, steps[..|steps| - 1], hash, i);
      assert steps[..|steps| - 1][..i] == steps[..i];
    }
  }

  /** The number of deliveries of a message before event `k` decides what a nack at `k` came to,
      under settings that stay: it went back with tries left, or ended because the nack did not
      ask for another try or there was none left. */
  lemma RetriesRule(s: Queue, steps: seq<Step>, hash: Hash, k: nat) returns (i: nat)
    requires Agrees(s) && LegalRun(s, steps, hash) && |s.log| <= k < |Exec(s, steps, hash).log|
    requires forall i :: 0 <= i < |steps| && steps[i].op.DoConfigure? ==> steps[i].op.settings == SettingsOf(s)
    requires var e := Exec(s, steps, hash).log[k]; e.Requeued? || (e.Ended? && e.how in {DeadLettered, Dropped})
    ensures i < |steps| && steps[i].op.DoNack? && steps[i].op.id == Exec(s, steps, hash).log[k].id
    ensures var log := Exec(s, steps, hash).log;
            && log[k].id in Live(log[..k])
            && (if log[k].Requeued? then steps[i].op.requeue && !Exhausted(s, Live(log[..k])[log[k].id])
                else steps[i].op.requeue ==> Exhausted(s, Live(log[..k])[log[k].id]))
  {
    hide Apply, Legal, InOrder, Routes, Staffed, Lawful, Live, Leased;
    i := RunCauses(s, steps, hash, k);
    var p := Exec(s, steps[..i], hash);
    LegalPrefix(s, steps, hash, i);
    RunAgrees(s, steps[..i], hash);
    RunSettings(s, steps[..i], hash);
    assert p.inFlight[steps[i].op.id] == Live(p.log)[steps[i].op.id];
  }

  // ---------- effects ----------

  /** Logged between `s` and `t`. */
  ghost predicate Logged(s: Queue, t: Queue, e: Event) {
    |s.log| <= |t.log| && e in t.log[|s.log|..]
  }

  lemma LoggedFirst(s: Queue, u: Queue, now: int, hash: Hash, e: Event)
    requires u.log == s.log + [e] && !e.Delivered?
    ensures var t := TryDeliver(u, now, hash);
            && Logged(s, t, e) && t.log[|s.log|] == e && |t.log| > |s.log|
            && forall f :: Logged(s, t, f) && !f.Delivered? ==> f == e
  {
    hide TryDeliver;
    TryDeliverOnly(u, now, hash);
    var t := TryDeliver(u, now, hash);
    assert t.log[|s.log|..][0] == e;
    forall f | Logged(s, t, f) && !f.Delivered? ensures f == e {
      var k :| 0 <= k < |t.log[|s.log|..]| && t.log[|s.log|..][k] == f;
      assert t.log[|s.log| + k] == f;
    }
  }

  /** Refused, with no effect, if and only if there is a limit and it is reached; otherwise in. */
  lemma EnqueueTells(s: Queue, m: Message, now: int, hash: Hash)
    ensures var (t, ok) := Enqueue(s, m, now, hash);
            && (!ok <==> s.maxSize > 0 && |s.pending| >= s.maxSize)
            && (if ok then Logged(s, t, Enqueued(m)) else t == s)
  {
    hide TryDeliver;
    LoggedFirst(s, Push(s, m), now, hash, Enqueued(m));
  }

  lemma AckTells(s: Queue, id: Bytes, hookOk: bool, now: int, hash: Hash)
    ensures var (t, r) := Ack(s, id, hookOk, now, hash);
            && (r == AckDone <==> id in s.inFlight && hookOk) && (r == AckNotFound <==> id !in s.inFlight)
            && (if r == AckDone then Logged(s, t, Ended(id, Acked)) else t == s)
  {
    hide TryDeliver;
    LoggedFirst(s, Settle(s, id, Acked), now, hash, Ended(id, Acked));
  }

  /** What becomes of a nack, by policy, attempts and hook; and that it is said and done. */
  lemma NackTells(s: Queue, id: Bytes, requeue: bool, hookOk: bool, now: int, hash: Hash)
    ensures var (t, r) := Nack(s, id, requeue, hookOk, now, hash);
            if id !in s.inFlight then r == NackNotFound && t == s
            else
              var ends := !requeue || Exhausted(s, s.inFlight[id]);
              && (r == NackToDLQ(s.inFlight[id]) <==> ends && s.policy == DeadLetter)
              && (r == NackDropped <==> ends && s.policy != DeadLetter && hookOk)
              && (r == NackRequeued <==> !ends && hookOk)
              && (r == NackHookFailed <==> !hookOk && !(ends && s.policy == DeadLetter))
              && (r.NackToDLQ? ==> Logged(s, t, Ended(id, DeadLettered)))
              && (r == NackDropped ==> Logged(s, t, Ended(id, Dropped)))
              && (r == NackRequeued ==> Logged(s, t, Requeued(id, now)))
              && (r == NackHookFailed ==> t == s)
  {
    hide TryDeliver;
    if id in s.inFlight {
      LoggedFirst(s, Requeue(s, id, now, Requeued(id, now)), now, hash, Requeued(id, now));
    }
  }

  lemma RemoveTells(s: Queue, id: Bytes)
    ensures var (t, found) := Remove(s, id);
            && (found <==> Holds(s, id)) && (if found then Logged(s, t, Ended(id, Removed)) else t == s)
  {
    var i := PendingAt(s.pending, id);
    assert i.Some? <==> id in Ids(s.pending);
  }

  lemma ExtendTells(s: Queue, id: Bytes, extension: int, now: int)
    ensures var t := ExtendVisibility(s, id, extension, now);
            if id in s.inFlight then t.log == s.log + [Extended(id, now, extension)] else t == s
  {
  }

  lemma {:induction false} ExpireLogs(s: Queue, order: seq<Bytes>, now: int)
    requires forall i :: 0 <= i < |order| ==> order[i] in s.inFlight
    requires forall i, j :: 0 <= i < j < |order| ==> order[i] != order[j]
    ensures var t := ExpireAll(s, order, now);
            && s.log <= t.log && |t.log| == |s.log| + |order|
            && forall i :: 0 <= i < |order| ==> t.log[|s.log| + i] == Expired(order[i], now)
  {
    if order != [] {
      var p := order[..|order| - 1];
      ExpireLogs(s, p, now);
      ExpireInFlight(s, p, now);
    }
  }

  /** Every lease that has run out ends in the pass, once, and no other does. */
  lemma ExpireTells(s: Queue, order: seq<Bytes>, now: int, hash: Hash)
    requires ExpiryOrder(s, now, order)
    ensures var t := RequeueExpired(s, order, now, hash);
            && (forall id :: IsExpired(s, id, now) <==> Logged(s, t, Expired(id, now)))
            && (forall i, j :: |s.log| <= i < j < |t.log| && t.log[i].Expired? && t.log[j].Expired?
                  ==> t.log[i].id != t.log[j].id)
  {
    hide TryDeliver;
    var u, t := ExpireAll(s, order, now), RequeueExpired(s, order, now, hash);
    forall i | 0 <= i < |order| ensures order[i] in s.inFlight { assert order[i] in order; }
    ExpireLogs(s, order, now);
    TryDeliverOnly(u, now, hash);
    forall k | |s.log| <= k < |u.log| ensures t.log[k] == Expired(order[k - |s.log|], now) {
      assert t.log[k] == u.log[k];
    }
    forall id | IsExpired(s, id, now) ensures Logged(s, t, Expired(id, now)) {
      var i :| 0 <= i < |order| && order[i] == id;
      assert t.log[|s.log|..][i] == Expired(id, now);
    }
    forall id | Logged(s, t, Expired(id, now)) ensures IsExpired(s, id, now) {
      var k :| 0 <= k < |t.log[|s.log|..]| && t.log[|s.log|..][k] == Expired(id, now);
      assert t.log[|s.log| + k] == Expired(id, now);
    }
  }

  /** A consumer receives what its channel holds, and the channel is then free. */
  lemma ReceiveTells(s: Queue, c: nat)
    requires Agrees(s)
    ensures var t := Receive(s, c);
            if c in Unread(s.log)
            then t.log == s.log + [Received(c, Unread(s.log)[c])] && c !in Unread(t.log)
            else t == s
  {
    hide Books, InOrder, Lawful, Sticky;
    var i := ConsumerAt(s.consumers, c);
    if i.Some? { StaffAt(s.consumers, Members(s.log), Unread(s.log), i.value); }
    if c in Unread(s.log) { Grow(s.log, Received(c, Unread(s.log)[c])); }
  }

  /** Nothing is live after a purge, and so by agreement nothing is held. */
  lemma PurgeTells(s: Queue)
    requires Agrees(s)
    ensures var t := Purge(s);
            && Live(t.log) == map[] && (forall id :: !Holds(t, id)) && t.log == s.log + [Purged]
            && t.consumers == s.consumers && t.keys == s.keys && SettingsOf(t) == SettingsOf(s)
  {
    hide Agrees;
    Grow(s.log, Purged);
  }

  lemma {:induction false} DeliveriesKeepMembers(p: seq<Event>, log: seq<Event>)
    requires p <= log && forall k :: |p| <= k < |log| ==> log[k].Delivered?
    ensures Members(log) == Members(p)
  {
    if |p| == |log| {
      assert p == log;
    } else {
      DeliveriesKeepMembers(p, log[..|log| - 1]);
    }
  }

  /** Connecting and leaving change who is connected by exactly that consumer. */
  lemma MembersTell(s: Queue, c: nat, timeout: int, now: int, hash: Hash)
    requires Agrees(s)
    ensures Members(RemoveConsumer(s, c).log) == Members(s.log) - {c}
    ensures Members(AddConsumer(s, c, timeout, now, hash).log) == Members(s.log)[c := timeout]
  {
    hide TryDeliver, Agrees, ConsumerAt;
    var j := Join(s, c, timeout);
    TryDeliverOnly(j, now, hash);
    DeliveriesKeepMembers(j.log, TryDeliver(j, now, hash).log);
    Grow(s.log, Joined(c, timeout));
    Grow(s.log, Left(c));
    MembersAre(s);
  }

  lemma MembersAre(s: Queue)
    requires Agrees(s)
    ensures Members(s.log).Keys == ConsumerIds(s.consumers)
  {
    hide Books, InOrder, Routes, Lawful;
  }

  // ---------- delivery after every operation ----------

  /** Nothing can be delivered at `now`. */
  ghost predicate Idle(s: Queue, now: int) {
    s.pending == [] || s.consumers == [] || s.pending[0].visibleAt > now || HeadBlocked(s)
  }

  /** Operations that made something deliverable have delivered it. */
  lemma LeavesIdle(s: Queue, st: Step, hash: Hash)
    requires Agrees(s) && Legal(s, st)
    requires match st.op
             case DoEnqueue(m) => Enqueue(s, m, st.now, hash).1
             case DoEnqueueDirect(_) => true
             case DoConsume(_, _) => true
             case DoAck(id, hookOk) => id in s.inFlight && hookOk
             case DoNack(id, requeue, hookOk) => Nack(s, id, requeue, hookOk, st.now, hash).1 == NackRequeued
             case DoExpire(_) => true
             case _ => false
    ensures Idle(Apply(s, st, hash), st.now)
  {
    hide Agrees, TryDeliver, ExpireAll, HeadBlocked;
    match st.op
    case DoEnqueue(m) => PushAgrees(s, m); DeliverIdle(Push(s, m), st.now, hash);
    case DoEnqueueDirect(m) => PushAgrees(s, m); DeliverIdle(Push(s, m), st.now, hash);
    case DoConsume(c, timeout) => JoinAgrees(s, c, timeout); DeliverIdle(Join(s, c, timeout), st.now, hash);
    case DoAck(id, hookOk) => SettleAgrees(s, id, Acked); DeliverIdle(Settle(s, id, Acked), st.now, hash);
    case DoNack(id, requeue, hookOk) =>
      RequeueAgrees(s, id, st.now, Requeued(id, st.now));
      DeliverIdle(Requeue(s, id, st.now, Requeued(id, st.now)), st.now, hash);
    case DoExpire(order) =>
      ExpireAgrees(s, order, st.now);
      DeliverIdle(ExpireAll(s, order, st.now), st.now, hash);
  }

  lemma DeliverIdle(s: Queue, now: int, hash: Hash)
    requires Agrees(s)
    ensures Idle(TryDeliver(s, now, hash), now)
  {
    hide TryDeliver, Books, InOrder, Lawful, Staffed;
    DeliveryStops(s, now, hash);
  }

  // ---------- whose turn it is ----------

  /** After an unkeyed message went to consumer `i`, the next one goes to the consumer after it if
      that one has room by then, whatever else was received meanwhile. */
  lemma NextInTurn(s: Queue, i: nat, now: int, cs: seq<Consumer>, m: Message)
    requires s.pending != [] && s.pending[0].orderingKey == [] && i < |s.consumers| && |cs| == |s.consumers|
    requires m.orderingKey == [] && cs[(i + 1) % |cs|].ch.None?
    ensures Target(Dispatch(s, i, now).(consumers := cs, pending := [m])) == Some((i + 1) % |cs|)
  {
    var n := |cs|;
    var next := (i + 1) % n;
    DivModOf(0, n, next);
    FirstTry(cs, next);
  }

  lemma FirstTry(cs: seq<Consumer>, i: nat)
    requires i < |cs| && i % |cs| == i && cs[i].ch.None?
    ensures FreeFrom(cs, i, 0) == Some(i)
  {
  }

  /** A key without an owner goes to the consumer its hash picks, whoever had messages before. */
  lemma PlacedByHash(s: Queue, hash: Hash)
    requires s.consumers != [] && s.pending != []
    requires s.pending[0].orderingKey != [] && s.pending[0].orderingKey !in s.keys
    ensures var key := s.pending[0].orderingKey; var a := AssignKey(s, hash);
            key in a.keys && a.keys[key] == s.consumers[hash(key) % |s.consumers|].id && a.keys - {key} == s.keys
  {
  }
}
