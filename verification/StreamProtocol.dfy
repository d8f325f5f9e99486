/**
 A stream's publisher and one consumer's catch-up goroutine, as interleaved steps.

 A publish holds the stream's lock from taking a sequence number to notifying consumers;
 its save is a step of its own. The goroutine takes the lock only to read and to set the
 consumer's offset: it loads from storage and sends to the channel without it. So a batch
 may contain a message whose publisher has saved it but not yet notified anyone.

 `log` is the history of saved messages: the one with sequence number n is log[n - 1].
 `sent` is everything ever put into the consumer's channel, by either side.
 */
module StreamProtocol {
  import opened Types

  datatype Entry = Entry(seqNo: nat, msg: Message)

  datatype Publisher = Idle | Assigned(msg: Message) | Saved(msg: Message)

  datatype CatchUp =
    | Off
    | Looking
    | Loading(from: nat)
    | Sending(batch: seq<Entry>, i: nat)
    | Updating(batch: seq<Entry>, i: nat)

  datatype Stream = Stream(
    log: seq<Message>,
    stored: map<nat, Message>,
    nextSeq: nat,
    publisher: Publisher,
    start: nat,
    offset: nat,
    sent: seq<Entry>,
    received: nat,
    catchUp: CatchUp)

  const CHANNEL_SIZE := 100
  const BATCH_SIZE := 100

  predicate Full(s: Stream) {
    |s.sent| >= s.received + CHANNEL_SIZE
  }

  predicate Ascending(b: seq<Entry>) {
    forall i, j :: 0 <= i < j < |b| ==> b[i].seqNo < b[j].seqNo
  }

  /** What LoadStreamMessages returns: the stored messages from `from` on, in order, up to a
      limit. */
  ghost predicate IsBatch(stored: map<nat, Message>, from: nat, limit: nat, b: seq<Entry>) {
    && Ascending(b) && |b| <= limit
    && (forall i :: 0 <= i < |b| ==> from <= b[i].seqNo && b[i].seqNo in stored && stored[b[i].seqNo] == b[i].msg)
    && (forall n :: n in stored && from <= n ==>
          (exists i :: 0 <= i < |b| && b[i].seqNo == n) || (|b| == limit && (b == [] || b[|b| - 1].seqNo < n)))
  }

  datatype Step =
    | Begin(msg: Message)
    | SaveOk
    | SaveFail
    | Notify
    | StartCatchUp
    | Look
    | Load(batch: seq<Entry>)
    | Send
    | Update
    | Quit
    | Receive
    | Retain(before: nat)

  ghost predicate Enabled(s: Stream, st: Step) {
    match st
    case Begin(_) => s.publisher.Idle?
    case SaveOk => s.publisher.Assigned?
    case SaveFail => s.publisher.Assigned?
    case Notify => s.publisher.Saved?
    case StartCatchUp => s.catchUp.Off?
    case Look => s.catchUp.Looking? && s.publisher.Idle?
    case Load(b) => s.catchUp.Loading? && IsBatch(s.stored, s.catchUp.from, BATCH_SIZE, b)
    case Send => s.catchUp.Sending? && s.catchUp.i < |s.catchUp.batch| && !Full(s)
    case Update => s.catchUp.Updating? && s.catchUp.i < |s.catchUp.batch| && s.publisher.Idle?
    case Quit => s.catchUp.Looking? || s.catchUp.Loading? || s.catchUp.Sending?
    case Receive => s.received < |s.sent|
    case Retain(_) => true
  }

  /** The sequence number the publisher at work is using. */
  function InHand(s: Stream): int {
    s.nextSeq - 1
  }

  ghost function Do(s: Stream, st: Step): Stream
    requires Enabled(s, st)
  {
    match st
    case Begin(m) => s.(publisher := Assigned(m), nextSeq := s.nextSeq + 1)
    case SaveOk =>
      var m := s.publisher.msg;
      s.(publisher := Saved(m), log := s.log + [m],
         stored := if s.nextSeq >= 1 then s.stored[s.nextSeq - 1 := m] else s.stored)
    case SaveFail => s.(publisher := Idle, nextSeq := if s.nextSeq >= 1 then s.nextSeq - 1 else 0)
    case Notify =>
      if s.offset == InHand(s) && !Full(s) then
        s.(publisher := Idle, sent := s.sent + [Entry(s.offset, s.publisher.msg)], offset := s.offset + 1)
      else s.(publisher := Idle)
    case StartCatchUp => s.(catchUp := Looking)
    case Look => s.(catchUp := if s.offset >= s.nextSeq then Off else Loading(s.offset))
    case Load(b) => s.(catchUp := if b == [] then Off else Sending(b, 0))
    case Send => s.(sent := s.sent + [s.catchUp.batch[s.catchUp.i]], catchUp := Updating(s.catchUp.batch, s.catchUp.i))
    case Update =>
      var b, i := s.catchUp.batch, s.catchUp.i;
      s.(offset := b[i].seqNo + 1, catchUp := if i + 1 < |b| then Sending(b, i + 1) else Looking)
    case Quit => s.(catchUp := Off)
    case Receive => s.(received := s.received + 1)
    case Retain(before) => s.(stored := map n | n in s.stored && n >= before :: s.stored[n])
  }

  // ---------- invariant ----------

  /** The entry is the message the stream has under that number. */
  predicate Genuine(s: Stream, e: Entry) {
    1 <= e.seqNo <= |s.log| && s.log[e.seqNo - 1] == e.msg
  }

  /** How many publishes have finished notifying. */
  function Finished(s: Stream): int {
    if s.publisher.Saved? then |s.log| - 1 else |s.log|
  }

  ghost predicate Consistent(s: Stream) {
    && (forall n :: n in s.stored ==> 1 <= n <= |s.log| && s.stored[n] == s.log[n - 1])
    && s.nextSeq == |s.log| + (if s.publisher.Assigned? then 2 else 1)
    && (s.publisher.Saved? ==> s.log != [] && s.publisher.msg == s.log[|s.log| - 1])
  }

  ghost predicate SentOk(s: Stream) {
    && Ascending(s.sent)
    && (forall k :: 0 <= k < |s.sent| ==> Genuine(s, s.sent[k]) && s.start <= s.sent[k].seqNo)
    && s.start <= s.offset
  }

  /** The batch entry in hand comes at or after the offset, and the publisher cannot send
      before the goroutine moves the offset: it has already passed it. */
  ghost predicate InHandOk(s: Stream, b: seq<Entry>, i: nat) {
    && i < |b| && Ascending(b)
    && (forall k :: 0 <= k < |b| ==> Genuine(s, b[k]))
    && s.offset <= b[i].seqNo && s.offset <= Finished(s)
  }

  ghost predicate CatchUpOk(s: Stream) {
    match s.catchUp
    case Off => SentBefore(s, |s.sent|)
    case Looking => SentBefore(s, |s.sent|)
    case Loading(from) => SentBefore(s, |s.sent|) && from == s.offset <= Finished(s)
    case Sending(b, i) => SentBefore(s, |s.sent|) && InHandOk(s, b, i)
    case Updating(b, i) =>
      InHandOk(s, b, i) && s.sent != [] && s.sent[|s.sent| - 1] == b[i] && SentBefore(s, |s.sent| - 1)
  }

  ghost predicate SentBefore(s: Stream, n: nat) {
    n <= |s.sent| && forall k :: 0 <= k < n ==> s.sent[k].seqNo < s.offset
  }

  ghost predicate Inv(s: Stream) {
    Consistent(s) && SentOk(s) && CatchUpOk(s)
  }

  lemma SaveInv(s: Stream)
    requires Inv(s) && s.publisher.Assigned?
    ensures Inv(Do(s, SaveOk))
  {
    var t := Do(s, SaveOk);
    assert forall e: Entry :: Genuine(s, e) ==> Genuine(t, e);
    assert Consistent(t);
    if t.catchUp.Sending? || t.catchUp.Updating? { assert InHandOk(t, t.catchUp.batch, t.catchUp.i); }
  }

  /** A publisher sends only to a consumer that has caught up; then no goroutine has a
      message in hand. */
  lemma NotifyInv(s: Stream)
    requires Inv(s) && s.publisher.Saved?
    ensures Inv(Do(s, Notify))
  {
    var t := Do(s, Notify);
    assert Consistent(t);
    if s.offset == InHand(s) && !Full(s) {
      assert s.catchUp.Off? || s.catchUp.Looking?;
      assert Genuine(t, t.sent[|s.sent|]);
    }
  }

  lemma SendInv(s: Stream)
    requires Inv(s) && Enabled(s, Send)
    ensures Inv(Do(s, Send))
  {
    var t := Do(s, Send);
    assert forall e: Entry :: Genuine(s, e) ==> Genuine(t, e);
    assert Consistent(t) && SentOk(t);
    assert InHandOk(t, t.catchUp.batch, t.catchUp.i);
  }

  lemma UpdateInv(s: Stream)
    requires Inv(s) && Enabled(s, Update)
    ensures Inv(Do(s, Update))
  {
    var t := Do(s, Update);
    var b, i := s.catchUp.batch, s.catchUp.i;
    assert InHandOk(s, b, i);
    assert Consistent(t) && SentOk(t);
    if i + 1 < |b| { assert InHandOk(t, b, i + 1); }
  }

  lemma LoadInv(s: Stream, b: seq<Entry>)
    requires Inv(s) && Enabled(s, Load(b))
    ensures Inv(Do(s, Load(b)))
  {
    var t := Do(s, Load(b));
    assert Consistent(t) && SentOk(t);
    if b != [] { assert InHandOk(t, b, 0); }
  }

  lemma RetainInv(s: Stream, before: nat)
    requires Inv(s)
    ensures Inv(Do(s, Retain(before)))
  {
    var t := Do(s, Retain(before));
    assert Consistent(t) && SentOk(t);
    if s.catchUp.Sending? || s.catchUp.Updating? { assert InHandOk(t, s.catchUp.batch, s.catchUp.i); }
  }

  /** Steps that touch neither the log, nor the offset, nor what was sent. */
  lemma QuietInv(s: Stream, st: Step)
    requires Inv(s) && Enabled(s, st)
    requires st.Begin? || st.SaveFail? || st.StartCatchUp? || st.Look? || st.Quit? || st.Receive?
    ensures Inv(Do(s, st))
  {
    hide Genuine, Ascending, IsBatch;
    var t := Do(s, st);
    assert Consistent(t) && SentOk(t) by { SameHistory(s, t); }
    SameHistory(s, t);
    if t.catchUp.Sending? || t.catchUp.Updating? { assert InHandOk(t, t.catchUp.batch, t.catchUp.i); }
  }

  lemma SameHistory(s: Stream, t: Stream)
    requires s.log == t.log
    ensures forall e: Entry :: Genuine(s, e) <==> Genuine(t, e)
  {
  }

  lemma StepInv(s: Stream, st: Step)
    requires Inv(s) && Enabled(s, st)
    ensures Inv(Do(s, st))
  {
    hide Inv, Enabled;
    match st
    case SaveOk => assert s.publisher.Assigned? by { SaveEnabled(s); } SaveInv(s);
    case Notify => assert s.publisher.Saved? by { NotifyEnabled(s); } NotifyInv(s);
    case Load(b) => LoadInv(s, b);
    case Send => SendInv(s);
    case Update => UpdateInv(s);
    case Retain(before) => RetainInv(s, before);
    case _ => QuietInv(s, st);
  }

  lemma SaveEnabled(s: Stream)
    requires Enabled(s, SaveOk)
    ensures s.publisher.Assigned?
  {
  }

  lemma NotifyEnabled(s: Stream)
    requires Enabled(s, Notify)
    ensures s.publisher.Saved?
  {
  }

  // ---------- without retention: no gap ----------

  ghost predicate Contiguous(b: seq<Entry>, first: nat) {
    forall k :: 0 <= k < |b| ==> b[k].seqNo == first + k
  }

  /** Nothing was ever deleted, and what was sent is start, start + 1, ... up to the offset. */
  ghost predicate Gapless(s: Stream) {
    && (forall n :: 1 <= n <= |s.log| ==> n in s.stored)
    && 1 <= s.start && Contiguous(s.sent, s.start)
    && match s.catchUp
       case Sending(b, i) =>
         i < |b| && Contiguous(b, b[0].seqNo) && b[i].seqNo == s.offset == s.start + |s.sent|
       case Updating(b, i) =>
         i < |b| && Contiguous(b, b[0].seqNo) && b[i].seqNo == s.offset && s.offset + 1 == s.start + |s.sent|
       case _ => s.offset == s.start + |s.sent|
  }

  /** A batch loaded from a whole stream starts at the offset and has no holes. */
  lemma {:induction false} BatchContiguous(s: Stream, from: nat, b: seq<Entry>, k: nat)
    requires Consistent(s) && (forall n :: 1 <= n <= |s.log| ==> n in s.stored)
    requires IsBatch(s.stored, from, BATCH_SIZE, b) && 1 <= from <= |s.log| && k < |b|
    ensures b[k].seqNo == from + k
  {
    if k > 0 { BatchContiguous(s, from, b, k - 1); }
    var n := from + k;
    assert n <= b[k].seqNo;
    assert n in s.stored;
    var i :| 0 <= i < |b| && b[i].seqNo == n;
  }

  lemma LoadGapless(s: Stream, b: seq<Entry>)
    requires Inv(s) && Gapless(s) && Enabled(s, Load(b))
    ensures Gapless(Do(s, Load(b)))
  {
    hide IsBatch, Genuine, Ascending;
    if b != [] {
      forall k | 0 <= k < |b| ensures b[k].seqNo == s.catchUp.from + k {
        BatchContiguous(s, s.catchUp.from, b, k);
      }
    }
  }

  lemma StepGapless(s: Stream, st: Step)
    requires Inv(s) && Gapless(s) && Enabled(s, st) && !st.Retain?
    ensures Gapless(Do(s, st))
  {
    hide IsBatch, Genuine, Ascending;
    match st
    case Load(b) => LoadGapless(s, b);
    case _ =>
  }

  // ---------- runs ----------

  ghost predicate CanRun(s: Stream, steps: seq<Step>)
    decreases |steps|
  {
    steps == [] || (Enabled(s, steps[0]) && CanRun(Do(s, steps[0]), steps[1..]))
  }

  ghost function Run(s: Stream, steps: seq<Step>): Stream
    requires CanRun(s, steps)
    decreases |steps|
  {
    if steps == [] then s else Run(Do(s, steps[0]), steps[1..])
  }

  /** A consumer subscribes, under the stream's lock: at the given number, or at the tail if that
      is 0. The goroutine starts if there is something to catch up with. */
  function Subscribe(s: Stream, startOffset: nat): Stream {
    var at := if startOffset == 0 then s.nextSeq else startOffset;
    s.(start := at, offset := at, sent := [], received := 0,
       catchUp := if 0 < startOffset < s.nextSeq then Looking else Off)
  }

  /** A consumer that has just subscribed to a stream nobody is publishing to. */
  ghost predicate Subscribed(s: Stream) {
    && Consistent(s) && s.publisher.Idle? && (s.catchUp.Off? || s.catchUp.Looking?)
    && s.sent == [] && s.received == 0 && s.offset == s.start && 1 <= s.start
  }

  /** Whatever the offset asked for, someone is responsible for everything from it on. */
  lemma SubscribeStarts(s: Stream, startOffset: nat)
    requires Consistent(s) && s.publisher.Idle?
    ensures var t := Subscribe(s, startOffset);
            && Subscribed(t) && CaughtUp(t) && t.log == s.log && t.stored == s.stored
            && t.start == if startOffset == 0 then |s.log| + 1 else startOffset
  {
  }

  lemma {:induction false} RunInv(s: Stream, steps: seq<Step>)
    requires Inv(s) && CanRun(s, steps)
    ensures Inv(Run(s, steps))
    decreases |steps|
  {
    hide Inv, Enabled, Do;
    if steps != [] {
      StepInv(s, steps[0]);
      RunInv(Do(s, steps[0]), steps[1..]);
    }
  }

  lemma {:induction false} RunGapless(s: Stream, steps: seq<Step>)
    requires Inv(s) && Gapless(s) && CanRun(s, steps)
    requires forall i :: 0 <= i < |steps| ==> !steps[i].Retain?
    ensures Gapless(Run(s, steps))
    decreases |steps|
  {
    hide Inv, Gapless, Enabled, Do;
    if steps != [] {
      StepInv(s, steps[0]);
      StepGapless(s, steps[0]);
      RunGapless(Do(s, steps[0]), steps[1..]);
    }
  }

  /** Every interleaving, with retention deleting whatever it likes: the numbers sent to the
      consumer strictly increase, and each comes with the message published under it. */
  lemma SentInOrder(s: Stream, steps: seq<Step>)
    requires Subscribed(s) && CanRun(s, steps)
    ensures var t := Run(s, steps);
            && Ascending(t.sent)
            && forall k :: 0 <= k < |t.sent| ==> Genuine(t, t.sent[k]) && s.start <= t.sent[k].seqNo
  {
    RunInv(s, steps);
    StartKept(s, steps);
  }

  lemma {:induction false} StartKept(s: Stream, steps: seq<Step>)
    requires CanRun(s, steps)
    ensures Run(s, steps).start == s.start
    decreases |steps|
  {
    if steps != [] { StartKept(Do(s, steps[0]), steps[1..]); }
  }

  lemma SentEntry(t: Stream, k: nat)
    requires Inv(t) && Gapless(t) && k < |t.sent|
    ensures t.sent[k].seqNo == t.start + k && t.start + k <= |t.log| && t.sent[k].msg == t.log[t.start + k - 1]
  {
    assert Genuine(t, t.sent[k]);
  }

  /** Without retention the consumer gets the log itself from its starting point on: no gap,
      no duplicate, no message out of place. */
  lemma SentIsTheLog(s: Stream, steps: seq<Step>)
    requires Subscribed(s) && CanRun(s, steps)
    requires forall n :: 1 <= n <= |s.log| ==> n in s.stored
    requires forall i :: 0 <= i < |steps| ==> !steps[i].Retain?
    ensures var t := Run(s, steps);
            forall k :: 0 <= k < |t.sent| ==>
              && t.sent[k].seqNo == s.start + k && s.start + k <= |t.log|
              && t.sent[k].msg == t.log[s.start + k - 1]
  {
    hide Run, CanRun;
    assert Inv(s) && Gapless(s);
    hide Inv, Gapless;
    RunInv(s, steps);
    RunGapless(s, steps);
    StartKept(s, steps);
    var t := Run(s, steps);
    forall k | 0 <= k < |t.sent|
      ensures && t.sent[k].seqNo == s.start + k && s.start + k <= |t.log|
              && t.sent[k].msg == t.log[s.start + k - 1]
    {
      SentEntry(t, k);
    }
  }

  // ---------- nothing is left unsent ----------

  /** With no goroutine at work, the consumer's offset is past every finished publish. */
  ghost predicate CaughtUp(s: Stream) {
    s.catchUp.Off? ==> s.offset > Finished(s)
  }

  /** A publisher finds the consumer at its number and the channel full, and nobody is catching up. */
  ghost predicate Skips(s: Stream, st: Step) {
    st.Notify? && s.catchUp.Off? && s.offset == InHand(s) && Full(s)
  }

  /** A publisher sends its own message, and nothing else, to a consumer that is at its number
      and has room, and nothing to any other. */
  lemma NotifySends(s: Stream)
    requires Inv(s) && s.publisher.Saved?
    ensures var t := Do(s, Notify);
            if s.offset == |s.log| && !Full(s)
            then t.sent == s.sent + [Entry(|s.log|, s.log[|s.log| - 1])] && t.offset == |s.log| + 1
            else t.sent == s.sent && t.offset == s.offset
  {
  }

  /** A batch loaded from a whole stream is not empty and begins at the offset. */
  lemma LoadBrings(s: Stream, b: seq<Entry>)
    requires Inv(s) && Gapless(s) && Enabled(s, Load(b))
    ensures b != [] && b[0].seqNo == s.offset && b[0].msg == s.log[s.offset - 1]
  {
    var from := s.catchUp.from;
    assert from in s.stored;
    if b != [] {
      BatchContiguous(s, from, b, 0);
    }
  }

  /** A goroutine that ends by itself has sent everything. */
  lemma EndsCaughtUp(s: Stream, st: Step)
    requires Inv(s) && Gapless(s) && Enabled(s, st) && (st.Look? || st.Load?) && Do(s, st).catchUp.Off?
    ensures s.start + |s.sent| >= |s.log| + 1
  {
    hide IsBatch;
    if st.Load? { LoadBrings(s, st.batch); }
  }

  /** A step keeps the consumer caught up if and only if it does not skip it. */
  lemma StepCaughtUp(s: Stream, st: Step)
    requires Inv(s) && Gapless(s) && CaughtUp(s) && Enabled(s, st) && !st.Retain? && !st.Quit?
    ensures CaughtUp(Do(s, st)) <==> !Skips(s, st)
  {
    hide IsBatch, Genuine, Ascending;
    if st.Load? { LoadBrings(s, st.batch); }
  }

  /** Left behind, with nobody catching up. */
  ghost predicate LeftBehind(s: Stream) {
    s.catchUp.Off? && s.offset <= Finished(s)
  }

  lemma StepLeftBehind(s: Stream, st: Step)
    requires Inv(s) && LeftBehind(s) && Enabled(s, st) && !st.StartCatchUp?
    ensures LeftBehind(Do(s, st)) && Do(s, st).sent == s.sent && Do(s, st).offset == s.offset
  {
    hide IsBatch, Genuine, Ascending;
  }

  /** A consumer left behind is never sent anything again, unless a seek starts a goroutine. */
  lemma {:induction false} LeftBehindForever(s: Stream, steps: seq<Step>)
    requires Inv(s) && LeftBehind(s) && CanRun(s, steps)
    requires forall i :: 0 <= i < |steps| ==> !steps[i].StartCatchUp?
    ensures LeftBehind(Run(s, steps)) && Run(s, steps).sent == s.sent
    decreases |steps|
  {
    hide Inv, Enabled, Do, LeftBehind;
    if steps != [] {
      StepInv(s, steps[0]);
      StepLeftBehind(s, steps[0]);
      LeftBehindForever(Do(s, steps[0]), steps[1..]);
    }
  }

  lemma {:induction false} RunMore(s: Stream, a: seq<Step>, b: seq<Step>)
    requires CanRun(s, a) && CanRun(Run(s, a), b)
    ensures CanRun(s, a + b) && Run(s, a + b) == Run(Run(s, a), b)
    decreases |a|
  {
    hide Enabled, Do;
    if a == [] {
      assert a + b == b;
    } else {
      RunMore(Do(s, a[0]), a[1..], b);
      assert (a + b)[1..] == a[1..] + b;
    }
  }

  /** A new stream and a consumer at its tail. */
  const QUIET := Stream([], map[], 1, Idle, 1, 1, [], 0, Off)

  /** After n publishes that nobody received: n messages in the channel, or as many as it holds. */
  ghost predicate Unreceived(s: Stream, n: nat) {
    && Consistent(s) && s.publisher.Idle? && s.catchUp.Off? && |s.log| == n && s.received == 0
    && |s.sent| == (if n <= CHANNEL_SIZE then n else CHANNEL_SIZE) && s.offset == |s.sent| + 1
  }

  lemma PublishOne(s: Stream, m: Message, n: nat)
    requires Unreceived(s, n)
    ensures CanRun(s, [Begin(m), SaveOk, Notify]) && Unreceived(Run(s, [Begin(m), SaveOk, Notify]), n + 1)
  {
    var a := Do(s, Begin(m));
    var b := Do(a, SaveOk);
    assert CanRun(Do(b, Notify), []) && Run(Do(b, Notify), []) == Do(b, Notify);
    assert [Notify][1..] == [] && [SaveOk, Notify][1..] == [Notify];
    assert [Begin(m), SaveOk, Notify][1..] == [SaveOk, Notify];
    assert CanRun(b, [Notify]) && Run(b, [Notify]) == Do(b, Notify);
    assert CanRun(a, [SaveOk, Notify]) && Run(a, [SaveOk, Notify]) == Do(b, Notify);
  }

  lemma {:induction false} PublishMany(m: Message, n: nat) returns (steps: seq<Step>)
    ensures CanRun(QUIET, steps) && Unreceived(Run(QUIET, steps), n)
  {
    hide Run, CanRun, Unreceived;
    if n == 0 {
      steps := [];
      NothingPublished();
    } else {
      var p := PublishMany(m, n - 1);
      PublishOne(Run(QUIET, p), m, n - 1);
      RunMore(QUIET, p, [Begin(m), SaveOk, Notify]);
      steps := p + [Begin(m), SaveOk, Notify];
    }
  }

  lemma NothingPublished()
    ensures CanRun(QUIET, []) && Run(QUIET, []) == QUIET && Unreceived(QUIET, 0)
  {
  }

  /** A hundred and one publishes before the consumer receives leave it behind, whatever it
      receives afterwards. */
  lemma FullChannelLeavesBehind(m: Message) returns (steps: seq<Step>)
    ensures CanRun(QUIET, steps) && LeftBehind(Run(QUIET, steps))
  {
    hide Run, CanRun;
    steps := PublishMany(m, CHANNEL_SIZE + 1);
  }

  ghost predicate NeverSkips(s: Stream, steps: seq<Step>)
    requires CanRun(s, steps)
    decreases |steps|
  {
    steps == [] || (!Skips(s, steps[0]) && NeverSkips(Do(s, steps[0]), steps[1..]))
  }

  /** Over every run of one subscription, without retention and until the consumer leaves: it is
      caught up whenever no goroutine is at work, if and only if no publisher ever found it at the
      tail with a full channel and nobody catching up. */
  lemma {:induction false} CaughtUpIff(s: Stream, steps: seq<Step>)
    requires Inv(s) && Gapless(s) && CaughtUp(s) && CanRun(s, steps)
    requires forall i :: 0 <= i < |steps| ==> !steps[i].Retain? && !steps[i].Quit? && !steps[i].StartCatchUp?
    ensures CaughtUp(Run(s, steps)) <==> NeverSkips(s, steps)
    decreases |steps|
  {
    hide Inv, Gapless, Enabled, Do, Skips;
    if steps != [] {
      var t := Do(s, steps[0]);
      StepInv(s, steps[0]);
      StepGapless(s, steps[0]);
      StepCaughtUp(s, steps[0]);
      if Skips(s, steps[0]) {
        LeftBehindForever(t, steps[1..]);
      } else {
        CaughtUpIff(t, steps[1..]);
      }
    }
  }

  /** So a consumer nobody skipped has, once the goroutine is done and no publish is under way,
      been sent the whole log from its starting point on. */
  lemma WholeLogSent(s: Stream, steps: seq<Step>)
    requires Subscribed(s) && CaughtUp(s) && CanRun(s, steps) && NeverSkips(s, steps)
    requires forall n :: 1 <= n <= |s.log| ==> n in s.stored
    requires forall i :: 0 <= i < |steps| ==> !steps[i].Retain? && !steps[i].Quit? && !steps[i].StartCatchUp?
    ensures var t := Run(s, steps);
            t.catchUp.Off? && t.publisher.Idle? && s.start <= |t.log| + 1
            ==> && |t.sent| == |t.log| + 1 - s.start
                && forall k :: 0 <= k < |t.sent| ==> t.sent[k] == Entry(s.start + k, t.log[s.start + k - 1])
  {
    hide Run, CanRun, NeverSkips;
    var t := Run(s, steps);
    SentIsTheLog(s, steps);
    RunGapless(s, steps);
    StartKept(s, steps);
    CaughtUpIff(s, steps);
    if t.sent != [] { assert t.sent[|t.sent| - 1].seqNo == s.start + (|t.sent| - 1); }
  }

  /** The channel never holds more than it has room for. */
  lemma {:induction false} ChannelBounded(s: Stream, steps: seq<Step>)
    requires s.received <= |s.sent| <= s.received + CHANNEL_SIZE && CanRun(s, steps)
    ensures var t := Run(s, steps); t.received <= |t.sent| <= t.received + CHANNEL_SIZE
    decreases |steps|
  {
    hide IsBatch;
    if steps != [] { ChannelBounded(Do(s, steps[0]), steps[1..]); }
  }
}
