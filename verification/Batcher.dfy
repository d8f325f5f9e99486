/**
 The write batcher: callers put requests into a channel and wait; one loop collects them and
 writes whole batches. A flush writes its batch or nothing, and tells every caller which.
 */
module Batcher {
  import opened Types

  type Table = map<Bytes, Bytes>

  /** `caller` is whoever waits on the request's own channel. */
  datatype Request = Request(caller: nat, key: Bytes, data: Bytes)

  /** What a caller is told. */
  datatype Answer = Answer(request: Request, ok: bool)

  /** One flush: its batch and whether the database took it. */
  datatype Flushed = Flushed(batch: seq<Request>, ok: bool)

  datatype Snapshot = Snapshot(
    inbox: seq<Request>,
    batch: seq<Request>,
    db: Table,
    answers: seq<Answer>,
    closed: bool,
    stopped: bool,
    submitted: seq<Request>,
    flushes: seq<Flushed>)

  /** A write batch: later sets of a key win. */
  function Writes(batch: seq<Request>): Table {
    if batch == [] then map[] else Writes(batch[..|batch| - 1])[batch[|batch| - 1].key := batch[|batch| - 1].data]
  }

  function Told(batch: seq<Request>, ok: bool): seq<Answer> {
    seq(|batch|, i requires 0 <= i < |batch| => Answer(batch[i], ok))
  }

  function AfterFlush(s: Snapshot, ok: bool): Snapshot {
    s.(batch := [], db := if ok then s.db + Writes(s.batch) else s.db,
       answers := s.answers + Told(s.batch, ok), flushes := s.flushes + [Flushed(s.batch, ok)])
  }

  datatype Event =
    | Submit(request: Request)
    | Receive(ok: bool)
    | Timer(ok: bool)
    | Close
    | Drain(ok: bool)

  /** Submitting blocks while the channel is full, and is refused once closed; the loop receives
      only what is there and drains only once closed; nothing follows its return. */
  predicate Enabled(s: Snapshot, maxSize: nat, e: Event) {
    && !s.stopped
    && match e
       case Submit(_) => !s.closed && |s.inbox| < 2 * maxSize
       case Receive(_) => s.inbox != []
       case Timer(_) => true
       case Close => !s.closed
       case Drain(_) => s.closed
  }

  function Step(s: Snapshot, maxSize: nat, e: Event): Snapshot
    requires Enabled(s, maxSize, e)
  {
    match e
    case Submit(r) => s.(inbox := s.inbox + [r], submitted := s.submitted + [r])
    case Receive(ok) =>
      var got := s.(inbox := s.inbox[1..], batch := s.batch + [s.inbox[0]]);
      if |got.batch| >= maxSize then AfterFlush(got, ok) else got
    case Timer(ok) => if s.batch != [] then AfterFlush(s, ok) else s
    case Close => s.(closed := true)
    case Drain(ok) =>
      var got := s.(inbox := [], batch := s.batch + s.inbox, stopped := true);
      if got.batch != [] then AfterFlush(got, ok) else got
  }

  // ---------- the object ----------

  /** How the database treats a batch: a set that fails, or the flush at the end. */
  datatype Fate = Fate(failingSet: Option<nat>, flushes: bool)

  predicate Succeeds(f: Fate, n: nat) {
    f.flushes && (f.failingSet.None? || f.failingSet.value >= n)
  }

  class WriteBatcher {
    const maxSize: nat
    var db: Table
    var inbox: seq<Request>
    var batch: seq<Request>
    var answers: seq<Answer>
    var closed: bool
    var stopped: bool
    ghost var submitted: seq<Request>
    ghost var flushes: seq<Flushed>

    ghost function State(): Snapshot
      reads this
    {
      Snapshot(inbox, batch, db, answers, closed, stopped, submitted, flushes)
    }

    constructor (db: Table, maxSize: nat)
      ensures State() == Snapshot([], [], db, [], false, false, [], []) && this.maxSize == maxSize
    {
      this.db, this.maxSize := db, maxSize;
      inbox, batch, answers, closed, stopped, submitted, flushes := [], [], [], false, false, [], [];
    }

    /** Returns whether the request went in; its answer comes later. */
    method Submit(request: Request) returns (queued: bool)
      requires closed || Enabled(State(), maxSize, Event.Submit(request))
      modifies this
      ensures queued == !old(closed)
      ensures State() == if queued then Step(old(State()), maxSize, Event.Submit(request)) else old(State())
    {
      if closed { return false; }
      inbox, submitted := inbox + [request], submitted + [request];
      return true;
    }

    method Flush(fate: Fate)
      modifies this
      ensures State() == AfterFlush(old(State()), Succeeds(fate, |old(batch)|))
    {
      var wb: Table := map[];
      var ok := true;
      var i := 0;
      while i < |batch| && ok
        invariant 0 <= i <= |batch|
        invariant ok ==> wb == Writes(batch[..i])
        invariant ok <==> (fate.failingSet.None? || fate.failingSet.value >= i || fate.failingSet.value >= |batch|)
        invariant !ok ==> fate.failingSet.Some? && fate.failingSet.value < |batch|
        decreases |batch| - i, ok
      {
        if fate.failingSet == Some(i) {
          ok := false;
        } else {
          assert batch[..i + 1][..i] == batch[..i];
          wb := wb[batch[i].key := batch[i].data];
        }
        i := i + 1;
      }
      assert ok ==> batch[..i] == batch;
      ok := ok && fate.flushes;
      if ok { db := db + wb; }
      i := 0;
      while i < |batch|
        invariant 0 <= i <= |batch| && batch == old(batch) && answers == old(answers) + Told(batch[..i], ok)
        invariant db == old(if ok then db + Writes(batch) else db)
        invariant inbox == old(inbox) && closed == old(closed) && stopped == old(stopped)
        invariant submitted == old(submitted) && flushes == old(flushes)
      {
        assert Told(batch[..i + 1], ok) == Told(batch[..i], ok) + [Answer(batch[i], ok)];
        answers := answers + [Answer(batch[i], ok)];
        i := i + 1;
      }
      assert batch[..i] == batch;
      flushes := flushes + [Flushed(batch, ok)];
      batch := [];
    }

    method Receive(fate: Fate)
      requires Enabled(State(), maxSize, Event.Receive(true))
      modifies this
      ensures State() == Step(old(State()), maxSize, Event.Receive(Succeeds(fate, |old(batch)| + 1)))
    {
      var request := inbox[0];
      inbox, batch := inbox[1..], batch + [request];
      if |batch| >= maxSize { Flush(fate); }
    }

    method Timer(fate: Fate)
      requires Enabled(State(), maxSize, Event.Timer(true))
      modifies this
      ensures State() == Step(old(State()), maxSize, Event.Timer(Succeeds(fate, |old(batch)|)))
    {
      if |batch| > 0 { Flush(fate); }
    }

    method Close()
      requires Enabled(State(), maxSize, Event.Close)
      modifies this
      ensures State() == Step(old(State()), maxSize, Event.Close)
    {
      closed := true;
    }

    method Drain(fate: Fate)
      requires Enabled(State(), maxSize, Event.Drain(true))
      modifies this
      ensures State() == Step(old(State()), maxSize, Event.Drain(Succeeds(fate, |old(batch)| + |old(inbox)|)))
    {
      stopped := true;
      while inbox != []
        invariant batch + inbox == old(batch + inbox)
        invariant db == old(db) && answers == old(answers) && closed == old(closed) && stopped
        invariant submitted == old(submitted) && flushes == old(flushes)
        decreases |inbox|
      {
        inbox, batch := inbox[1..], batch + [inbox[0]];
      }
      assert batch == old(batch + inbox);
      if |batch| > 0 { Flush(fate); }
    }
  }

  // ---------- whole runs ----------

  function Initial(db: Table): Snapshot {
    Snapshot([], [], db, [], false, false, [], [])
  }

  ghost predicate LegalRun(s: Snapshot, maxSize: nat, events: seq<Event>)
    decreases |events|
  {
    events != [] ==> Enabled(s, maxSize, events[0]) && LegalRun(Step(s, maxSize, events[0]), maxSize, events[1..])
  }

  ghost function Run(s: Snapshot, maxSize: nat, events: seq<Event>): Snapshot
    requires LegalRun(s, maxSize, events)
    decreases |events|
  {
    if events == [] then s else Run(Step(s, maxSize, events[0]), maxSize, events[1..])
  }

  function Batches(flushes: seq<Flushed>): seq<Request> {
    if flushes == [] then [] else Batches(flushes[..|flushes| - 1]) + flushes[|flushes| - 1].batch
  }

  function Outcomes(flushes: seq<Flushed>): seq<Answer> {
    if flushes == [] then []
    else Outcomes(flushes[..|flushes| - 1]) + Told(flushes[|flushes| - 1].batch, flushes[|flushes| - 1].ok)
  }

  /** No batching at all: each request told ok is one write. */
  function Direct(db: Table, answers: seq<Answer>): Table {
    if answers == [] then db
    else
      var before, a := Direct(db, answers[..|answers| - 1]), answers[|answers| - 1];
      if a.ok then before[a.request.key := a.request.data] else before
  }

  /** Requests move in order from channel to batch to flush; the answers are the flushes'
      outcomes; the database is what one write at a time would have made it. */
  ghost predicate Inv(s: Snapshot, maxSize: nat, db0: Table) {
    && Batches(s.flushes) + s.batch + s.inbox == s.submitted
    && s.answers == Outcomes(s.flushes)
    && s.db == Direct(db0, s.answers)
    && |s.inbox| <= 2 * maxSize
    && (!s.stopped ==> |s.batch| < maxSize || s.batch == [])
    && (s.stopped ==> s.batch == [] && s.inbox == [])
  }

  lemma {:induction false} DirectBatch(db0: Table, done: seq<Answer>, batch: seq<Request>, ok: bool)
    ensures Direct(db0, done + Told(batch, ok)) ==
            if ok then Direct(db0, done) + Writes(batch) else Direct(db0, done)
  {
    var all := done + Told(batch, ok);
    if batch == [] {
      assert all == done;
    } else {
      var n := |batch| - 1;
      DirectBatch(db0, done, batch[..n], ok);
      assert all[..|all| - 1] == done + Told(batch[..n], ok);
    }
  }

  /** A flush takes the batch over, whatever the inbox. */
  lemma FlushInv(s: Snapshot, ok: bool, db0: Table)
    requires Batches(s.flushes) + s.batch + s.inbox == s.submitted
    requires s.answers == Outcomes(s.flushes) && s.db == Direct(db0, s.answers)
    ensures var t := AfterFlush(s, ok);
            && Batches(t.flushes) + t.batch + t.inbox == t.submitted
            && t.answers == Outcomes(t.flushes) && t.db == Direct(db0, t.answers)
  {
    hide Direct, Writes;
    DirectBatch(db0, s.answers, s.batch, ok);
    var more := s.flushes + [Flushed(s.batch, ok)];
    assert more[..|more| - 1] == s.flushes;
    assert Batches(more) + [] == Batches(s.flushes) + s.batch;
  }

  lemma MovesOver(before: seq<Request>, batch: seq<Request>, inbox: seq<Request>)
    requires inbox != []
    ensures before + (batch + [inbox[0]]) + inbox[1..] == before + batch + inbox
  {
  }

  lemma StepInv(s: Snapshot, maxSize: nat, e: Event, db0: Table)
    requires Inv(s, maxSize, db0) && Enabled(s, maxSize, e)
    ensures Inv(Step(s, maxSize, e), maxSize, db0)
  {
    hide Direct, Writes, Batches, Outcomes, Told;
    match e
    case Submit(r) =>
      assert Batches(s.flushes) + s.batch + (s.inbox + [r]) == s.submitted + [r];
    case Receive(ok) =>
      var got := s.(inbox := s.inbox[1..], batch := s.batch + [s.inbox[0]]);
      MovesOver(Batches(s.flushes), s.batch, s.inbox);
      FlushInv(got, ok, db0);
    case Timer(ok) => FlushInv(s, ok, db0);
    case Close =>
    case Drain(ok) =>
      var got := s.(inbox := [], batch := s.batch + s.inbox, stopped := true);
      assert Batches(s.flushes) + got.batch + [] == s.submitted;
      FlushInv(got, ok, db0);
  }

  lemma {:induction false} RunInv(s: Snapshot, maxSize: nat, events: seq<Event>, db0: Table)
    requires Inv(s, maxSize, db0) && LegalRun(s, maxSize, events)
    ensures Inv(Run(s, maxSize, events), maxSize, db0)
    decreases |events|
  {
    hide Inv, Step, Enabled;
    if events != [] {
      StepInv(s, maxSize, events[0], db0);
      RunInv(Step(s, maxSize, events[0]), maxSize, events[1..], db0);
    }
  }

  lemma RefinesDirectWrites(db0: Table, maxSize: nat, events: seq<Event>)
    requires LegalRun(Initial(db0), maxSize, events)
    ensures Inv(Run(Initial(db0), maxSize, events), maxSize, db0)
  {
    RunInv(Initial(db0), maxSize, events, db0);
  }

  lemma {:induction false} OutcomesInOrder(flushes: seq<Flushed>)
    ensures |Outcomes(flushes)| == |Batches(flushes)|
    ensures forall i :: 0 <= i < |Outcomes(flushes)| ==> Outcomes(flushes)[i].request == Batches(flushes)[i]
  {
    if flushes != [] { OutcomesInOrder(flushes[..|flushes| - 1]); }
  }

  /** So at any time the answers go to the first requests submitted, one each and in order; and
      once the loop has returned, to all of them. */
  lemma EveryoneAnsweredOnce(db0: Table, maxSize: nat, events: seq<Event>)
    requires LegalRun(Initial(db0), maxSize, events)
    ensures var s := Run(Initial(db0), maxSize, events);
            && |s.answers| <= |s.submitted|
            && (forall i :: 0 <= i < |s.answers| ==> s.answers[i].request == s.submitted[i])
            && (s.stopped ==> |s.answers| == |s.submitted|)
  {
    RefinesDirectWrites(db0, maxSize, events);
    var s := Run(Initial(db0), maxSize, events);
    OutcomesInOrder(s.flushes);
    assert forall i :: 0 <= i < |Batches(s.flushes)| ==> s.submitted[i] == Batches(s.flushes)[i];
  }

  /** Answers, batch and channel make up what was submitted, in this order. */
  lemma Accounted(s: Snapshot, maxSize: nat, db0: Table)
    requires Inv(s, maxSize, db0)
    ensures |s.answers| + |s.batch| + |s.inbox| == |s.submitted|
    ensures forall i :: 0 <= i < |s.answers| ==> s.answers[i].request == s.submitted[i]
  {
    OutcomesInOrder(s.flushes);
    assert forall i :: 0 <= i < |Batches(s.flushes)| ==> s.submitted[i] == Batches(s.flushes)[i];
  }

  /** The timer, a batch that is full and the end of the loop leave nobody the loop has received
      without an answer; the end of the loop has received everybody. */
  lemma LoopAnswers(s: Snapshot, maxSize: nat, e: Event, db0: Table)
    requires Inv(s, maxSize, db0) && Enabled(s, maxSize, e)
    requires e.Timer? || e.Drain? || (e.Receive? && |s.batch| + 1 >= maxSize)
    ensures var t := Step(s, maxSize, e);
            && t.batch == [] && |t.answers| + |t.inbox| == |t.submitted| && t.submitted == s.submitted
            && (forall i :: 0 <= i < |t.answers| ==> t.answers[i].request == t.submitted[i])
            && |t.inbox| == (if e.Timer? then |s.inbox| else if e.Receive? then |s.inbox| - 1 else 0)
            && (t.stopped <==> e.Drain?)
  {
    hide Inv;
    StepInv(s, maxSize, e, db0);
    Accounted(Step(s, maxSize, e), maxSize, db0);
    BatchFlushed(s, maxSize, e);
  }

  lemma BatchFlushed(s: Snapshot, maxSize: nat, e: Event)
    requires Enabled(s, maxSize, e) && (e.Timer? || e.Drain? || (e.Receive? && |s.batch| + 1 >= maxSize))
    ensures var t := Step(s, maxSize, e);
            && t.batch == [] && t.submitted == s.submitted && (t.stopped <==> e.Drain?)
            && |t.inbox| == (if e.Timer? then |s.inbox| else if e.Receive? then |s.inbox| - 1 else 0)
  {
  }
}
