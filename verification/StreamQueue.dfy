/**
 The stream queue: numbering, restart, and retention by age and by size.
 */
module StreamQueue {
  import opened Types
  import opened StreamKeys
  import opened StreamProtocol
  import opened StreamStorage

  // ---------- payload totals ----------

  type Stored = map<nat, Message>

  ghost function SizeAt(log: Stored, n: nat): nat {
    if n in log then |log[n].payload| else 0
  }

  /** Payload bytes of the messages numbered lo up to but not including hi. */
  ghost function BytesIn(log: Stored, lo: nat, hi: nat): nat
    decreases hi
  {
    if hi <= lo then 0 else BytesIn(log, lo, hi - 1) + SizeAt(log, hi - 1)
  }

  ghost function TotalBytes(log: Stored): nat {
    BytesIn(log, 0, U64)
  }

  lemma {:induction false} BytesSplit(log: Stored, lo: nat, mid: nat, hi: nat)
    requires lo <= mid <= hi
    ensures BytesIn(log, lo, hi) == BytesIn(log, lo, mid) + BytesIn(log, mid, hi)
    decreases hi
  {
    if mid < hi { BytesSplit(log, lo, mid, hi - 1); }
  }

  lemma {:induction false} NoBytes(log: Stored, lo: nat, hi: nat)
    requires forall n :: lo <= n < hi ==> n !in log
    ensures BytesIn(log, lo, hi) == 0
    decreases hi
  {
    if lo < hi { NoBytes(log, lo, hi - 1); }
  }

  lemma {:induction false} SameBytes(log: Stored, other: Stored, lo: nat, hi: nat)
    requires forall n: nat :: lo <= n < hi ==> SizeAt(log, n) == SizeAt(other, n)
    ensures BytesIn(log, lo, hi) == BytesIn(other, lo, hi)
    decreases hi
  {
    if lo < hi { SameBytes(log, other, lo, hi - 1); }
  }

  /** All of the log lies in [lo, hi). */
  ghost predicate Within(log: Stored, lo: nat, hi: nat) {
    forall n :: n in log ==> lo <= n < hi
  }

  lemma TotalWithin(log: Stored, lo: nat, hi: nat)
    requires lo <= hi <= U64 && Within(log, lo, hi)
    ensures TotalBytes(log) == BytesIn(log, lo, hi)
  {
    BytesSplit(log, 0, lo, U64);
    BytesSplit(log, lo, hi, U64);
    NoBytes(log, 0, lo);
    NoBytes(log, hi, U64);
  }

  lemma TailBytes(log: Stored, cut: nat, hi: nat)
    requires cut <= hi <= U64 && Within(log, 0, hi)
    ensures TotalBytes(Tail(log, cut)) == BytesIn(log, cut, hi)
  {
    TotalWithin(Tail(log, cut), cut, hi);
    SameBytes(Tail(log, cut), log, cut, hi);
  }

  // ---------- one window of the size scan ----------

  const WINDOW := 100

  ghost function SumFrom(msgs: seq<Entry>, i: nat): nat
    requires i <= |msgs|
    decreases |msgs| - i
  {
    if i == |msgs| then 0 else |msgs[i].msg.payload| + SumFrom(msgs, i + 1)
  }

  /** Where the part of the window that msgs[i..] accounts for begins. */
  ghost function Floor(msgs: seq<Entry>, start: nat, i: nat): nat
    requires i <= |msgs|
  {
    if i == 0 then start else msgs[i - 1].seqNo + 1
  }

  lemma {:induction false} AscendingGrows(msgs: seq<Entry>, start: nat, k: nat)
    requires Ascending(msgs) && k < |msgs| && msgs[0].seqNo >= start
    ensures msgs[k].seqNo >= start + k
  {
    if k > 0 { AscendingGrows(msgs, start, k - 1); }
  }

  /** A window no wider than the batch limit is loaded whole. */
  lemma InBatch(log: Stored, start: nat, top: nat, msgs: seq<Entry>, n: nat) returns (k: nat)
    requires IsBatch(log, start, WINDOW, msgs) && top < start + WINDOW && start <= n <= top && n in log
    ensures k < |msgs| && msgs[k].seqNo == n
  {
    if |msgs| == WINDOW { AscendingGrows(msgs, start, WINDOW - 1); }
    k :| 0 <= k < |msgs| && msgs[k].seqNo == n;
  }

  /** Between two neighbours of a batch, and after its last entry up to the window's end,
      nothing is stored. */
  lemma NothingBetween(log: Stored, start: nat, top: nat, msgs: seq<Entry>, i: nat)
    requires IsBatch(log, start, WINDOW, msgs) && top < start + WINDOW && i <= |msgs|
    ensures forall n :: n in log && Floor(msgs, start, i) <= n <= top ==> i < |msgs| && msgs[i].seqNo <= n
  {
    forall n | n in log && Floor(msgs, start, i) <= n <= top ensures i < |msgs| && msgs[i].seqNo <= n {
      assert start <= n by { if i > 0 { assert start <= msgs[i - 1].seqNo; } }
      var k := InBatch(log, start, top, msgs, n);
      assert i <= k;
    }
  }

  /** The entries from i on account for every stored message from their floor to the top. */
  lemma {:induction false} WindowCovers(log: Stored, start: nat, top: nat, msgs: seq<Entry>, i: nat)
    requires IsBatch(log, start, WINDOW, msgs) && top < start + WINDOW && i <= |msgs|
    ensures BytesIn(log, Floor(msgs, start, i), top + 1) <= SumFrom(msgs, i)
    decreases |msgs| - i
  {
    hide IsBatch, Ascending;
    var lo := Floor(msgs, start, i);
    NothingBetween(log, start, top, msgs, i);
    if i < |msgs| && msgs[i].seqNo <= top {
      BatchAt(log, start, msgs, i);
      var n := msgs[i].seqNo;
      WindowCovers(log, start, top, msgs, i + 1);
      BytesSplit(log, lo, n, top + 1);
      BytesSplit(log, n, n + 1, top + 1);
      NoBytes(log, lo, n);
      assert BytesIn(log, n, n + 1) == BytesIn(log, n, n) + SizeAt(log, n);
    } else {
      NoBytes(log, lo, top + 1);
    }
  }

  lemma BatchAt(log: Stored, start: nat, msgs: seq<Entry>, i: nat)
    requires IsBatch(log, start, WINDOW, msgs) && i < |msgs|
    ensures Floor(msgs, start, i) <= msgs[i].seqNo && SizeAt(log, msgs[i].seqNo) == |msgs[i].msg.payload|
  {
  }

  // ---------- the whole size scan ----------

  /** The scan visits windows of 100 numbers downwards from the newest. The 64-bit subtraction
      that finds a window's start stays above zero for all of them exactly under this test. */
  predicate NoUnderflow(oldest: nat, newest: nat) {
    newest % WINDOW == WINDOW - 1 || newest % WINDOW < oldest
  }

  /** Of the first `limit` messages stored from `from` on, below `hi`: the payload bytes of those
      numbered `c` or higher. */
  ghost function FirstBytes(log: Stored, from: nat, hi: nat, limit: nat, c: nat): nat
    decreases hi - from
  {
    if hi <= from || limit == 0 then 0
    else if from in log then
      (if from >= c then SizeAt(log, from) else 0) + FirstBytes(log, from + 1, hi, limit - 1, c)
    else FirstBytes(log, from + 1, hi, limit, c)
  }

  lemma {:induction false} SumTail(msgs: seq<Entry>, i: nat)
    requires msgs != [] && i < |msgs|
    ensures SumFrom(msgs[1..], i) == SumFrom(msgs, i + 1)
    decreases |msgs| - i
  {
    if i + 1 < |msgs| { SumTail(msgs, i + 1); }
  }

  /** The entries from `i` on are those numbered `c` or higher. */
  ghost predicate SplitsAt(msgs: seq<Entry>, i: nat, c: nat) {
    && i <= |msgs| && (forall k :: 0 <= k < i ==> msgs[k].seqNo < c)
    && (forall k :: i <= k < |msgs| ==> msgs[k].seqNo >= c)
  }

  /** What a batch adds up to from one of its entries on. */
  lemma {:induction false} BatchBytes(log: Stored, from: nat, hi: nat, limit: nat, msgs: seq<Entry>, i: nat, c: nat)
    requires IsBatch(log, from, limit, msgs) && Within(log, 0, hi) && SplitsAt(msgs, i, c)
    ensures SumFrom(msgs, i) == FirstBytes(log, from, hi, limit, c)
    decreases hi - from
  {
    hide IsBatch, Within;
    if hi <= from || limit == 0 {
      NothingLoaded(log, from, hi, limit, msgs);
    } else if from in log {
      StartsAt(log, from, limit, msgs);
      var j := if i == 0 then 0 else i - 1;
      BatchBytes(log, from + 1, hi, limit - 1, msgs[1..], j, c);
      SumTail(msgs, j);
    } else {
      StartsLater(log, from, limit, msgs);
      BatchBytes(log, from + 1, hi, limit, msgs, i, c);
    }
  }

  lemma NothingLoaded(log: Stored, from: nat, hi: nat, limit: nat, msgs: seq<Entry>)
    requires IsBatch(log, from, limit, msgs) && Within(log, 0, hi) && (hi <= from || limit == 0)
    ensures msgs == []
  {
    hide IsBatch;
    if msgs != [] { FirstLoaded(log, from, limit, msgs); }
  }

  lemma FirstLoaded(log: Stored, from: nat, limit: nat, msgs: seq<Entry>)
    requires IsBatch(log, from, limit, msgs) && msgs != []
    ensures limit > 0 && from <= msgs[0].seqNo && msgs[0].seqNo in log
    ensures |msgs[0].msg.payload| == SizeAt(log, msgs[0].seqNo)
  {
  }

  lemma StartsLater(log: Stored, from: nat, limit: nat, msgs: seq<Entry>)
    requires IsBatch(log, from, limit, msgs) && from !in log
    ensures IsBatch(log, from + 1, limit, msgs)
  {
  }

  lemma StartsAt(log: Stored, from: nat, limit: nat, msgs: seq<Entry>)
    requires IsBatch(log, from, limit, msgs) && from in log && limit > 0
    ensures msgs != [] && msgs[0].seqNo == from && |msgs[0].msg.payload| == SizeAt(log, from)
    ensures IsBatch(log, from + 1, limit - 1, msgs[1..])
  {
    var k :| 0 <= k < |msgs| && msgs[k].seqNo == from;
    FirstLoaded(log, from, limit, msgs);
    DropFirst(log, from, limit, msgs);
  }

  lemma DropFirst(log: Stored, from: nat, limit: nat, msgs: seq<Entry>)
    requires IsBatch(log, from, limit, msgs) && msgs != [] && msgs[0].seqNo == from
    ensures limit > 0 && IsBatch(log, from + 1, limit - 1, msgs[1..])
  {
    forall n | n in log && from + 1 <= n ensures Accounted(msgs[1..], limit - 1, n) {
      StillAccounted(msgs, limit, n);
    }
  }

  /** The number is in the batch, or the batch was full before it. */
  ghost predicate Accounted(b: seq<Entry>, limit: nat, n: nat) {
    (exists i :: 0 <= i < |b| && b[i].seqNo == n) || (|b| == limit && (b == [] || b[|b| - 1].seqNo < n))
  }

  lemma StillAccounted(msgs: seq<Entry>, limit: nat, n: nat)
    requires msgs != [] && 0 < limit && msgs[0].seqNo < n && Accounted(msgs, limit, n)
    ensures Accounted(msgs[1..], limit - 1, n)
  {
    var rest := msgs[1..];
    if i :| 0 <= i < |msgs| && msgs[i].seqNo == n { assert rest[i - 1].seqNo == n; }
  }

  /** Bytes the scan has counted before the window that ends at `top`. */
  ghost function CountAbove(log: Stored, top: nat, newest: nat): nat
    decreases newest - top
  {
    if top >= newest then 0 else CountAbove(log, top + WINDOW, newest) + FirstBytes(log, top + 1, newest + 1, WINDOW, 0)
  }

  lemma {:induction false} CountGrows(log: Stored, low: nat, high: nat, newest: nat)
    requires low <= high <= newest && (high - low) % WINDOW == 0
    ensures CountAbove(log, low, newest) >= CountAbove(log, high, newest)
    decreases high - low
  {
    if low < high { CountGrows(log, low + WINDOW, high, newest); }
  }

  /** The scan runs past the bottom: no test stops it there, and the limit does not either. */
  ghost predicate Overruns(log: Stored, oldest: nat, newest: nat, maxBytes: nat) {
    !NoUnderflow(oldest, newest) && CountAbove(log, newest % WINDOW, newest) <= maxBytes
  }

  /** The k-th window down is reached if no earlier one started at or below the oldest, and what
      is counted before it fits. */
  ghost predicate Visits(log: Stored, oldest: nat, newest: nat, maxBytes: nat, k: nat) {
    && newest >= oldest + WINDOW * k && (forall j: nat :: j < k ==> newest - WINDOW * j - (WINDOW - 1) > oldest)
    && CountAbove(log, newest - WINDOW * k, newest) <= maxBytes
  }

  lemma RemainderSame(n: nat, k: nat)
    requires WINDOW * k <= n
    ensures (n - WINDOW * k) % WINDOW == n % WINDOW
  {
  }

  /** A window the scan reaches starts below zero if and only if the scan overruns. */
  lemma UnderflowIff(log: Stored, oldest: nat, newest: nat, maxBytes: nat)
    requires 1 <= oldest <= newest
    ensures Overruns(log, oldest, newest, maxBytes) <==>
            exists k: nat :: Visits(log, oldest, newest, maxBytes, k) && newest - WINDOW * k < WINDOW - 1
  {
    hide CountAbove;
    if Overruns(log, oldest, newest, maxBytes) {
      var k := newest / WINDOW;
      assert newest - WINDOW * k == newest % WINDOW;
      forall j: nat | j < k ensures newest - WINDOW * j - (WINDOW - 1) > oldest {
        assert WINDOW * (k - j) >= WINDOW;
      }
      assert Visits(log, oldest, newest, maxBytes, k);
    }
    if k: nat :| Visits(log, oldest, newest, maxBytes, k) && newest - WINDOW * k < WINDOW - 1 {
      RemainderSame(newest, k);
    }
  }

  /** A window without gaps, from `c` on, up to its end or to `hi`. */
  lemma {:induction false} FullBytes(log: Stored, from: nat, hi: nat, limit: nat, c: nat)
    requires forall n :: from <= n < from + limit && n < hi ==> n in log
    ensures FirstBytes(log, from, hi, limit, c)
            == BytesIn(log, if c < from then from else c, if from + limit < hi then from + limit else hi)
    decreases limit
  {
    if limit > 0 && from < hi {
      FullBytes(log, from + 1, hi, limit - 1, c);
      if c <= from {
        BytesSplit(log, from, from + 1, if from + limit < hi then from + limit else hi);
        assert BytesIn(log, from, from + 1) == BytesIn(log, from, from) + SizeAt(log, from);
      }
    }
  }

  /** Without gaps each byte is counted once. */
  lemma {:induction false} CountSolid(log: Stored, oldest: nat, newest: nat, top: nat)
    requires Solid(log) && IsOldest(log, oldest) && IsNewest(log, newest) && oldest > 0
    requires oldest <= top + 1 && top <= newest && top % WINDOW == newest % WINDOW
    ensures CountAbove(log, top, newest) == BytesIn(log, top + 1, newest + 1)
    decreases newest - top
  {
    hide Solid;
    if top < newest {
      assert top + WINDOW <= newest;
      CountSolid(log, oldest, newest, top + WINDOW);
      SolidRange(log, oldest, newest, top + 1);
      FullBytes(log, top + 1, newest + 1, WINDOW, 0);
      BytesSplit(log, top + 1, top + 1 + WINDOW, newest + 1);
    }
  }

  /** So in a stream without gaps the scan runs past the bottom exactly when the bottom window
      is short, reaches down to the oldest, and everything above it fits. */
  lemma OverrunsSolid(log: Stored, oldest: nat, newest: nat, maxBytes: nat)
    requires Solid(log) && IsOldest(log, oldest) && IsNewest(log, newest) && oldest > 0
    ensures Overruns(log, oldest, newest, maxBytes) <==>
            !NoUnderflow(oldest, newest) && BytesIn(log, newest % WINDOW + 1, newest + 1) <= maxBytes
  {
    if !NoUnderflow(oldest, newest) { CountSolid(log, oldest, newest, newest % WINDOW); }
  }

  datatype ScanResult = Swept | Underflowed

  class StreamQueue {
    const name: Bytes
    const storage: Storage
    var nextSeq: nat

    ghost predicate Valid()
      reads this, storage
    {
      storage.Valid() && Owns(storage.db, name)
    }

    ghost function Stored(): Stored
      reads storage
    {
      Log(storage.db, name)
    }

    /** A stream takes up numbering after the highest stored number. `readOk` is the outcome of
        the read that finds it: if it fails, the error is dropped and numbering starts at 1. */
    constructor (name: Bytes, storage: Storage, readOk: bool)
      requires storage.Valid() && Owns(storage.db, name)
      ensures Valid() && this.name == name && this.storage == storage
      ensures StartsNumbering(Stored(), readOk, nextSeq)
    {
      this.name := name;
      this.storage := storage;
      nextSeq := 1;
      new;
      if readOk {
        var newest := storage.GetStreamSequence(name);
        if newest > 0 { nextSeq := newest + 1; }
      }
    }

    /** `saveOk` is the outcome of the save; the number is given back if it fails. */
    method Publish(msg: Message, saveOk: bool) returns (r: Option<nat>)
      requires Valid() && 1 <= nextSeq < U64
      modifies this, storage
      ensures Valid()
      ensures (Stored(), nextSeq) == Published(old(Stored()), old(nextSeq), msg, saveOk)
      ensures r == if saveOk then Some(old(nextSeq)) else None
    {
      hide Log, Owns;
      var n := nextSeq;
      nextSeq := nextSeq + 1;
      if !saveOk {
        nextSeq := nextSeq - 1;
        return None;
      }
      storage.SaveStreamMessage(name, n, msg.(sequence := n));
      return Some(n);
    }

    /** Deletes what precedes the first message not older than the cutoff. */
    method AgeRetention(cutoffMs: int) returns (ghost first: nat)
      requires Valid()
      modifies storage
      ensures Valid() && IsFirstSince(old(Stored()), cutoffMs, first)
      ensures Stored() == Tail(old(Stored()), first)
    {
      var n := storage.GetStreamMessageByTimestamp(name, cutoffMs);
      first := n;
      assert Tail(Stored(), 0) == Stored();
      if n > 0 {
        StoredInRange(storage.db, name, n);
        storage.DeleteStreamMessagesBefore(name, n);
      }
    }

    /** Adds up a window newest first; stops at the entry that takes the total over the limit. */
    method Count(msgs: seq<Entry>, counted: nat, maxBytes: nat) returns (total: nat, over: Option<nat>)
      requires counted <= maxBytes
      ensures over.None? ==> total == counted + SumFrom(msgs, 0) <= maxBytes
      ensures over.Some? ==> over.value < |msgs| && counted + SumFrom(msgs, over.value + 1) <= maxBytes
      ensures over.Some? ==> counted + SumFrom(msgs, over.value) > maxBytes
    {
      total := counted;
      var i := |msgs|;
      while i > 0
        invariant 0 <= i <= |msgs| && total == counted + SumFrom(msgs, i) <= maxBytes
      {
        i := i - 1;
        total := total + |msgs[i].msg.payload|;
        if total > maxBytes { return total, Some(i); }
      }
      return total, None;
    }

    /** Keeps the newest messages up to maxBytes of payload. `Underflowed` marks the point where
        the start of a window would be computed below zero: there the source goes on scanning
        from the top of the 64-bit range. */
    method SizeRetention(maxBytes: nat) returns (r: ScanResult, ghost cut: nat)
      requires Valid() && maxBytes > 0 && (forall n :: n in Stored() ==> n + 1 < U64)
      modifies storage
      ensures Valid() && Stored() == Tail(old(Stored()), cut)
      ensures SweepOk(old(Stored()), Stored(), r, maxBytes)
      ensures if r == Swept then CutOk(old(Stored()), cut, maxBytes) else cut == 0
    {
      hide Log, Owns, IsBatch, BytesIn, TotalBytes, Solid, SweepOk, SumFrom, AtWindow, Counted, CutOk;
      cut := 0;
      var oldest, newest := storage.GetStreamStats(name);
      ghost var log := Stored();
      assert Tail(log, 0) == log;
      LogInRange(storage.db, name);
      if oldest == 0 {
        NothingStored(log, maxBytes);
        return Swept, 0;
      }
      var top: nat, total: nat := newest, 0;
      ScanStarts(log, oldest, newest, maxBytes);
      while top >= oldest
        invariant Stored() == log && Valid() && total <= maxBytes
        invariant Counted(log, oldest, newest, top, total, maxBytes)
        decreases top
      {
        if top < WINDOW - 1 {
          ScanUnderflows(log, oldest, newest, top, total, maxBytes);
          return Underflowed, 0;
        }
        var start: nat := top - (WINDOW - 1);
        if start < oldest { start := oldest; }
        var msgs := storage.LoadStreamMessages(name, start, WINDOW);
        AtWindowNow(log, oldest, newest, start, top, msgs, total, maxBytes);
        var over;
        ghost var before := total;
        total, over := Count(msgs, total, maxBytes);
        if over.Some? {
          var last := msgs[over.value].seqNo + 1;
          ScanCuts(log, oldest, start, top, newest, msgs, over.value, before, maxBytes);
          storage.DeleteStreamMessagesBefore(name, last);
          cut := last;
          return Swept, cut;
        }
        WindowCounted(log, oldest, start, top, newest, msgs, before, maxBytes);
        if start <= oldest { return Swept, 0; }
        top := start - 1;
      }
      ScanEnds(log, oldest, newest, top, total, maxBytes);
      return Swept, 0;
    }

    /** The periodic pass: age first, then size on what that left, each if configured. `first` is
        where the age pass cut, `cut` where the size pass did. */
    method RunRetention(now: int, maxAge: int, maxBytes: nat) returns (r: ScanResult, ghost first: nat, ghost cut: nat)
      requires Valid() && (forall n :: n in Stored() ==> n + 1 < U64)
      modifies storage
      ensures Valid() && Stored() == Tail(Tail(old(Stored()), first), cut)
      ensures if maxAge > 0 then IsFirstSince(old(Stored()), Millis(now - maxAge), first) else first == 0
      ensures if maxBytes > 0
              then SweepOk(Tail(old(Stored()), first), Stored(), r, maxBytes)
              else r == Swept && cut == 0
      ensures if maxBytes > 0 && r == Swept then CutOk(Tail(old(Stored()), first), cut, maxBytes) else cut == 0
    {
      hide Log, Owns, SweepOk, Millis, IsFirstSince, CutOk;
      r, first, cut := Swept, 0, 0;
      assert Tail(Stored(), 0) == Stored();
      if maxAge > 0 { first := AgeRetention(Millis(now - maxAge)); }
      assert Tail(Stored(), 0) == Stored();
      if maxBytes > 0 { r, cut := SizeRetention(maxBytes); }
    }
  }

  // ---------- the size scan, step by step ----------

  /** The scan of this log overruns. */
  ghost predicate Unscannable(log: Stored, maxBytes: nat) {
    exists oldest, newest ::
      IsOldest(log, oldest) && IsNewest(log, newest) && oldest > 0 && Overruns(log, oldest, newest, maxBytes)
  }

  /** A stream without gaps, as publishing and retention leave it. */
  ghost predicate Solid(log: Stored) {
    forall a, n, b :: a in log && b in log && a <= n <= b ==> n in log
  }

  /** Publishing after the newest and deleting the oldest leave no gap. */
  lemma SolidKept(log: Stored, next: nat, msg: Message, saveOk: bool, cut: nat)
    requires Solid(log) && ResumesAt(log, next)
    ensures Solid(Published(log, next, msg, saveOk).0) && Solid(Tail(log, cut))
  {
    var log1 := Published(log, next, msg, saveOk).0;
    forall a, n, b | a in log1 && b in log1 && a <= n <= b ensures n in log1 {
      if n < next && b == next { assert next - 1 in log; }
    }
  }

  /** What a size pass owes: the rest fits; it underflows exactly when the scan overruns, and then
      has deleted nothing. */
  ghost predicate SweepOk(log: Stored, kept: Stored, r: ScanResult, maxBytes: nat) {
    && (r == Swept ==> TotalBytes(kept) <= maxBytes)
    && (r == Underflowed ==> kept == log)
    && (r == Underflowed <==> Unscannable(log, maxBytes))
    && (Solid(log) && r == Swept ==> NewestKeptIffSmall(log, kept, maxBytes))
  }

  /** A window's end. */
  ghost predicate OnGrid(oldest: nat, newest: nat, top: nat) {
    oldest <= top <= newest && top % WINDOW == newest % WINDOW
  }

  /** Where the window that ends at `top` starts. */
  ghost function StartOf(oldest: nat, top: nat): nat {
    if top < oldest + (WINDOW - 1) then oldest else top - (WINDOW - 1)
  }

  /** What the scan has counted when it has come down to number `c` in the window that ends at `top`. */
  ghost function CountDown(log: Stored, oldest: nat, newest: nat, top: nat, c: nat): nat {
    CountAbove(log, top, newest) + FirstBytes(log, StartOf(oldest, top), newest + 1, WINDOW, c)
  }

  /** At message `n` the scan's count passes the limit, and before it did not. */
  ghost predicate PassesAt(log: Stored, oldest: nat, newest: nat, n: nat, maxBytes: nat) {
    n in log && exists top :: OnGrid(oldest, newest, top)
                  && CountDown(log, oldest, newest, top, n + 1) <= maxBytes < CountDown(log, oldest, newest, top, n)
  }

  /** The scan's count down to the oldest message stays within the limit. */
  ghost predicate NeverPasses(log: Stored, oldest: nat, newest: nat, maxBytes: nat) {
    exists top :: OnGrid(oldest, newest, top) && StartOf(oldest, top) == oldest
      && CountDown(log, oldest, newest, top, 0) <= maxBytes
  }

  /** A pass deletes up to the message at which its count passes the limit and no further, and
      nothing if there is none. */
  ghost predicate CutOk(log: Stored, cut: nat, maxBytes: nat) {
    forall oldest, newest :: IsOldest(log, oldest) && IsNewest(log, newest) && oldest > 0
      ==> if cut == 0 then NeverPasses(log, oldest, newest, maxBytes)
          else PassesAt(log, oldest, newest, cut - 1, maxBytes)
  }

  /** The bounds of a log are unique. */
  lemma CutIs(log: Stored, oldest: nat, newest: nat, cut: nat, maxBytes: nat)
    requires IsOldest(log, oldest) && IsNewest(log, newest) && 0 < oldest
    requires if cut == 0 then NeverPasses(log, oldest, newest, maxBytes)
             else PassesAt(log, oldest, newest, cut - 1, maxBytes)
    ensures CutOk(log, cut, maxBytes)
  {
    hide NeverPasses, PassesAt;
  }

  lemma CutFound(log: Stored, oldest: nat, start: nat, top: nat, newest: nat, msgs: seq<Entry>, i: nat, before: nat,
                 maxBytes: nat)
    requires AtWindow(log, oldest, newest, start, top, msgs, before, maxBytes) && i < |msgs|
    requires before + SumFrom(msgs, i + 1) <= maxBytes < before + SumFrom(msgs, i)
    ensures CutOk(log, msgs[i].seqNo + 1, maxBytes)
  {
    hide BytesIn, SumFrom, IsBatch, CountAbove, FirstBytes, CutOk;
    var n := msgs[i].seqNo;
    BatchEntry(log, start, msgs, i);
    EntriesSplit(log, start, msgs, i);
    BatchBytes(log, start, newest + 1, WINDOW, msgs, i, n);
    BatchBytes(log, start, newest + 1, WINDOW, msgs, i + 1, n + 1);
    assert OnGrid(oldest, newest, top) && start == StartOf(oldest, top);
    assert CountDown(log, oldest, newest, top, n + 1) <= maxBytes < CountDown(log, oldest, newest, top, n);
    CutIs(log, oldest, newest, n + 1, maxBytes);
  }

  lemma EntriesSplit(log: Stored, start: nat, msgs: seq<Entry>, i: nat)
    requires IsBatch(log, start, WINDOW, msgs) && i < |msgs|
    ensures SplitsAt(msgs, i, msgs[i].seqNo) && SplitsAt(msgs, i + 1, msgs[i].seqNo + 1)
  {
  }

  lemma NoCut(log: Stored, oldest: nat, start: nat, top: nat, newest: nat, msgs: seq<Entry>, before: nat,
              maxBytes: nat)
    requires AtWindow(log, oldest, newest, start, top, msgs, before, maxBytes) && start <= oldest
    requires before + SumFrom(msgs, 0) <= maxBytes
    ensures CutOk(log, 0, maxBytes)
  {
    hide BytesIn, SumFrom, IsBatch, CountAbove, FirstBytes, CutOk;
    BatchBytes(log, start, newest + 1, WINDOW, msgs, 0, 0);
    assert OnGrid(oldest, newest, top) && start == StartOf(oldest, top);
    assert CountDown(log, oldest, newest, top, 0) <= maxBytes;
    CutIs(log, oldest, newest, 0, maxBytes);
  }

  /** What the scan knows before a window ending at `top`. */
  ghost predicate Counted(log: Stored, oldest: nat, newest: nat, top: nat, total: nat, maxBytes: nat) {
    && IsOldest(log, oldest) && IsNewest(log, newest) && 0 < oldest && newest < U64 - 1
    && oldest <= newest && oldest <= top + 1 && top <= newest && top % WINDOW == newest % WINDOW && total <= maxBytes
    && BytesIn(log, top + 1, newest + 1) <= total && (top == newest ==> total == 0)
    && total == CountAbove(log, top, newest)
  }

  /** A size pass deletes the newest message exactly when it alone is over the limit. (A
      restart then reuses its number.) */
  ghost predicate NewestKeptIffSmall(log: Stored, kept: Stored, maxBytes: nat) {
    forall newest :: IsNewest(log, newest) && newest > 0 ==> (newest in kept <==> SizeAt(log, newest) <= maxBytes)
  }

  lemma EmptySum(log: Stored, n: nat)
    ensures BytesIn(log, n, n) == 0
  {
  }

  lemma LogInRange(db: seq<Item>, queue: Bytes)
    requires Owns(db, queue)
    ensures forall n :: n in Log(db, queue) ==> 1 <= n < U64
  {
    hide Belongs, StreamKey, Log;
    forall n | n in Log(db, queue) ensures 1 <= n < U64 {
      var i := LogFrom(db, queue, n);
    }
  }

  lemma NothingStored(log: Stored, maxBytes: nat)
    requires IsOldest(log, 0) && Within(log, 1, U64)
    ensures SweepOk(log, log, Swept, maxBytes) && CutOk(log, 0, maxBytes)
  {
    NoBytes(log, 0, U64);
    assert log == map[];
  }

  lemma ScanStarts(log: Stored, oldest: nat, newest: nat, maxBytes: nat)
    requires IsOldest(log, oldest) && IsNewest(log, newest) && 0 < oldest && forall n :: n in log ==> n + 1 < U64
    ensures Counted(log, oldest, newest, newest, 0, maxBytes)
  {
    EmptySum(log, newest + 1);
  }

  /** The bounds of a log are unique, so the test is about this log. */
  lemma UnscannableIs(log: Stored, oldest: nat, newest: nat, maxBytes: nat)
    requires IsOldest(log, oldest) && IsNewest(log, newest) && 0 < oldest
    ensures Unscannable(log, maxBytes) <==> Overruns(log, oldest, newest, maxBytes)
  {
    hide Overruns;
  }

  /** Where the bottom window would be short, no window above it reaches the oldest. */
  lemma ClearOfBottom(oldest: nat, newest: nat, top: nat)
    requires !NoUnderflow(oldest, newest) && top % WINDOW == newest % WINDOW
    ensures top >= oldest && (top >= WINDOW - 1 ==> top - (WINDOW - 1) > oldest)
  {
  }

  lemma ScanUnderflows(log: Stored, oldest: nat, newest: nat, top: nat, total: nat, maxBytes: nat)
    requires Counted(log, oldest, newest, top, total, maxBytes) && oldest <= top < WINDOW - 1
    ensures SweepOk(log, log, Underflowed, maxBytes)
  {
    hide BytesIn, TotalBytes, Solid, Unscannable, CountAbove;
    UnscannableIs(log, oldest, newest, maxBytes);
  }

  lemma KeptAll(log: Stored, newest: nat, maxBytes: nat)
    requires IsNewest(log, newest) && newest < U64 - 1 && TotalBytes(log) <= maxBytes
    ensures NewestKeptIffSmall(log, log, maxBytes)
  {
    hide BytesIn;
    forall n | IsNewest(log, n) && n > 0 ensures n in log && SizeAt(log, n) <= maxBytes {
      AtMostTotal(log, n);
    }
  }

  lemma AtMostTotal(log: Stored, n: nat)
    requires n < U64
    ensures SizeAt(log, n) <= TotalBytes(log)
  {
    BytesSplit(log, 0, n, U64);
    BytesSplit(log, n, n + 1, U64);
    assert BytesIn(log, n, n + 1) == BytesIn(log, n, n) + SizeAt(log, n);
  }

  lemma ScanEnds(log: Stored, oldest: nat, newest: nat, top: nat, total: nat, maxBytes: nat)
    requires Counted(log, oldest, newest, top, total, maxBytes) && top < oldest
    ensures SweepOk(log, log, Swept, maxBytes) && CutOk(log, 0, maxBytes)
  {
    EndsOnGrid(log, oldest, newest, top, total, maxBytes);
    hide BytesIn, TotalBytes, Solid, Unscannable, CountAbove, NewestKeptIffSmall, CutOk;
    UnscannableIs(log, oldest, newest, maxBytes);
    if !NoUnderflow(oldest, newest) { ClearOfBottom(oldest, newest, top); }
    AllCounted(log, oldest, top + 1, newest, total);
    KeptAll(log, newest, maxBytes);
  }

  lemma EndsOnGrid(log: Stored, oldest: nat, newest: nat, top: nat, total: nat, maxBytes: nat)
    requires Counted(log, oldest, newest, top, total, maxBytes) && top < oldest
    ensures CutOk(log, 0, maxBytes)
  {
    hide BytesIn, FirstBytes, CutOk;
    assert OnGrid(oldest, newest, top + WINDOW) && StartOf(oldest, top + WINDOW) == oldest;
    assert CountDown(log, oldest, newest, top + WINDOW, 0) <= maxBytes;
    CutIs(log, oldest, newest, 0, maxBytes);
  }

  lemma AtWindowNow(log: Stored, oldest: nat, newest: nat, start: nat, top: nat, msgs: seq<Entry>, before: nat,
                    maxBytes: nat)
    requires Counted(log, oldest, newest, top, before, maxBytes) && oldest <= top && WINDOW - 1 <= top
    requires IsBatch(log, start, WINDOW, msgs)
    requires start == (if top - (WINDOW - 1) < oldest then oldest else top - (WINDOW - 1))
    ensures AtWindow(log, oldest, newest, start, top, msgs, before, maxBytes)
  {
    hide BytesIn, Solid, IsBatch, CountAbove;
  }

  lemma ScanCuts(log: Stored, oldest: nat, start: nat, top: nat, newest: nat, msgs: seq<Entry>, i: nat, before: nat,
                 maxBytes: nat)
    requires AtWindow(log, oldest, newest, start, top, msgs, before, maxBytes) && i < |msgs|
    requires before + SumFrom(msgs, i + 1) <= maxBytes < before + SumFrom(msgs, i)
    ensures msgs[i].seqNo + 1 < U64 && SweepOk(log, Tail(log, msgs[i].seqNo + 1), Swept, maxBytes)
    ensures CutOk(log, msgs[i].seqNo + 1, maxBytes)
  {
    hide BytesIn, TotalBytes, Solid, Unscannable, Overruns, SumFrom, IsBatch, CountAbove, CutOk;
    CutFound(log, oldest, start, top, newest, msgs, i, before, maxBytes);
    var kept := Tail(log, msgs[i].seqNo + 1);
    OverLimit(log, oldest, start, top, newest, msgs, i, before, maxBytes);
    UnscannableIs(log, oldest, newest, maxBytes);
    StopsAbove(log, oldest, start, top, newest, msgs, i, before, maxBytes);
    if Solid(log) { NewestFate(log, oldest, start, top, newest, msgs, i, before, maxBytes); }
  }

  lemma NewestFate(log: Stored, oldest: nat, start: nat, top: nat, newest: nat, msgs: seq<Entry>, i: nat, before: nat,
                   maxBytes: nat)
    requires AtWindow(log, oldest, newest, start, top, msgs, before, maxBytes) && i < |msgs| && Solid(log)
    requires before + SumFrom(msgs, i) > maxBytes && TotalBytes(Tail(log, msgs[i].seqNo + 1)) <= maxBytes
    ensures NewestKeptIffSmall(log, Tail(log, msgs[i].seqNo + 1), maxBytes)
  {
    hide BytesIn, TotalBytes, Solid, SumFrom, IsBatch;
    var kept := Tail(log, msgs[i].seqNo + 1);
    BatchEntry(log, start, msgs, i);
    assert msgs[i].seqNo <= newest;
    if msgs[i].seqNo == newest {
      NewestOver(log, oldest, start, top, newest, msgs, i, before, maxBytes);
    } else {
      AtMostTotal(kept, newest);
      assert SizeAt(kept, newest) == SizeAt(log, newest);
    }
  }

  lemma AllCounted(log: Stored, oldest: nat, from: nat, newest: nat, total: nat)
    requires IsOldest(log, oldest) && IsNewest(log, newest) && 0 < oldest && from <= oldest <= newest < U64 - 1
    requires BytesIn(log, from, newest + 1) <= total
    ensures TotalBytes(log) <= total
  {
    hide TotalBytes, BytesIn;
    TotalWithin(log, from, newest + 1);
  }

  lemma WindowCounted(log: Stored, oldest: nat, start: nat, top: nat, newest: nat, msgs: seq<Entry>, before: nat,
                      maxBytes: nat)
    requires AtWindow(log, oldest, newest, start, top, msgs, before, maxBytes)
    requires before + SumFrom(msgs, 0) <= maxBytes
    ensures start <= oldest ==> SweepOk(log, log, Swept, maxBytes) && CutOk(log, 0, maxBytes)
    ensures start > oldest ==> Counted(log, oldest, newest, start - 1, before + SumFrom(msgs, 0), maxBytes)
  {
    hide BytesIn, IsBatch, SumFrom, Solid, Unscannable, TotalBytes, NewestKeptIffSmall, FirstBytes, CutOk;
    WindowCovers(log, start, top, msgs, 0);
    BytesSplit(log, start, top + 1, newest + 1);
    if start > oldest {
      assert start == top - (WINDOW - 1);
      BatchBytes(log, start, newest + 1, WINDOW, msgs, 0, 0);
    } else {
      NoCut(log, oldest, start, top, newest, msgs, before, maxBytes);
      UnscannableIs(log, oldest, newest, maxBytes);
      if !NoUnderflow(oldest, newest) { ClearOfBottom(oldest, newest, top); }
      AllCounted(log, oldest, start, newest, before + SumFrom(msgs, 0));
      KeptAll(log, newest, maxBytes);
    }
  }

  ghost predicate AllIn(log: Stored, start: nat) {
    forall n :: start <= n < start + WINDOW ==> n in log
  }

  lemma SolidRange(log: Stored, oldest: nat, newest: nat, start: nat)
    requires Solid(log) && IsOldest(log, oldest) && IsNewest(log, newest) && oldest > 0
    requires oldest <= start && start + WINDOW - 1 <= newest
    ensures AllIn(log, start)
  {
    assert oldest in log && newest in log;
  }

  lemma BatchEntry(log: Stored, start: nat, msgs: seq<Entry>, k: nat)
    requires IsBatch(log, start, WINDOW, msgs) && k < |msgs|
    ensures |msgs| <= WINDOW && msgs[k].seqNo in log && log[msgs[k].seqNo] == msgs[k].msg
  {
  }

  lemma {:induction false} SolidAt(log: Stored, start: nat, msgs: seq<Entry>, k: nat)
    requires AllIn(log, start) && IsBatch(log, start, WINDOW, msgs) && k < |msgs|
    ensures msgs[k].seqNo == start + k
  {
    if k > 0 { SolidAt(log, start, msgs, k - 1); }
    AscendingGrows(msgs, start, k);
    var j := InBatch(log, start, start + WINDOW - 1, msgs, start + k);
  }

  /** One window of the scan, about to be counted. */
  ghost predicate AtWindow(log: Stored, oldest: nat, newest: nat, start: nat, top: nat, msgs: seq<Entry>, before: nat,
                           maxBytes: nat)
  {
    && Counted(log, oldest, newest, top, before, maxBytes)
    && IsBatch(log, start, WINDOW, msgs) && oldest <= top && WINDOW - 1 <= top
    && start == (if top - (WINDOW - 1) < oldest then oldest else top - (WINDOW - 1))
  }

  /** The entry that goes over the limit is the last to be deleted; what is left fits. */
  lemma OverLimit(log: Stored, oldest: nat, start: nat, top: nat, newest: nat, msgs: seq<Entry>, i: nat, before: nat,
                  maxBytes: nat)
    requires AtWindow(log, oldest, newest, start, top, msgs, before, maxBytes) && i < |msgs|
    requires before + SumFrom(msgs, i + 1) <= maxBytes
    ensures TotalBytes(Tail(log, msgs[i].seqNo + 1)) <= maxBytes && msgs[i].seqNo + 1 < U64
  {
    hide TotalBytes, BytesIn, SumFrom, Solid, IsBatch;
    var n := msgs[i].seqNo;
    BatchEntry(log, start, msgs, i);
    TailBytes(log, n + 1, newest + 1);
    if n <= top {
      WindowCovers(log, start, top, msgs, i + 1);
      BytesSplit(log, n + 1, top + 1, newest + 1);
    } else {
      BytesSplit(log, top + 1, n + 1, newest + 1);
    }
  }

  /** A scan stopped by the limit does not overrun. */
  lemma StopsAbove(log: Stored, oldest: nat, start: nat, top: nat, newest: nat, msgs: seq<Entry>, i: nat, before: nat,
                   maxBytes: nat)
    requires AtWindow(log, oldest, newest, start, top, msgs, before, maxBytes) && i < |msgs|
    requires before + SumFrom(msgs, i) > maxBytes
    ensures !Overruns(log, oldest, newest, maxBytes)
  {
    hide BytesIn, SumFrom, IsBatch, FirstBytes;
    if !NoUnderflow(oldest, newest) {
      ClearOfBottom(oldest, newest, top);
      SumShrinks(msgs, i);
      BatchBytes(log, start, newest + 1, WINDOW, msgs, 0, 0);
      assert start - 1 == top - WINDOW;
      CountGrows(log, newest % WINDOW, start - 1, newest);
    }
  }

  /** Without gaps the newest message goes only if it alone is over the limit. */
  lemma NewestOver(log: Stored, oldest: nat, start: nat, top: nat, newest: nat, msgs: seq<Entry>, i: nat, before: nat,
                   maxBytes: nat)
    requires AtWindow(log, oldest, newest, start, top, msgs, before, maxBytes) && i < |msgs|
    requires before + SumFrom(msgs, i) > maxBytes && Solid(log) && msgs[i].seqNo == newest
    ensures SizeAt(log, newest) > maxBytes
  {
    assert msgs[|msgs| - 1].seqNo <= newest;
    assert SumFrom(msgs, i) == |msgs[i].msg.payload| + SumFrom(msgs, i + 1);
    hide BytesIn, SumFrom;
    if top < newest {
      assert newest >= top + WINDOW;
      assert AllIn(log, start) by { SolidRange(log, oldest, newest, start); }
      SolidAt(log, start, msgs, i);
    }
  }

  lemma {:induction false} SumShrinks(msgs: seq<Entry>, i: nat)
    requires i <= |msgs|
    ensures SumFrom(msgs, i) <= SumFrom(msgs, 0)
  {
    if i > 0 { SumShrinks(msgs, i - 1); }
  }

  // ---------- numbering ----------

  /** Numbering goes on after the highest stored number. */
  ghost predicate ResumesAt(log: Stored, next: nat) {
    next >= 1 && IsNewest(log, next - 1)
  }

  ghost predicate StartsNumbering(log: Stored, readOk: bool, next: nat) {
    if readOk then ResumesAt(log, next) else next == 1
  }

  function Published(log: Stored, next: nat, msg: Message, saveOk: bool): (Stored, nat) {
    if saveOk then (log[next := msg.(sequence := next)], next + 1) else (log, next)
  }

  lemma StoredInRange(db: seq<Item>, queue: Bytes, n: nat)
    requires Owns(db, queue) && n in Log(db, queue)
    ensures 1 <= n < U64
  {
    LogInRange(db, queue);
  }

  datatype StreamLife = StreamLife(log: Stored, next: nat, history: seq<Message>)

  datatype LifeStep =
    | PublishStep(msg: Message, saveOk: bool)
    | AgeStep(cutoffMs: int, first: nat)
    | SizeStep(cut: nat)
    | RestartStep(readOk: bool, next: nat)

  function Live(s: StreamLife, st: LifeStep): StreamLife {
    match st
    case PublishStep(m, ok) =>
      var (log, next) := Published(s.log, s.next, m, ok);
      StreamLife(log, next, if ok then s.history + [m.(sequence := s.next)] else s.history)
    case AgeStep(_, first) => s.(log := Tail(s.log, first))
    case SizeStep(cut) => s.(log := Tail(s.log, cut))
    case RestartStep(_, next) => s.(next := next)
  }

  /** An age pass finds its first fresh message; a size pass may cut anywhere; a restart resumes
      after the newest message there is, or at 1 if it cannot read it. */
  ghost predicate LegalStep(s: StreamLife, st: LifeStep) {
    match st
    case PublishStep(_, _) => true
    case AgeStep(cutoffMs, first) => IsFirstSince(s.log, cutoffMs, first)
    case SizeStep(_) => true
    case RestartStep(readOk, next) => StartsNumbering(s.log, readOk, next)
  }

  /** Successful publishes got 1, 2, 3, ..., and the next goes on; what is stored is stored under
      its own number. */
  ghost predicate Numbered(s: StreamLife) {
    && s.next == |s.history| + 1
    && (forall k :: 0 <= k < |s.history| ==> s.history[k].sequence == k + 1)
    && (forall n :: n in s.log ==> 1 <= n <= |s.history| && s.log[n] == s.history[n - 1])
  }

  /** A restart, after something has been published, that cannot read the newest number or finds
      the message that had it deleted. */
  predicate Forgets(s: StreamLife, st: LifeStep) {
    st.RestartStep? && s.history != [] && (!st.readOk || |s.history| !in s.log)
  }

  /** A step keeps numbering exact if and only if it is not such a restart. */
  lemma NumberedStep(s: StreamLife, st: LifeStep)
    requires Numbered(s) && LegalStep(s, st)
    ensures Numbered(Live(s, st)) <==> !Forgets(s, st)
    ensures st.RestartStep? && !Forgets(s, st) ==> Live(s, st) == s
    ensures st.AgeStep? ==>
              forall n :: n in s.log && n !in Live(s, st).log ==> Millis(s.log[n].publishedAt) < st.cutoffMs
    ensures st.AgeStep? && |s.history| in s.log ==> |s.history| in Live(s, st).log
  {
    hide Millis;
    if |s.history| in s.log { assert IsNewest(s.log, |s.history|); }
  }

  /** After a failed read the next publish takes number 1 and overwrites what is stored there. */
  lemma ForgettingOverwrites(s: StreamLife, m: Message)
    requires Numbered(s) && s.history != []
    ensures var restart := RestartStep(false, 1);
            var t := Live(Live(s, restart), PublishStep(m, true));
            LegalStep(s, restart) && t.log[1] == m.(sequence := 1) && t.next == 2 <= s.next
  {
  }

  /** After a size pass that deletes everything, even a restart that reads well starts again at 1. */
  lemma DeletingReuses(s: StreamLife, m: Message, cut: nat)
    requires Numbered(s) && s.history != [] && cut > |s.history|
    ensures var kept := Live(s, SizeStep(cut)); var restart := RestartStep(true, 1);
            && LegalStep(s, SizeStep(cut)) && LegalStep(kept, restart)
            && Live(Live(kept, restart), PublishStep(m, true)).log == map[1 := m.(sequence := 1)]
  {
    assert Tail(s.log, cut) == map[];
  }

  /** After a size pass a restart goes on numbering as if nothing had happened if and only if the
      pass kept the newest message; otherwise numbers already given out are used again. */
  lemma RestartExactIffNewestKept(s: StreamLife, cut: nat, next: nat)
    requires Numbered(s) && s.history != [] && ResumesAt(Tail(s.log, cut), next)
    ensures next == s.next <==> |s.history| in Tail(s.log, cut)
    ensures next <= s.next
  {
    if |s.history| in Tail(s.log, cut) { assert IsNewest(Tail(s.log, cut), |s.history|); }
  }

  function LiveThrough(s: StreamLife, steps: seq<LifeStep>): StreamLife {
    if steps == [] then s else Live(LiveThrough(s, steps[..|steps| - 1]), steps[|steps| - 1])
  }

  ghost predicate LegalLife(s: StreamLife, steps: seq<LifeStep>) {
    steps == [] ||
    (LegalLife(s, steps[..|steps| - 1]) && LegalStep(LiveThrough(s, steps[..|steps| - 1]), steps[|steps| - 1]))
  }

  const NEW_STREAM := StreamLife(map[], 1, [])

  /** Over every life of a stream, with publishes failing, retention passes and restarts at any
      time: numbering is exact all along (1, 2, 3, ... with no gap and no reuse) if and only if no
      restart, after something has been published, fails to read the newest number or finds the
      newest message deleted by a size pass. */
  lemma {:induction false} NumbersForeverIff(steps: seq<LifeStep>)
    requires LegalLife(NEW_STREAM, steps)
    ensures AlwaysNumbered(steps) <==> NeverForgets(steps)
  {
    hide Numbered, LegalStep, Live, Forgets;
    if steps != [] {
      var p := steps[..|steps| - 1];
      NumbersForeverIff(p);
      if AlwaysNumbered(p) { NumberedStep(LiveThrough(NEW_STREAM, p), steps[|steps| - 1]); }
    } else {
      NewNumbered();
    }
  }

  lemma NewNumbered()
    ensures Numbered(NEW_STREAM)
  {
  }

  /** Exact after every step. */
  ghost predicate AlwaysNumbered(steps: seq<LifeStep>) {
    Numbered(LiveThrough(NEW_STREAM, steps)) && (steps != [] ==> AlwaysNumbered(steps[..|steps| - 1]))
  }

  predicate NeverForgets(steps: seq<LifeStep>) {
    steps != [] ==>
      && NeverForgets(steps[..|steps| - 1])
      && !Forgets(LiveThrough(NEW_STREAM, steps[..|steps| - 1]), steps[|steps| - 1])
  }
}
