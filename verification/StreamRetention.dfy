/**
 How much a size pass deletes from a stream without gaps. The windows of the scan do not overlap,
 except that the bottom one is moved up to the oldest message and still loads a hundred: what it
 shares with the windows above it is counted twice.
 */
module StreamRetention {
  import opened Types
  import opened StreamProtocol
  import opened StreamStorage
  import opened StreamQueue

  /** The end of the bottom window. */
  function Bottom(oldest: nat, newest: nat): nat
    requires oldest <= newest
  {
    oldest + (newest - oldest) % WINDOW
  }

  /** Payload bytes the bottom window counts a second time. */
  ghost function Overlap(log: Stored, oldest: nat, newest: nat): nat
    requires oldest <= newest
  {
    if newest < oldest + WINDOW then 0 else BytesIn(log, Bottom(oldest, newest) + 1, oldest + WINDOW)
  }

  /** A stream without gaps, and its bounds. */
  ghost predicate Spans(log: Stored, oldest: nat, newest: nat) {
    && Solid(log) && IsOldest(log, oldest) && IsNewest(log, newest)
    && 0 < oldest <= newest < U64 - 1
  }

  lemma AllThere(log: Stored, oldest: nat, newest: nat, n: nat)
    requires Spans(log, oldest, newest) && oldest <= n <= newest
    ensures n in log
  {
    assert oldest in log && newest in log;
  }

  lemma GridStep(newest: nat, top: nat)
    requires top < newest && top % WINDOW == newest % WINDOW
    ensures top + WINDOW <= newest
  {
  }

  lemma BottomIs(oldest: nat, newest: nat, top: nat)
    requires OnGrid(oldest, newest, top) && StartOf(oldest, top) == oldest
    ensures top == Bottom(oldest, newest)
  {
  }

  /** A window above the bottom one counts what is there, once. */
  lemma CountOpen(log: Stored, oldest: nat, newest: nat, top: nat, c: nat)
    requires Spans(log, oldest, newest) && OnGrid(oldest, newest, top) && oldest < StartOf(oldest, top)
    ensures CountDown(log, oldest, newest, top, c)
            == if c <= top
               then BytesIn(log, if c < StartOf(oldest, top) then StartOf(oldest, top) else c, newest + 1)
               else BytesIn(log, top + 1, newest + 1)
  {
    hide BytesIn, CountAbove, FirstBytes, Solid;
    var start := StartOf(oldest, top);
    CountSolid(log, oldest, newest, top);
    SolidRange(log, oldest, newest, start);
    FullBytes(log, start, newest + 1, WINDOW, c);
    if c <= top {
      BytesSplit(log, if c < start then start else c, top + 1, newest + 1);
    } else {
      Nothing(log, c, top + 1);
    }
  }

  lemma Nothing(log: Stored, lo: nat, hi: nat)
    requires hi <= lo
    ensures BytesIn(log, lo, hi) == 0
  {
  }

  /** The bottom window counts what is there and the overlap. */
  lemma CountBottom(log: Stored, oldest: nat, newest: nat, top: nat, c: nat)
    requires Spans(log, oldest, newest) && OnGrid(oldest, newest, top) && StartOf(oldest, top) == oldest
    requires c <= oldest + WINDOW && c <= newest + 1
    ensures CountDown(log, oldest, newest, top, c)
            == BytesIn(log, if c < oldest then oldest else c, newest + 1) + Overlap(log, oldest, newest)
  {
    hide BytesIn, CountAbove, FirstBytes, Solid;
    var lo := if c < oldest then oldest else c;
    BottomIs(oldest, newest, top);
    CountSolid(log, oldest, newest, top);
    forall n | oldest <= n < oldest + WINDOW && n < newest + 1 ensures n in log { AllThere(log, oldest, newest, n); }
    FullBytes(log, oldest, newest + 1, WINDOW, c);
    if top == newest {
      Nothing(log, newest + 1, newest + 1);
      if oldest + WINDOW <= newest + 1 { Nothing(log, oldest + WINDOW, newest + 1); }
    } else {
      GridStep(newest, top);
      BytesSplit(log, lo, oldest + WINDOW, newest + 1);
      BytesSplit(log, top + 1, oldest + WINDOW, newest + 1);
    }
  }

  lemma {:induction false} BytesShrink(log: Stored, lo: nat, mid: nat, hi: nat)
    requires lo <= mid
    ensures BytesIn(log, mid, hi) <= BytesIn(log, lo, hi)
    decreases hi
  {
    if mid < hi { BytesShrink(log, lo, mid, hi - 1); }
  }

  /** The message the count passes at, with all that is newer and at the bottom the overlap, is
      over the limit; so nothing is deleted that the count had room for. */
  lemma PassedOver(log: Stored, oldest: nat, newest: nat, n: nat, maxBytes: nat)
    requires Spans(log, oldest, newest) && PassesAt(log, oldest, newest, n, maxBytes)
    ensures oldest <= n <= newest
    ensures BytesIn(log, n, newest + 1)
            + (if n < oldest + WINDOW then Overlap(log, oldest, newest) else 0) > maxBytes
  {
    hide BytesIn, CountAbove, FirstBytes, Solid, CountDown;
    var top :| OnGrid(oldest, newest, top) && CountDown(log, oldest, newest, top, n + 1) <= maxBytes
               < CountDown(log, oldest, newest, top, n);
    if oldest < StartOf(oldest, top) {
      CountOpen(log, oldest, newest, top, n);
      CountOpen(log, oldest, newest, top, n + 1);
    } else {
      if n < oldest + WINDOW {
        CountBottom(log, oldest, newest, top, n);
      } else {
        PastWindow(log, oldest, newest, top, n);
      }
    }
  }

  lemma PastWindow(log: Stored, oldest: nat, newest: nat, top: nat, n: nat)
    requires Spans(log, oldest, newest) && StartOf(oldest, top) == oldest && n >= oldest + WINDOW
    ensures CountDown(log, oldest, newest, top, n) == CountDown(log, oldest, newest, top, n + 1)
  {
    hide BytesIn, CountAbove, FirstBytes, Solid;
    forall k | oldest <= k < oldest + WINDOW && k < newest + 1 ensures k in log { AllThere(log, oldest, newest, k); }
    FullBytes(log, oldest, newest + 1, WINDOW, n);
    FullBytes(log, oldest, newest + 1, WINDOW, n + 1);
    var end := if oldest + WINDOW < newest + 1 then oldest + WINDOW else newest + 1;
    Nothing(log, n, end);
    Nothing(log, n + 1, end);
  }

  /** Nothing is deleted if and only if the payloads and the overlap together fit. Otherwise the
      last message deleted did not fit with all that is newer, the overlap counted in at the
      bottom. */
  lemma DeletesLeast(log: Stored, oldest: nat, newest: nat, cut: nat, maxBytes: nat)
    requires Spans(log, oldest, newest) && CutOk(log, cut, maxBytes)
    ensures cut == 0 <==> TotalBytes(log) + Overlap(log, oldest, newest) <= maxBytes
    ensures cut > 0 ==>
              && oldest < cut <= newest + 1 && cut - 1 in log
              && BytesIn(log, cut - 1, newest + 1)
                 + (if cut - 1 < oldest + WINDOW then Overlap(log, oldest, newest) else 0) > maxBytes
  {
    hide BytesIn, CountAbove, FirstBytes, Solid, TotalBytes, CountDown, Overlap;
    TotalWithin(log, oldest, newest + 1);
    if cut == 0 {
      var top :| OnGrid(oldest, newest, top) && StartOf(oldest, top) == oldest
                 && CountDown(log, oldest, newest, top, 0) <= maxBytes;
      CountBottom(log, oldest, newest, top, 0);
    } else {
      PassedOver(log, oldest, newest, cut - 1, maxBytes);
      BytesShrink(log, oldest, cut - 1, newest + 1);
    }
  }

  /** Where no window overlaps another the pass is the least that makes the rest fit. */
  lemma DeletesLeastAligned(log: Stored, oldest: nat, newest: nat, cut: nat, maxBytes: nat)
    requires Spans(log, oldest, newest) && CutOk(log, cut, maxBytes) && (newest - oldest + 1) % WINDOW == 0
    ensures TotalBytes(log) <= maxBytes ==> Tail(log, cut) == log
    ensures TotalBytes(log) > maxBytes ==>
              cut > 0 && cut - 1 in log && BytesIn(log, cut - 1, newest + 1) > maxBytes
  {
    hide TotalBytes, Solid, CutOk;
    DeletesLeast(log, oldest, newest, cut, maxBytes);
    assert (newest - oldest) % WINDOW == WINDOW - 1;
    Nothing(log, oldest + WINDOW, oldest + WINDOW);
  }

  // ---------- the overlap can cost messages ----------

  /** A stream of messages of ten bytes. */
  function TenByteStream(oldest: nat, newest: nat, m: Message): Stored {
    map n: nat | oldest <= n <= newest :: m.(payload := [0, 0, 0, 0, 0, 0, 0, 0, 0, 0], sequence := n)
  }

  lemma {:induction false} TenByteBytes(oldest: nat, newest: nat, m: Message, lo: nat, hi: nat)
    requires oldest <= lo <= hi <= newest + 1
    ensures BytesIn(TenByteStream(oldest, newest, m), lo, hi) == 10 * (hi - lo)
    decreases hi
  {
    if lo < hi { TenByteBytes(oldest, newest, m, lo, hi - 1); }
  }

  /** A hundred and fifty messages of ten bytes fit in 1600 bytes, and yet a size pass with that
      limit deletes some of them. */
  lemma OverlapCosts(m: Message, cut: nat)
    ensures var log := TenByteStream(51, 200, m);
            Spans(log, 51, 200) && TotalBytes(log) == 1500 && (CutOk(log, cut, 1600) ==> cut > 51)
  {
    hide BytesIn, TotalBytes, CutOk;
    var log := TenByteStream(51, 200, m);
    assert 51 in log && 200 in log;
    TotalWithin(log, 51, 201);
    TenByteBytes(51, 200, m, 51, 201);
    TenByteBytes(51, 200, m, 101, 151);
    if CutOk(log, cut, 1600) { DeletesLeast(log, 51, 200, cut, 1600); }
  }
}
