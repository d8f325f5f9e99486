/**
 Storage keys and their order. A stream message's key ends in its sequence number as 20
 decimal digits, so that the database's byte order is the numeric order.
 */
module StreamKeys {
  import opened Types
  import opened Arith

  // ---------- byte order ----------

  predicate Less(a: Bytes, b: Bytes) {
    b != [] && (a == [] || a[0] < b[0] || (a[0] == b[0] && Less(a[1..], b[1..])))
  }

  predicate HasPrefix(k: Bytes, p: Bytes) {
    |p| <= |k| && k[..|p|] == p
  }

  lemma {:induction false} LessTrans(a: Bytes, b: Bytes, c: Bytes)
    requires Less(a, b) && Less(b, c)
    ensures Less(a, c)
  {
    if a != [] && a[0] == b[0] == c[0] { LessTrans(a[1..], b[1..], c[1..]); }
  }

  lemma {:induction false} LessTotal(a: Bytes, b: Bytes)
    ensures Less(a, b) || Less(b, a) || a == b
    ensures !(Less(a, b) && Less(b, a)) && !Less(a, a)
  {
    if a != [] && b != [] {
      LessTotal(a[1..], b[1..]);
      if a[1..] == b[1..] && a[0] == b[0] { assert a == [a[0]] + a[1..] == b; }
    }
    if a != [] { LessTotal(a[1..], a[1..]); }
  }

  lemma {:induction false} LessCommon(p: Bytes, a: Bytes, b: Bytes)
    ensures Less(p + a, p + b) <==> Less(a, b)
  {
    if p == [] {
      assert p + a == a && p + b == b;
    } else {
      assert (p + a)[1..] == p[1..] + a && (p + b)[1..] == p[1..] + b;
      LessCommon(p[1..], a, b);
    }
  }

  /** Keys with one prefix lie together. */
  lemma {:induction false} PrefixBetween(p: Bytes, a: Bytes, k: Bytes, b: Bytes)
    requires HasPrefix(a, p) && HasPrefix(b, p)
    requires a == k || Less(a, k)
    requires k == b || Less(k, b)
    ensures HasPrefix(k, p)
  {
    if p != [] {
      assert a[0] == p[0] == b[0];
      assert k != [] && k[0] == p[0];
      assert a[1..][..|p| - 1] == p[1..] && b[1..][..|p| - 1] == p[1..];
      PrefixBetween(p[1..], a[1..], k[1..], b[1..]);
      assert k[..|p|] == [k[0]] + k[1..][..|p| - 1];
    }
  }

  // ---------- decimal digits ----------

  function Pow10(w: nat): (p: nat)
    ensures p >= 1
  {
    if w == 0 then 1 else 10 * Pow10(w - 1)
  }

  /** `n` in exactly `w` decimal digits. */
  function Digits(n: nat, w: nat): (s: Bytes)
    requires n < Pow10(w)
    ensures |s| == w && forall i :: 0 <= i < w ==> 0x30 <= s[i] <= 0x39
    decreases w
  {
    if w == 0 then [] else Digits(n / 10, w - 1) + [(0x30 + n % 10) as byte]
  }

  /** The number a digit string denotes. */
  function ParseDigits(s: Bytes): int {
    if s == [] then 0 else 10 * ParseDigits(s[..|s| - 1]) + (s[|s| - 1] as int - 0x30)
  }

  /** Reading back the digits gives the number. */
  lemma {:induction false} ParseDigitsInverse(n: nat, w: nat)
    requires n < Pow10(w)
    ensures ParseDigits(Digits(n, w)) == n
  {
    if w > 0 {
      ParseDigitsInverse(n / 10, w - 1);
      assert Digits(n, w)[..w - 1] == Digits(n / 10, w - 1);
    }
  }

  /** Strings of one length compare by all but their last byte first. */
  lemma {:induction false} LessSnoc(a: Bytes, x: byte, b: Bytes, y: byte)
    requires |a| == |b|
    ensures Less(a + [x], b + [y]) <==> Less(a, b) || (a == b && x < y)
  {
    if a == [] {
      assert [x][1..] == [] && [y][1..] == [];
    } else {
      assert (a + [x])[1..] == a[1..] + [x] && (b + [y])[1..] == b[1..] + [y];
      LessSnoc(a[1..], x, b[1..], y);
      LessTotal(a[1..], b[1..]);
      assert a == [a[0]] + a[1..] && b == [b[0]] + b[1..];
    }
  }

  /** Digit strings of one width compare as the numbers they denote. */
  lemma {:induction false} DigitsOrder(m: nat, n: nat, w: nat)
    requires m < Pow10(w) && n < Pow10(w)
    ensures Less(Digits(m, w), Digits(n, w)) <==> m < n
  {
    hide Less, ParseDigits;
    if w == 0 {
      LessTotal([], []);
    } else {
      DigitsOrder(m / 10, n / 10, w - 1);
      ParseDigitsInverse(m / 10, w - 1);
      ParseDigitsInverse(n / 10, w - 1);
      LessSnoc(Digits(m / 10, w - 1), (0x30 + m % 10) as byte, Digits(n / 10, w - 1), (0x30 + n % 10) as byte);
    }
  }

  // ---------- keys ----------

  const COLON: byte := 0x3a

  /** "stream:", "msg:", "queue:", "offset:" */
  const STREAM: Bytes := [0x73, 0x74, 0x72, 0x65, 0x61, 0x6d, 0x3a]
  const MSG: Bytes := [0x6d, 0x73, 0x67, 0x3a]
  const QUEUE: Bytes := [0x71, 0x75, 0x65, 0x75, 0x65, 0x3a]
  const OFFSET: Bytes := [0x6f, 0x66, 0x66, 0x73, 0x65, 0x74, 0x3a]

  lemma U64Fits()
    ensures U64 <= Pow10(20)
  {
    assert Pow10(2) == 100;
    assert Pow10(4) == 10000;
    assert Pow10(6) == 1000000;
    assert Pow10(8) == 100000000;
    assert Pow10(10) == 10000000000;
    assert Pow10(12) == 1000000000000;
    assert Pow10(14) == 100000000000000;
    assert Pow10(16) == 10000000000000000;
    assert Pow10(18) == 1000000000000000000;
    assert Pow10(20) == 100000000000000000000;
  }

  function StreamPrefix(queue: Bytes): Bytes {
    STREAM + queue + [COLON]
  }

  /** A sequence number as the 20 digits that end its key. */
  function Padded(n: nat): (s: Bytes)
    requires n < U64
    ensures |s| == 20 && forall i :: 0 <= i < 20 ==> 0x30 <= s[i] <= 0x39
  {
    U64Fits();
    Digits(n, 20)
  }

  function StreamKey(queue: Bytes, n: nat): Bytes
    requires n < U64
  {
    StreamPrefix(queue) + Padded(n)
  }

  function MsgPrefix(queue: Bytes): Bytes {
    MSG + queue + [COLON]
  }

  function MsgKey(queue: Bytes, id: Bytes): Bytes {
    MsgPrefix(queue) + id
  }

  function QueueKey(queue: Bytes): Bytes {
    QUEUE + queue
  }

  function OffsetKey(queue: Bytes, group: Bytes): Bytes {
    OFFSET + queue + [COLON] + group
  }

  /** Within a stream, byte order of keys is numeric order of sequence numbers. */
  lemma StreamKeyOrder(queue: Bytes, m: nat, n: nat)
    requires m < U64 && n < U64
    ensures Less(StreamKey(queue, m), StreamKey(queue, n)) <==> m < n
  {
    hide Pow10, Digits, Less;
    U64Fits();
    LessCommon(StreamPrefix(queue), Padded(m), Padded(n));
    DigitsOrder(m, n, 20);
  }

  /** The number can be read back from the key, as the scans do. */
  lemma StreamKeyParse(queue: Bytes, n: nat)
    requires n < U64
    ensures var k := StreamKey(queue, n);
            && HasPrefix(k, StreamPrefix(queue)) && |k| == |STREAM| + |queue| + 21
            && ParseDigits(k[|STREAM| + |queue| + 1..]) == n
  {
    hide Pow10, Digits, ParseDigits;
    U64Fits();
    ParseDigitsInverse(n, 20);
    assert StreamKey(queue, n)[|STREAM| + |queue| + 1..] == Padded(n);
  }

  /** Different messages have different keys, whatever bytes the queue names contain. */
  lemma StreamKeyInjective(q: Bytes, m: nat, r: Bytes, n: nat)
    requires m < U64 && n < U64 && StreamKey(q, m) == StreamKey(r, n)
    ensures q == r && m == n
  {
    hide Padded, ParseDigits;
    StreamKeyParse(q, m);
    StreamKeyParse(r, n);
    var k := StreamKey(q, m);
    assert |q| == |r|;
    assert k[7..7 + |q|] == q;
    assert k[7..7 + |r|] == r;
  }

  /** A scan of one stream meets a key of another exactly when the other's name extends this
      one's by a colon. */
  lemma PrefixMeets(q: Bytes, r: Bytes, n: nat)
    requires n < U64
    ensures HasPrefix(StreamKey(r, n), StreamPrefix(q)) <==> r == q || HasPrefix(r, q + [COLON])
  {
    hide Padded, HasPrefix;
    var x, y := r + [COLON] + Padded(n), q + [COLON];
    assert StreamKey(r, n) == STREAM + x;
    assert StreamPrefix(q) == STREAM + y;
    PrefixCancels(STREAM, x, y);
    NameMeets(q, r, Padded(n));
  }

  lemma NameMeets(q: Bytes, r: Bytes, d: Bytes)
    requires forall i :: 0 <= i < |d| ==> d[i] != COLON
    ensures HasPrefix(r + [COLON] + d, q + [COLON]) <==> r == q || HasPrefix(r, q + [COLON])
  {
    var x, y := r + [COLON] + d, q + [COLON];
    if |r| < |q| {
      if |q| < |x| {
        assert x[|q|] == d[|q| - |r| - 1];
        assert x[..|y|][|q|] == x[|q|] != y[|q|];
      }
    } else if |r| == |q| {
      assert x[..|y|] == r + [COLON];
      assert (r + [COLON])[..|r|] == r && y[..|q|] == q;
    } else {
      assert x[..|y|] == r[..|y|];
    }
  }

  lemma PrefixCancels(c: Bytes, x: Bytes, y: Bytes)
    ensures HasPrefix(c + x, c + y) <==> HasPrefix(x, y)
  {
    if |y| <= |x| {
      assert (c + x)[..|c + y|] == c + x[..|y|];
      assert (c + x[..|y|])[|c|..] == x[..|y|] && (c + y)[|c|..] == y;
    }
  }

  /** So with colon-free names the scans of different streams never meet. */
  lemma ColonFreeApart(q: Bytes, r: Bytes, n: nat)
    requires n < U64 && COLON !in r
    ensures HasPrefix(StreamKey(r, n), StreamPrefix(q)) <==> r == q
  {
    hide StreamKey;
    PrefixMeets(q, r, n);
    assert forall k: Bytes :: HasPrefix(k, q + [COLON]) ==> k[..|q| + 1][|q|] == COLON;
  }

  /** Keys of messages, configs and offsets never look like stream keys. */
  lemma OtherKindsApart(q: Bytes, k: Bytes, r: Bytes, tail: Bytes)
    requires k == MsgKey(r, tail) || k == QueueKey(r) || k == OffsetKey(r, tail)
    ensures !HasPrefix(k, StreamPrefix(q))
  {
    assert StreamPrefix(q)[0] == 0x73 && k[0] != 0x73;
  }

  /** With colon-free queue names, records can be addressed by queue and id: keys are distinct,
      and the scan of a queue's records meets that queue's alone. */
  lemma MsgKeysApart(q: Bytes, i: Bytes, r: Bytes, j: Bytes)
    requires COLON !in q && COLON !in r
    ensures MsgKey(q, i) == MsgKey(r, j) <==> q == r && i == j
    ensures HasPrefix(MsgKey(r, j), MsgPrefix(q)) <==> q == r
  {
    hide HasPrefix;
    var x, y := r + [COLON] + j, q + [COLON];
    assert MsgKey(r, j) == MSG + x && MsgPrefix(q) == MSG + y;
    PrefixCancels(MSG, x, y);
    FirstColon(q, r, j);
    assert MsgKey(q, i) == MsgPrefix(q) + i && MsgKey(r, j) == MsgPrefix(r) + j;
    assert MsgKey(q, i)[|MsgPrefix(q)|..] == i && MsgKey(r, j)[|MsgPrefix(r)|..] == j;
    assert HasPrefix(MsgKey(q, i), MsgPrefix(q)) by { PrefixOf(MsgPrefix(q), i); }
  }

  lemma PrefixOf(p: Bytes, s: Bytes)
    ensures HasPrefix(p + s, p)
  {
  }

  lemma FirstColon(q: Bytes, r: Bytes, j: Bytes)
    requires COLON !in q && COLON !in r
    ensures HasPrefix(r + [COLON] + j, q + [COLON]) <==> q == r
  {
    var x, y := r + [COLON] + j, q + [COLON];
    if |q| < |r| {
      assert x[..|y|][|q|] == r[|q|];
      assert r[|q|] in r;
    } else if |r| < |q| {
      if |y| <= |x| {
        assert x[..|y|][|r|] == COLON;
        assert y[|r|] == q[|r|];
        assert q[|r|] in q;
      }
    } else {
      assert x[..|y|] == r + [COLON];
      assert x[..|y|][..|r|] == r && y[..|q|] == q;
    }
  }

  /** Two messages share a key exactly when they are the same, or the longer queue name goes on
      after the shorter one with a colon and what the shorter one's id starts with. */
  lemma MsgKeysCollideIff(q: Bytes, i: Bytes, r: Bytes, j: Bytes)
    requires |q| <= |r|
    ensures MsgKey(q, i) == MsgKey(r, j) <==>
            (q == r && i == j) || exists x :: r == q + [COLON] + x && i == x + [COLON] + j
  {
    assert MsgKey(q, i) == MSG + (q + [COLON] + i) && MsgKey(r, j) == MSG + (r + [COLON] + j);
    Cancel(MSG, q + [COLON] + i, r + [COLON] + j);
    if x :| r == q + [COLON] + x && i == x + [COLON] + j {
      assert q + [COLON] + (x + [COLON] + j) == q + [COLON] + x + [COLON] + j;
    }
    if q + [COLON] + i == r + [COLON] + j { SplitAt(q, i, r, j); }
  }

  lemma Cancel(p: Bytes, s: Bytes, t: Bytes)
    ensures p + s == p + t <==> s == t
  {
    assert (p + s)[|p|..] == s && (p + t)[|p|..] == t;
  }

  lemma SplitAt(q: Bytes, i: Bytes, r: Bytes, j: Bytes)
    requires |q| <= |r| && q + [COLON] + i == r + [COLON] + j
    ensures (q == r && i == j) || exists x :: r == q + [COLON] + x && i == x + [COLON] + j
  {
    var whole := q + [COLON] + i;
    assert whole[..|q|] == q && (r + [COLON] + j)[..|q|] == r[..|q|];
    assert whole[|q| + 1..] == i && (r + [COLON] + j)[|r| + 1..] == j;
    if |q| < |r| {
      assert whole[|q|] == COLON == r[|q|];
      var x := r[|q| + 1..];
      assert r == q + [COLON] + x;
      assert i == x + [COLON] + j by { assert (r + [COLON] + j)[|q| + 1..] == x + [COLON] + j; }
    }
  }
}
