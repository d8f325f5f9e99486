/**
 Base 128 varints and ZigZag, as the Protocol Buffers Encoding specification defines them
 and Go's encoding/binary implements them, with its overflow checks.
 */
module Varints {
  import opened Types

  type Parsed<T> = Option<(T, Bytes)>

  /** Least significant group first; every byte but the last has its top bit set. */
  function Uvarint(n: nat): (s: Bytes)
    ensures |s| >= 1
  {
    if n < 128 then [n as byte] else [(n % 128 + 128) as byte] + Uvarint(n / 128)
  }

  function UvarintSize(n: nat): nat {
    if n < 128 then 1 else 1 + UvarintSize(n / 128)
  }

  lemma {:induction false} SizeIsLength(n: nat)
    ensures |Uvarint(n)| == UvarintSize(n)
  {
    if n >= 128 { SizeIsLength(n / 128); }
  }

  /** Reads from the i-th byte of a varint: at most ten bytes, the tenth at most 1. */
  function ReadUvarintAt(data: Bytes, i: nat): (r: Parsed<nat>)
    requires i <= 10
    ensures r.Some? ==> |r.value.1| < |data|
    decreases |data|
  {
    if i == 10 || data == [] then None
    else
      var b := data[0] as nat;
      if b < 128 then (if i == 9 && b > 1 then None else Some((b, data[1..])))
      else
        var rest := ReadUvarintAt(data[1..], i + 1);
        if rest.None? then None else Some((b - 128 + 128 * rest.value.0, rest.value.1))
  }

  function ReadUvarint(data: Bytes): (r: Parsed<nat>) {
    ReadUvarintAt(data, 0)
  }

  /** On any bytes, what is left over is the end of the input. */
  lemma {:induction false} ReadSuffix(data: Bytes, i: nat)
    requires i <= 10 && ReadUvarintAt(data, i).Some?
    ensures ReadUvarintAt(data, i).value.1 == data[|data| - |ReadUvarintAt(data, i).value.1|..]
  {
    if data[0] >= 128 {
      ReadSuffix(data[1..], i + 1);
      var rest := ReadUvarintAt(data[1..], i + 1).value.1;
      assert data[1..][|data| - 1 - |rest|..] == data[|data| - |rest|..];
    }
  }

  /** What fits into the bytes from the i-th on. */
  function Cap(i: nat): nat
    requires i <= 9
  {
    if i == 0 then U64 else Cap(i - 1) / 128
  }

  lemma CapLast()
    ensures Cap(9) == 2
  {
    assert Cap(2) == 0x0004_0000_0000_0000;
    assert Cap(4) == 0x10_0000_0000;
    assert Cap(6) == 0x40_0000;
    assert Cap(8) == 0x100;
  }

  lemma UvarintTail(n: nat, rest: Bytes)
    ensures var s := Uvarint(n) + rest;
            && s[0] as nat == (if n < 128 then n else n % 128 + 128)
            && s[1..] == if n < 128 then rest else Uvarint(n / 128) + rest
  {
    var s := Uvarint(n) + rest;
    assert n >= 128 ==> s == [s[0]] + (Uvarint(n / 128) + rest);
  }

  /** Reading back a varint gives the number and leaves what follows it. */
  lemma {:induction false} UvarintRoundTripAt(n: nat, rest: Bytes, i: nat)
    requires i <= 9 && n < Cap(i)
    ensures ReadUvarintAt(Uvarint(n) + rest, i) == Some((n, rest))
    decreases n
  {
    hide Cap;
    if i == 9 { CapLast(); }
    UvarintTail(n, rest);
    if n >= 128 {
      CapAtLeast(i);
      UvarintRoundTripAt(n / 128, rest, i + 1);
    }
  }

  lemma UvarintRoundTrip(n: nat, rest: Bytes)
    requires n < U64
    ensures ReadUvarint(Uvarint(n) + rest) == Some((n, rest))
  {
    UvarintRoundTripAt(n, rest, 0);
  }

  /** Whatever is read fits into 64 bits, and in at most ten bytes. */
  lemma {:induction false} ReadFits(data: Bytes, i: nat)
    requires i <= 9 && ReadUvarintAt(data, i).Some?
    ensures ReadUvarintAt(data, i).value.0 < Cap(i)
    ensures |data| - |ReadUvarintAt(data, i).value.1| <= 10 - i
  {
    if i == 9 { CapLast(); }
    else {
      if data[0] >= 128 { ReadFits(data[1..], i + 1); }
      CapAtLeast(i);
    }
  }

  lemma CapAtLeast(i: nat)
    requires i < 9
    ensures Cap(i) == 128 * Cap(i + 1) && Cap(i) >= 128
  {
    CapLast();
    assert Cap(1) == 0x0200_0000_0000_0000;
    assert Cap(3) == 0x0800_0000_0000;
    assert Cap(5) == 0x2000_0000;
    assert Cap(7) == 0x8000;
    assert Cap(2) == 0x0004_0000_0000_0000;
    assert Cap(4) == 0x10_0000_0000;
    assert Cap(6) == 0x40_0000;
    assert Cap(8) == 0x100;
  }

  // ---------- signed ----------

  /** Signed numbers interleaved with the unsigned: 0, -1, 1, -2, 2, ... */
  function ZigZag(x: int): nat {
    if x >= 0 then 2 * x else -2 * x - 1
  }

  function UnZigZag(u: nat): int {
    if u % 2 == 0 then u / 2 else -(u / 2) - 1
  }

  lemma ZigZagRoundTrip(x: int)
    ensures UnZigZag(ZigZag(x)) == x
    ensures -I63 <= x < I63 ==> ZigZag(x) < U64
  {
  }

  function Varint(x: int): Bytes {
    Uvarint(ZigZag(x))
  }

  function ReadVarint(data: Bytes): (r: Parsed<int>)
    ensures r.Some? ==> |r.value.1| < |data|
  {
    var u := ReadUvarint(data);
    if u.None? then None else Some((UnZigZag(u.value.0), u.value.1))
  }

  lemma VarintRoundTrip(x: int, rest: Bytes)
    requires -I63 <= x < I63
    ensures ReadVarint(Varint(x) + rest) == Some((x, rest))
  {
    ZigZagRoundTrip(x);
    UvarintRoundTrip(ZigZag(x), rest);
  }

  // ---------- length-prefixed bytes ----------

  function Prefixed(s: Bytes): Bytes {
    Uvarint(|s|) + s
  }

  function ReadBytes(data: Bytes): (r: Parsed<Bytes>)
    ensures r.Some? ==> |r.value.1| < |data|
  {
    var len := ReadUvarint(data);
    if len.None? || |len.value.1| < len.value.0 then None
    else Some((len.value.1[..len.value.0], len.value.1[len.value.0..]))
  }

  lemma PrefixedRoundTrip(s: Bytes, rest: Bytes)
    requires |s| < U64
    ensures ReadBytes(Prefixed(s) + rest) == Some((s, rest))
  {
    UvarintRoundTrip(|s|, s + rest);
    assert Prefixed(s) + rest == Uvarint(|s|) + (s + rest);
    assert (s + rest)[..|s|] == s && (s + rest)[|s|..] == rest;
  }
}
