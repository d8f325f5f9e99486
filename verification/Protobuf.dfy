/**
 The hand-written protobuf code: the Go encoders and fast-path decoder, and the TypeScript
 client's encoders, all against the client's general field parser. Text is its UTF-8 bytes.
 */
module Protobuf {
  import opened Types
  import opened Varints

  // ---------- varints on the client ----------

  /** Value and length of a varint as the client reads it: up to ten bytes, no overflow check,
      and a truncated one yields what it has. */
  function LooseVarint(data: Bytes, i: nat): (r: (nat, nat))
    requires i <= 10
    ensures r.1 <= |data| && (data != [] && i < 10 ==> r.1 >= 1)
    decreases |data|
  {
    if data == [] || i == 10 then (0, 0)
    else if data[0] < 128 then (data[0] as nat, 1)
    else
      var r := LooseVarint(data[1..], i + 1);
      (data[0] as nat - 128 + 128 * r.0, 1 + r.1)
  }

  /** Wherever the strict reader succeeds the loose one reads the same. */
  lemma {:induction false} LooseAgrees(data: Bytes, i: nat)
    requires i <= 10 && ReadUvarintAt(data, i).Some?
    ensures LooseVarint(data, i) == (ReadUvarintAt(data, i).value.0, |data| - |ReadUvarintAt(data, i).value.1|)
  {
    if data[0] >= 128 { LooseAgrees(data[1..], i + 1); }
  }

  lemma LooseRoundTrip(n: nat, rest: Bytes)
    requires n < U64
    ensures LooseVarint(Uvarint(n) + rest, 0) == (n, |Uvarint(n)|)
  {
    UvarintRoundTrip(n, rest);
    LooseAgrees(Uvarint(n) + rest, 0);
  }

  /** The place value of the i-th group of seven bits. */
  function Place(i: nat): nat {
    if i == 0 then 1 else 128 * Place(i - 1)
  }

  lemma Carry(value: nat, i: nat, low: nat, high: nat)
    ensures Place(i + 1) == Place(i) * 128
    ensures value + Place(i) * (low + 128 * high) == value + Place(i) * low + Place(i + 1) * high
  {
  }

  lemma LooseStep(buf: Bytes, pos: nat, i: nat)
    requires pos < |buf| && i < 10
    ensures LooseVarint(buf[pos..], i) ==
            if buf[pos] < 128 then (buf[pos] as nat, 1)
            else var r := LooseVarint(buf[pos + 1..], i + 1); (buf[pos] as nat - 128 + 128 * r.0, 1 + r.1)
  {
    assert buf[pos..][1..] == buf[pos + 1..];
  }

  method DecodeVarint(buf: Bytes, offset: nat) returns (value: nat, pos: nat)
    requires offset <= |buf|
    ensures offset <= pos <= |buf|
    ensures (value, pos - offset) == LooseVarint(buf[offset..], 0)
  {
    hide LooseVarint, Place;
    value, pos := 0, offset;
    var place := 1;
    ghost var whole := LooseVarint(buf[offset..], 0);
    assert Place(0) == 1 by { FirstPlace(); }
    while pos < |buf| && pos - offset < 10
      invariant offset <= pos <= |buf| && pos - offset <= 10 && place == Place(pos - offset)
      invariant whole.0 == value + place * LooseVarint(buf[pos..], pos - offset).0
      invariant whole.1 == pos - offset + LooseVarint(buf[pos..], pos - offset).1
    {
      var b := buf[pos];
      LooseStep(buf, pos, pos - offset);
      if b < 128 {
        value, pos := value + place * b as nat, pos + 1;
        return;
      }
      Carry(value, pos - offset, b as nat - 128, LooseVarint(buf[pos + 1..], pos - offset + 1).0);
      value := value + place * (b as nat - 128);
      place, pos := place * 128, pos + 1;
    }
    LooseEnd(buf[pos..], pos - offset);
  }

  lemma FirstPlace()
    ensures Place(0) == 1
  {
  }

  lemma LooseEnd(data: Bytes, i: nat)
    requires i <= 10 && (data == [] || i == 10)
    ensures LooseVarint(data, i) == (0, 0)
  {
  }

  /** A 64-bit pattern; a negative number is its two's complement. */
  function Pattern(v: int): nat
    requires -U64 <= v
  {
    if v < 0 then v + U64 else v
  }

  method EncodeVarint(value: int) returns (out: Bytes)
    requires -U64 <= value
    ensures out == Uvarint(Pattern(value))
  {
    var v := Pattern(value);
    out := [(if v >= 128 then v % 128 + 128 else v % 128) as byte];
    ghost var whole := Uvarint(v);
    v := v / 128;
    while v > 0
      invariant whole == if v > 0 then out + Uvarint(v) else out
    {
      var b := (if v >= 128 then v % 128 + 128 else v % 128) as byte;
      assert Uvarint(v) == if v / 128 > 0 then [b] + Uvarint(v / 128) else [b];
      out, v := out + [b], v / 128;
    }
  }

  /** Signed numbers come back through the client's own reader exactly when not negative. */
  lemma NumberComesBackIff(v: int, rest: Bytes)
    requires -I63 <= v < I63
    ensures LooseVarint(Uvarint(Pattern(v)) + rest, 0).0 == v <==> v >= 0
  {
    LooseRoundTrip(Pattern(v), rest);
  }

  // ---------- the general parser ----------

  datatype Datum = Num(n: nat) | Buf(bytes: Bytes)

  datatype Field = Field(number: nat, wire: nat, data: Datum)

  function LittleEndian(b: Bytes): nat {
    if b == [] then 0 else b[0] as nat + 256 * LittleEndian(b[1..])
  }

  /** From `pos` on; nothing when `pos` is past the end. */
  function From(buf: Bytes, pos: nat): Bytes {
    if pos < |buf| then buf[pos..] else []
  }

  /** A subarray: cut off at the end of the buffer. */
  function Take(buf: Bytes, len: nat): Bytes {
    if len < |buf| then buf[..len] else buf
  }

  /** What follows a tag. Unknown wire types and short fixed-width fields are errors. */
  function ReadField(number: nat, wire: nat, rest: Bytes): (r: Parsed<Field>)
    ensures r.Some? ==> |r.value.1| <= |rest|
  {
    if wire == 0 then
      var v := LooseVarint(rest, 0);
      Some((Field(number, wire, Num(v.0)), rest[v.1..]))
    else if wire == 2 then
      var len := LooseVarint(rest, 0);
      var body := rest[len.1..];
      Some((Field(number, wire, Buf(Take(body, len.0))), From(body, len.0)))
    else if wire == 5 && |rest| >= 4 then Some((Field(number, wire, Num(LittleEndian(rest[..4]))), rest[4..]))
    else if wire == 1 && |rest| >= 8 then Some((Field(number, wire, Num(LittleEndian(rest[..8]))), rest[8..]))
    else None
  }

  function Then(fs: seq<Field>, r: Option<seq<Field>>): Option<seq<Field>> {
    if r.None? then None else Some(fs + r.value)
  }

  function ParseFields(buf: Bytes): Option<seq<Field>>
    decreases |buf|
  {
    if buf == [] then Some([])
    else
      var tag := LooseVarint(buf, 0);
      var f := ReadField(tag.0 / 8, tag.0 % 8, buf[tag.1..]);
      if f.None? then None else Then([f.value.0], ParseFields(f.value.1))
  }

  /** The data of the fields with a number, in order. */
  function Of(fs: seq<Field>, number: nat): seq<Datum> {
    if fs == [] then [] else (if fs[0].number == number then [fs[0].data] else []) + Of(fs[1..], number)
  }

  lemma {:induction false} OfConcat(a: seq<Field>, b: seq<Field>, number: nat)
    ensures Of(a + b, number) == Of(a, number) + Of(b, number)
  {
    if a == [] {
      assert a + b == b;
    } else {
      assert (a + b)[1..] == a[1..] + b;
      var first := if a[0].number == number then [a[0].data] else [];
      OfConcat(a[1..], b, number);
      assert first + (Of(a[1..], number) + Of(b, number)) == first + Of(a[1..], number) + Of(b, number);
    }
  }

  function GetBytes(fs: seq<Field>, number: nat): Bytes {
    var entries := Of(fs, number);
    if entries != [] && entries[0].Buf? then entries[0].bytes else []
  }

  function GetNumber(fs: seq<Field>, number: nat): nat {
    var entries := Of(fs, number);
    if entries != [] && entries[0].Num? then entries[0].n else 0
  }

  /** "__proto__" */
  const PROTO: Bytes := [0x5f, 0x5f, 0x70, 0x72, 0x6f, 0x74, 0x6f, 0x5f, 0x5f]

  /** Assigning text to this property of a plain object stores nothing: the client skips empty
      keys, and "__proto__" is the prototype's setter, which ignores what is not an object. */
  predicate Vanishes(key: Bytes) {
    key == [] || key == PROTO
  }

  /** Map entries are submessages with the key in field 1 and the value in field 2. */
  function GetMapFrom(entries: seq<Datum>, acc: map<Bytes, Bytes>): Option<map<Bytes, Bytes>> {
    if entries == [] then Some(acc)
    else if entries[0].Num? then GetMapFrom(entries[1..], acc)
    else
      var sub := ParseFields(entries[0].bytes);
      if sub.None? then None
      else
        var key := GetBytes(sub.value, 1);
        GetMapFrom(entries[1..], if Vanishes(key) then acc else acc[key := GetBytes(sub.value, 2)])
  }

  function GetMap(fs: seq<Field>, number: nat): Option<map<Bytes, Bytes>> {
    GetMapFrom(Of(fs, number), map[])
  }

  function Entries(m: map<nat, seq<Datum>>, number: nat): seq<Datum> {
    if number in m then m[number] else []
  }

  /** The loop behind all this, grouping by field number as it goes. */
  method DecodeFields(buf: Bytes) returns (r: Option<map<nat, seq<Datum>>>)
    ensures r.Some? <==> ParseFields(buf).Some?
    ensures r.Some? ==> forall n :: Entries(r.value, n) == Of(ParseFields(buf).value, n)
  {
    hide LooseVarint, ReadField, Of;
    var fields: map<nat, seq<Datum>> := map[];
    var pos := 0;
    ghost var done: seq<Field> := [];
    assert forall n :: Of(done, n) == [] by { NoFields(); }
    assert From(buf, 0) == buf;
    assert ParseFields(buf) == Then([], ParseFields(buf)) by { NothingThen(ParseFields(buf)); }
    while pos < |buf|
      invariant ParseFields(buf) == Then(done, ParseFields(From(buf, pos)))
      invariant forall n :: Entries(fields, n) == Of(done, n)
      decreases |buf| - pos
    {
      var tag, at := DecodeVarint(buf, pos);
      var f, next := DecodeField(buf, at, tag / 8, tag % 8);
      assert buf[pos..][at - pos..] == buf[at..];
      if f.None? { return None; }
      var more := fields[f.value.number := Entries(fields, f.value.number) + [f.value.data]];
      forall n ensures Entries(more, n) == Of(done + [f.value], n) { OneMore(done, f.value, n); }
      ThenThen(done, [f.value], ParseFields(From(buf, next)));
      fields, pos, done := more, next, done + [f.value];
    }
    r := Some(fields);
    assert Then(done, Some([])) == Some(done) by { assert done + [] == done; }
  }

  lemma NoFields()
    ensures forall n :: Of([], n) == []
  {
  }

  lemma NothingThen(r: Option<seq<Field>>)
    ensures Then([], r) == r
  {
    if r.Some? { assert [] + r.value == r.value; }
  }

  lemma OneMore(fs: seq<Field>, f: Field, n: nat)
    ensures Of(fs + [f], n) == Of(fs, n) + (if f.number == n then [f.data] else [])
  {
    OfConcat(fs, [f], n);
    assert Of([f], n) == if f.number == n then [f.data] else [];
  }

  lemma ThenThen(a: seq<Field>, b: seq<Field>, r: Option<seq<Field>>)
    ensures Then(a, Then(b, r)) == Then(a + b, r)
  {
    if r.Some? { assert a + (b + r.value) == (a + b) + r.value; }
  }

  /** One round of the switch; the position may run past the end of the buffer. */
  method DecodeField(buf: Bytes, at: nat, number: nat, wire: nat) returns (f: Option<Field>, next: nat)
    requires at <= |buf|
    ensures next >= at
    ensures f.None? <==> ReadField(number, wire, buf[at..]).None?
    ensures f.Some? ==> ReadField(number, wire, buf[at..]) == Some((f.value, From(buf, next)))
  {
    hide LooseVarint, LittleEndian;
    if wire == 0 {
      var value, pos := DecodeVarint(buf, at);
      assert buf[at..][pos - at..] == buf[pos..];
      return Some(Field(number, wire, Num(value))), pos;
    } else if wire == 2 {
      var len, pos := DecodeVarint(buf, at);
      assert buf[at..][pos - at..] == buf[pos..];
      var end := if pos + len < |buf| then pos + len else |buf|;
      assert buf[pos..end] == Take(buf[pos..], len);
      assert From(buf[pos..], len) == From(buf, pos + len);
      return Some(Field(number, wire, Buf(buf[pos..end]))), pos + len;
    } else if wire == 5 && at + 4 <= |buf| {
      assert buf[at..][..4] == buf[at..at + 4] && buf[at..][4..] == buf[at + 4..];
      return Some(Field(number, wire, Num(LittleEndian(buf[at..at + 4])))), at + 4;
    } else if wire == 1 && at + 8 <= |buf| {
      assert buf[at..][..8] == buf[at..at + 8] && buf[at..][8..] == buf[at + 8..];
      return Some(Field(number, wire, Num(LittleEndian(buf[at..at + 8])))), at + 8;
    }
    return None, at;
  }
}
