/**
 Request and response payloads: what each hand-written encoder writes, the general parser
 reads back, and the publish-response fast path answers as the general parser does.
 */
module Payloads {
  import opened Types
  import opened Varints
  import opened Protobuf
  import RecordCodec

  /** One tag byte carries field numbers below 16. */
  function Tag(number: nat, wire: nat): Bytes
    requires number < 16 && wire < 8
  {
    [(number * 8 + wire) as byte]
  }

  function BytesField(number: nat, s: Bytes): Bytes
    requires number < 16
  {
    Tag(number, 2) + Prefixed(s)
  }

  function NumberField(number: nat, n: nat): Bytes
    requires number < 16
  {
    Tag(number, 0) + Uvarint(n)
  }

  lemma TagReads(number: nat, wire: nat, rest: Bytes)
    requires 0 < number < 16 && wire < 8
    ensures LooseVarint(Tag(number, wire) + rest, 0) == (number * 8 + wire, 1)
    ensures (Tag(number, wire) + rest)[1..] == rest
  {
  }

  lemma ParseTagged(number: nat, wire: nat, rest: Bytes)
    requires 0 < number < 16 && wire < 8
    ensures ParseFields(Tag(number, wire) + rest) ==
            var f := ReadField(number, wire, rest);
            if f.None? then None else Then([f.value.0], ParseFields(f.value.1))
  {
    hide LooseVarint, ReadField, Tag;
    TagReads(number, wire, rest);
  }

  lemma ParseBytesField(number: nat, s: Bytes, rest: Bytes)
    requires 0 < number < 16 && |s| < U64
    ensures ParseFields(BytesField(number, s) + rest) == Then([Field(number, 2, Buf(s))], ParseFields(rest))
  {
    hide LooseVarint, ParseFields, Uvarint;
    var body := Prefixed(s) + rest;
    assert BytesField(number, s) + rest == Tag(number, 2) + body;
    ParseTagged(number, 2, body);
    assert body == Uvarint(|s|) + (s + rest);
    LooseRoundTrip(|s|, s + rest);
    assert body[|Uvarint(|s|)|..] == s + rest;
    assert Take(s + rest, |s|) == s;
    assert From(s + rest, |s|) == rest;
  }

  lemma ParseNumberField(number: nat, n: nat, rest: Bytes)
    requires 0 < number < 16 && n < U64
    ensures ParseFields(NumberField(number, n) + rest) == Then([Field(number, 0, Num(n))], ParseFields(rest))
  {
    hide LooseVarint, ParseFields, Uvarint;
    var body := Uvarint(n) + rest;
    assert NumberField(number, n) + rest == Tag(number, 0) + body;
    ParseTagged(number, 0, body);
    LooseRoundTrip(n, rest);
    assert body[|Uvarint(n)|..] == rest;
  }

  // ---------- the Go encoders ----------

  function EncodePublishResponse(id: Bytes): Bytes {
    BytesField(1, id)
  }

  function EncodeAckRequest(id: Bytes): Bytes {
    BytesField(1, id)
  }

  function EncodeSimplePublishRequest(queue: Bytes, payload: Bytes): Bytes {
    BytesField(1, queue) + BytesField(2, payload)
  }

  function EncodeSimpleConsumeRequest(queue: Bytes, prefetch: nat, visibilityTimeout: nat): Bytes {
    BytesField(1, queue)
    + ((if prefetch != 0 then NumberField(2, prefetch) else [])
       + (if visibilityTimeout != 0 then NumberField(3, visibilityTimeout) else []))
  }

  // ---------- fixed-width fields, errors, repeated fields ----------

  /** The k low bytes of a number, least significant first. */
  function FixedBytes(n: nat, k: nat): (s: Bytes)
    ensures |s| == k
  {
    if k == 0 then [] else [(n % 256) as byte] + FixedBytes(n / 256, k - 1)
  }

  function Range(k: nat): nat {
    if k == 0 then 1 else 256 * Range(k - 1)
  }

  lemma {:induction false} FixedBack(n: nat, k: nat)
    requires n < Range(k)
    ensures LittleEndian(FixedBytes(n, k)) == n
  {
    if k > 0 {
      FixedBack(n / 256, k - 1);
      assert FixedBytes(n, k)[1..] == FixedBytes(n / 256, k - 1);
    }
  }

  lemma Ranges()
    ensures Range(4) == 0x1_0000_0000 && Range(8) == U64
  {
    assert Range(2) == 0x1_0000;
    assert Range(6) == 0x1_0000_0000_0000;
  }

  /** A 32-bit field (wire type 5) or a 64-bit field (wire type 1) parses to its number. */
  lemma ParseFixedField(number: nat, wide: bool, n: nat, rest: Bytes)
    requires 0 < number < 16 && n < (if wide then U64 else 0x1_0000_0000)
    ensures var wire := if wide then 1 else 5;
            ParseFields(Tag(number, wire) + (FixedBytes(n, if wide then 8 else 4) + rest)) ==
            Then([Field(number, wire, Num(n))], ParseFields(rest))
  {
    hide LooseVarint, ParseFields, LittleEndian, FixedBytes, Range;
    var wire, k := if wide then 1 else 5, if wide then 8 else 4;
    var body := FixedBytes(n, k) + rest;
    ParseTagged(number, wire, body);
    Ranges();
    FixedBack(n, k);
    assert body[..k] == FixedBytes(n, k) && body[k..] == rest;
  }

  /** After a tag the parser fails exactly on an unknown wire type or a fixed field cut short. */
  lemma FieldFailsIff(number: nat, wire: nat, rest: Bytes)
    requires 0 < number < 16 && wire < 8
    ensures ReadField(number, wire, rest).None? <==>
            wire in {3, 4, 6, 7} || (wire == 5 && |rest| < 4) || (wire == 1 && |rest| < 8)
    ensures ReadField(number, wire, rest).None? ==> ParseFields(Tag(number, wire) + rest).None?
  {
    hide LooseVarint, LittleEndian, ParseFields;
    ParseTagged(number, wire, rest);
  }

  /** Of several fields with one number the first one counts. */
  lemma {:induction false} FirstCounts(before: seq<Field>, f: Field, after: seq<Field>)
    requires forall i :: 0 <= i < |before| ==> before[i].number != f.number
    ensures GetBytes(before + [f] + after, f.number) == (if f.data.Buf? then f.data.bytes else [])
    ensures GetNumber(before + [f] + after, f.number) == (if f.data.Num? then f.data.n else 0)
  {
    if before == [] {
      assert before + [f] + after == [f] + after;
    } else {
      FirstCounts(before[1..], f, after);
      assert (before + [f] + after)[1..] == before[1..] + [f] + after;
    }
  }


  lemma SingleFieldRoundTrip(id: Bytes)
    requires |id| < U64
    ensures ParseFields(EncodeAckRequest(id)) == Some([Field(1, 2, Buf(id))])
    ensures ParseFields(EncodePublishResponse(id)) == Some([Field(1, 2, Buf(id))])
    ensures GetBytes([Field(1, 2, Buf(id))], 1) == id
  {
    hide ParseFields, BytesField;
    ParseBytesField(1, id, []);
    assert BytesField(1, id) + [] == BytesField(1, id);
    ParseNothing();
    assert [Field(1, 2, Buf(id))] + [] == [Field(1, 2, Buf(id))];
  }

  lemma PublishRequestFields(queue: Bytes, payload: Bytes)
    requires |queue| < U64 && |payload| < U64
    ensures ParseFields(EncodeSimplePublishRequest(queue, payload)) ==
            Some([Field(1, 2, Buf(queue)), Field(2, 2, Buf(payload))])
  {
    hide ParseFields, BytesField;
    ParseBytesField(1, queue, BytesField(2, payload));
    ParseBytesField(2, payload, []);
    assert BytesField(2, payload) + [] == BytesField(2, payload);
    ParseNothing();
    var first, second := Field(1, 2, Buf(queue)), Field(2, 2, Buf(payload));
    assert [first] + ([second] + []) == [first, second];
  }

  function OptionalNumber(number: nat, n: nat): seq<Field> {
    if n == 0 then [] else [Field(number, 0, Num(n))]
  }

  lemma ParseOptionalNumber(number: nat, n: nat, rest: Bytes)
    requires 0 < number < 16 && n < U64
    ensures ParseFields((if n != 0 then NumberField(number, n) else []) + rest) ==
            Then(OptionalNumber(number, n), ParseFields(rest))
  {
    hide ParseFields, NumberField;
    if n == 0 {
      assert [] + rest == rest;
      NothingThen(ParseFields(rest));
    } else {
      ParseNumberField(number, n, rest);
    }
  }

  lemma ConsumeRequestFields(queue: Bytes, prefetch: nat, visibilityTimeout: nat)
    requires |queue| < U64 && prefetch < 0x1_0000_0000 && visibilityTimeout < 0x1_0000_0000
    ensures ParseFields(EncodeSimpleConsumeRequest(queue, prefetch, visibilityTimeout)) ==
            Some([Field(1, 2, Buf(queue))] + (OptionalNumber(2, prefetch) + OptionalNumber(3, visibilityTimeout)))
  {
    hide ParseFields, NumberField, BytesField, OptionalNumber;
    var third := if visibilityTimeout != 0 then NumberField(3, visibilityTimeout) else [];
    var second := if prefetch != 0 then NumberField(2, prefetch) else [];
    ParseNothing();
    ParseBytesField(1, queue, second + third);
    ParseOptionalNumber(2, prefetch, third);
    ParseOptionalNumber(3, visibilityTimeout, []);
    assert third + [] == third;
    assert OptionalNumber(3, visibilityTimeout) + [] == OptionalNumber(3, visibilityTimeout);
  }

  /** The omitted zero fields read back as zero. */
  lemma ConsumeRequestRoundTrip(queue: Bytes, prefetch: nat, visibilityTimeout: nat)
    requires |queue| < U64 && prefetch < 0x1_0000_0000 && visibilityTimeout < 0x1_0000_0000
    ensures var r := ParseFields(EncodeSimpleConsumeRequest(queue, prefetch, visibilityTimeout));
            r.Some? && GetBytes(r.value, 1) == queue
            && GetNumber(r.value, 2) == prefetch && GetNumber(r.value, 3) == visibilityTimeout
  {
    hide ParseFields, EncodeSimpleConsumeRequest;
    ConsumeRequestFields(queue, prefetch, visibilityTimeout);
    var first := [Field(1, 2, Buf(queue))];
    var second, third := OptionalNumber(2, prefetch), OptionalNumber(3, visibilityTimeout);
    OfConcat(first, second + third, 2);
    OfConcat(first, second + third, 3);
    OfConcat(second, third, 2);
    OfConcat(second, third, 3);
  }

  // ---------- the fast path ----------

  /** A 64-bit result as Go's int: the residue of least absolute value. */
  function Int64(x: int): (r: int)
    ensures -I63 <= r < I63 && (r - x) % U64 == 0
  {
    var u := x % U64;
    if u < I63 then u else u - U64
  }

  /** Converting the length and adding the start both wrap; the slice is in range all the same. */
  function DecodePublishResponse(payload: Bytes): Option<Bytes>
    requires |payload| < I63
  {
    if payload == [] then Some([])
    else if payload[0] != 0x0a then None
    else
      var len := ReadUvarint(payload[1..]);
      if len.None? then None
      else
        var start := |payload| - |len.value.1|;
        var end := Int64(start + Int64(len.value.0));
        if end > |payload| then None
        else if end != |payload| then None
        else Some(payload[start..end])
  }

  /** It accepts nothing, or one field holding all the rest: wrapping never admits another length. */
  lemma FastPathIff(payload: Bytes, id: Bytes)
    requires |payload| < I63
    ensures DecodePublishResponse(payload) == Some(id) <==>
            if payload == [] then id == []
            else payload[0] == 0x0a && ReadUvarint(payload[1..]) == Some((|id|, id))
  {
    if payload != [] && payload[0] == 0x0a && ReadUvarint(payload[1..]).Some? {
      var len := ReadUvarint(payload[1..]).value;
      ReadFits(payload[1..], 0);
      ReadSuffix(payload[1..], 0);
      assert payload[1..][|payload| - 1 - |len.1|..] == payload[|payload| - |len.1|..];
      var start := |payload| - |len.1|;
      assert payload[start..|payload|] == len.1;
      EndIff(start, len.0, |payload|);
    }
  }

  lemma EndIff(start: nat, len: nat, size: nat)
    requires start <= size < I63 && len < U64
    ensures Int64(start + Int64(len)) == size <==> len == size - start
  {
    var d := Int64(start + Int64(len)) - (start + Int64(len));
    var e := Int64(len) - len;
    assert d == U64 * (d / U64) && e == U64 * (e / U64);
  }

  lemma FastPathAgrees(payload: Bytes)
    requires |payload| < I63 && DecodePublishResponse(payload).Some?
    ensures ParseFields(payload).Some?
    ensures GetBytes(ParseFields(payload).value, 1) == DecodePublishResponse(payload).value
  {
    hide DecodePublishResponse, LooseVarint, ReadUvarintAt, ParseFields;
    var id := DecodePublishResponse(payload).value;
    FastPathIff(payload, id);
    if payload == [] {
      assert ParseFields([]) == Some([]) by { ParseNothing(); }
    } else {
      var rest := payload[1..];
      assert payload == Tag(1, 2) + rest;
      ParseTagged(1, 2, rest);
      LooseAgrees(rest, 0);
      ReadSuffix(rest, 0);
      assert rest[|rest| - |id|..] == id;
      assert Take(id, |id|) == id && From(id, |id|) == [];
      ParseNothing();
    }
  }

  lemma ParseNothing()
    ensures ParseFields([]) == Some([])
  {
  }

  lemma FastPathRoundTrip(id: Bytes)
    requires |EncodePublishResponse(id)| < I63
    ensures DecodePublishResponse(EncodePublishResponse(id)) == Some(id)
  {
    var payload := EncodePublishResponse(id);
    UvarintRoundTrip(|id|, id);
    assert payload[1..] == Prefixed(id);
    FastPathIff(payload, id);
  }

  // ---------- the client's publish request ----------

  /** Empty text is left out. */
  function StringField(number: nat, s: Bytes): Bytes
    requires number < 16
  {
    if s == [] then [] else BytesField(number, s)
  }

  function Entry(key: Bytes, value: Bytes): Bytes {
    StringField(1, key) + StringField(2, value)
  }

  function MapField(number: nat, order: seq<Bytes>, h: map<Bytes, Bytes>): Bytes
    requires number < 16 && forall k :: k in order ==> k in h
  {
    if order == [] then [] else BytesField(number, Entry(order[0], h[order[0]])) + MapField(number, order[1..], h)
  }

  function EncodePublishRequest(queue: Bytes, payload: Bytes, order: seq<Bytes>, headers: map<Bytes, Bytes>,
                                id: Bytes, idempotencyKey: Bytes): Bytes
    requires forall k :: k in order ==> k in headers
  {
    StringField(1, queue)
    + (StringField(2, payload)
       + (MapField(3, order, headers)
          + (StringField(4, id) + StringField(5, idempotencyKey))))
  }

  function StringFields(number: nat, s: Bytes): seq<Field> {
    if s == [] then [] else [Field(number, 2, Buf(s))]
  }

  function MapFields(number: nat, order: seq<Bytes>, h: map<Bytes, Bytes>): seq<Field>
    requires forall k :: k in order ==> k in h
  {
    if order == [] then []
    else [Field(number, 2, Buf(Entry(order[0], h[order[0]])))] + MapFields(number, order[1..], h)
  }

  lemma ParseStringField(number: nat, s: Bytes, rest: Bytes)
    requires 0 < number < 16 && |s| < U64
    ensures ParseFields(StringField(number, s) + rest) == Then(StringFields(number, s), ParseFields(rest))
  {
    if s == [] {
      assert [] + rest == rest;
      NothingThen(ParseFields(rest));
    } else {
      ParseBytesField(number, s, rest);
    }
  }

  /** Entries, and so their parts, are shorter than 2^64. */
  ghost predicate ShortEntries(h: map<Bytes, Bytes>) {
    forall k :: k in h ==> |k| < U64 && |h[k]| < U64 && |Entry(k, h[k])| < U64
  }

  lemma {:induction false} ParseMapField(number: nat, order: seq<Bytes>, h: map<Bytes, Bytes>, rest: Bytes)
    requires 0 < number < 16 && ShortEntries(h) && forall k :: k in order ==> k in h
    ensures ParseFields(MapField(number, order, h) + rest) == Then(MapFields(number, order, h), ParseFields(rest))
  {
    hide ParseFields, BytesField, Entry, Then;
    if order == [] {
      assert [] + rest == rest;
      NothingThen(ParseFields(rest));
    } else {
      var e := Entry(order[0], h[order[0]]);
      var more := MapField(number, order[1..], h) + rest;
      assert MapField(number, order, h) + rest == BytesField(number, e) + more;
      ParseBytesField(number, e, more);
      ParseMapField(number, order[1..], h, rest);
      ThenThen([Field(number, 2, Buf(e))], MapFields(number, order[1..], h), ParseFields(rest));
    }
  }

  lemma EntryRoundTrip(key: Bytes, value: Bytes)
    requires |key| < U64 && |value| < U64
    ensures var sub := ParseFields(Entry(key, value));
            sub.Some? && GetBytes(sub.value, 1) == key && GetBytes(sub.value, 2) == value
  {
    hide LooseVarint, ReadField, BytesField, ParseFields;
    ParseStringField(1, key, StringField(2, value));
    ParseStringField(2, value, []);
    assert StringField(2, value) + [] == StringField(2, value);
    assert StringFields(2, value) + [] == StringFields(2, value);
    ParseNothing();
    OfConcat(StringFields(1, key), StringFields(2, value), 1);
    OfConcat(StringFields(1, key), StringFields(2, value), 2);
  }

  /** Overwriting in iteration order, without the keys that vanish. */
  function Collected(order: seq<Bytes>, h: map<Bytes, Bytes>, acc: map<Bytes, Bytes>): map<Bytes, Bytes>
    requires forall k :: k in order ==> k in h
  {
    if order == [] then acc
    else Collected(order[1..], h, if Vanishes(order[0]) then acc else acc[order[0] := h[order[0]]])
  }

  /** Later entries win, each key at its own value; keys not listed keep theirs. */
  lemma {:induction false} CollectedAt(order: seq<Bytes>, h: map<Bytes, Bytes>, acc: map<Bytes, Bytes>, k: Bytes)
    requires forall k :: k in order ==> k in h
    ensures k in Collected(order, h, acc) <==> k in acc || (k in order && !Vanishes(k))
    ensures k in Collected(order, h, acc) ==>
              Collected(order, h, acc)[k] == if k in order && !Vanishes(k) then h[k] else acc[k]
  {
    if order != [] {
      CollectedAt(order[1..], h, if Vanishes(order[0]) then acc else acc[order[0] := h[order[0]]], k);
      assert k in order <==> k == order[0] || k in order[1..];
    }
  }

  lemma CollectedAll(order: seq<Bytes>, h: map<Bytes, Bytes>)
    requires RecordCodec.Listing(order, h)
    ensures Collected(order, h, map[]) == h - {[], PROTO}
  {
    hide Collected;
    forall k ensures k in Collected(order, h, map[]) <==> k in h - {[], PROTO} { CollectedAt(order, h, map[], k); }
    forall k | k in h - {[], PROTO} ensures Collected(order, h, map[])[k] == h[k] { CollectedAt(order, h, map[], k); }
  }

  function Data(number: nat, order: seq<Bytes>, h: map<Bytes, Bytes>): seq<Datum>
    requires forall k :: k in order ==> k in h
  {
    Of(MapFields(number, order, h), number)
  }

  lemma {:induction false} GetMapBack(number: nat, order: seq<Bytes>, h: map<Bytes, Bytes>, acc: map<Bytes, Bytes>)
    requires ShortEntries(h) && forall k :: k in order ==> k in h
    ensures GetMapFrom(Data(number, order, h), acc) == Some(Collected(order, h, acc))
  {
    hide Entry, ParseFields;
    if order != [] {
      var k := order[0];
      assert MapFields(number, order, h)[1..] == MapFields(number, order[1..], h);
      var d := Data(number, order, h);
      assert d == [Buf(Entry(k, h[k]))] + Data(number, order[1..], h);
      assert d[1..] == Data(number, order[1..], h);
      EntryRoundTrip(k, h[k]);
      GetMapBack(number, order[1..], h, if Vanishes(k) then acc else acc[k := h[k]]);
    }
  }

  lemma {:induction false} OnlyIts(number: nat, other: nat, order: seq<Bytes>, h: map<Bytes, Bytes>)
    requires number != other && forall k :: k in order ==> k in h
    ensures Of(MapFields(number, order, h), other) == []
  {
    if order != [] {
      assert MapFields(number, order, h)[1..] == MapFields(number, order[1..], h);
      OnlyIts(number, other, order[1..], h);
    }
  }

  /** The five parts of a publish request, parsed. */
  function RequestFields(queue: Bytes, payload: Bytes, order: seq<Bytes>, headers: map<Bytes, Bytes>,
                         id: Bytes, idempotencyKey: Bytes): seq<Field>
    requires forall k :: k in order ==> k in headers
  {
    StringFields(1, queue)
    + (StringFields(2, payload)
       + (MapFields(3, order, headers)
          + (StringFields(4, id) + StringFields(5, idempotencyKey))))
  }

  lemma RequestParses(queue: Bytes, payload: Bytes, order: seq<Bytes>, headers: map<Bytes, Bytes>,
                      id: Bytes, idempotencyKey: Bytes)
    requires forall k :: k in order ==> k in headers
    requires ShortEntries(headers)
    requires |queue| < U64 && |payload| < U64 && |id| < U64 && |idempotencyKey| < U64
    ensures ParseFields(EncodePublishRequest(queue, payload, order, headers, id, idempotencyKey)) ==
            Some(RequestFields(queue, payload, order, headers, id, idempotencyKey))
  {
    hide ParseFields, StringField, MapField, StringFields, MapFields, ShortEntries;
    var e5 := StringField(5, idempotencyKey);
    var e4 := StringField(4, id) + e5;
    var e3 := MapField(3, order, headers) + e4;
    var e2 := StringField(2, payload) + e3;
    ParseStringField(1, queue, e2);
    ParseStringField(2, payload, e3);
    ParseMapField(3, order, headers, e4);
    ParseStringField(4, id, e5);
    ParseStringField(5, idempotencyKey, []);
    ParseNothing();
    assert e5 + [] == e5;
    assert StringFields(5, idempotencyKey) + [] == StringFields(5, idempotencyKey);
  }

  lemma FieldOf(queue: Bytes, payload: Bytes, order: seq<Bytes>, headers: map<Bytes, Bytes>,
                id: Bytes, idempotencyKey: Bytes, n: nat)
    requires forall k :: k in order ==> k in headers
    ensures Of(RequestFields(queue, payload, order, headers, id, idempotencyKey), n) ==
            Of(StringFields(1, queue), n)
            + (Of(StringFields(2, payload), n)
               + (Of(MapFields(3, order, headers), n)
                  + (Of(StringFields(4, id), n) + Of(StringFields(5, idempotencyKey), n))))
  {
    hide Of, StringFields, MapFields;
    var f4 := StringFields(4, id) + StringFields(5, idempotencyKey);
    var f3 := MapFields(3, order, headers) + f4;
    OfConcat(StringFields(4, id), StringFields(5, idempotencyKey), n);
    OfConcat(MapFields(3, order, headers), f4, n);
    OfConcat(StringFields(2, payload), f3, n);
    OfConcat(StringFields(1, queue), StringFields(2, payload) + f3, n);
  }

  lemma StringOf(number: nat, s: Bytes, n: nat)
    ensures Of(StringFields(number, s), n) == if number == n && s != [] then [Buf(s)] else []
  {
  }

  lemma Singular(queue: Bytes, payload: Bytes, order: seq<Bytes>, headers: map<Bytes, Bytes>,
                 id: Bytes, idempotencyKey: Bytes)
    requires forall k :: k in order ==> k in headers
    ensures var fs := RequestFields(queue, payload, order, headers, id, idempotencyKey);
            && GetBytes(fs, 1) == queue && GetBytes(fs, 2) == payload
            && Of(fs, 3) == Data(3, order, headers)
            && GetBytes(fs, 4) == id && GetBytes(fs, 5) == idempotencyKey
  {
    hide RequestFields, MapFields, Of, StringFields;
    forall n | 1 <= n <= 5
      ensures Of(RequestFields(queue, payload, order, headers, id, idempotencyKey), n) ==
              if n == 1 then Of(StringFields(1, queue), 1) else if n == 2 then Of(StringFields(2, payload), 2)
              else if n == 3 then Data(3, order, headers) else if n == 4 then Of(StringFields(4, id), 4)
              else Of(StringFields(5, idempotencyKey), 5)
    {
      FieldOf(queue, payload, order, headers, id, idempotencyKey, n);
      StringOf(1, queue, n);
      StringOf(2, payload, n);
      StringOf(4, id, n);
      StringOf(5, idempotencyKey, n);
      if n != 3 { OnlyIts(3, n, order, headers); }
    }
    StringOf(1, queue, 1);
    StringOf(2, payload, 2);
    StringOf(4, id, 4);
    StringOf(5, idempotencyKey, 5);
  }

  /** For every iteration order of the headers, every field comes back; left-out ones as empty.
      Only headers named "" and "__proto__" are lost. */
  lemma PublishRequestRoundTrip(queue: Bytes, payload: Bytes, order: seq<Bytes>, headers: map<Bytes, Bytes>,
                                id: Bytes, idempotencyKey: Bytes)
    requires RecordCodec.Listing(order, headers) && ShortEntries(headers)
    requires |queue| < U64 && |payload| < U64 && |id| < U64 && |idempotencyKey| < U64
    ensures var r := ParseFields(EncodePublishRequest(queue, payload, order, headers, id, idempotencyKey));
            && r.Some?
            && GetBytes(r.value, 1) == queue && GetBytes(r.value, 2) == payload
            && GetMap(r.value, 3) == Some(headers - {[], PROTO})
            && GetBytes(r.value, 4) == id && GetBytes(r.value, 5) == idempotencyKey
  {
    hide ParseFields, ShortEntries, EncodePublishRequest, RequestFields, MapFields, GetMapFrom, Collected, Of,
      StringFields;
    RequestParses(queue, payload, order, headers, id, idempotencyKey);
    Singular(queue, payload, order, headers, id, idempotencyKey);
    GetMapBack(3, order, headers, map[]);
    CollectedAll(order, headers);
  }
}
