/**
 The storage record. A version byte, then the message's fields; in version 2 the id and the
 queue are in the key, in version 1 they lead the record. Headers are a Go map: the encoder
 writes them in whatever order it meets them.
 */
module RecordCodec {
  import opened Types
  import opened Varints

  type Headers = map<Bytes, Bytes>

  /** The headers in some iteration order: each entry once. */
  ghost predicate Listing(order: seq<Bytes>, h: Headers) {
    && (forall k :: k in order <==> k in h)
    && (forall i, j :: 0 <= i < j < |order| ==> order[i] != order[j])
  }

  /** Values the wire format can carry: 64-bit lengths and times, 32-bit attempts. */
  ghost predicate Encodable(m: Message) {
    && |m.payload| < U64 && |m.orderingKey| < U64 && |m.headers| < U64
    && |m.id| < U64 && |m.queue| < U64
    && (forall k :: k in m.headers ==> |k| < U64 && |m.headers[k]| < U64)
    && m.attempt < 0x1_0000_0000 && m.sequence < U64
    && -I63 <= m.publishedAt < I63 && -I63 <= m.visibleAt < I63
  }

  // ---------- encoding ----------

  function HeaderBytes(order: seq<Bytes>, h: Headers): Bytes
    requires forall k :: k in order ==> k in h
  {
    if order == [] then []
    else Prefixed(order[0]) + Prefixed(h[order[0]]) + HeaderBytes(order[1..], h)
  }

  function Fields(m: Message, order: seq<Bytes>): Bytes
    requires forall k :: k in order ==> k in m.headers
  {
    Prefixed(m.payload) + (Uvarint(|m.headers|) + (HeaderBytes(order, m.headers) + Trailer(m)))
  }

  function Trailer(m: Message): Bytes {
    Uvarint(m.attempt) + (Varint(m.publishedAt) + Ending(m))
  }

  function Ending(m: Message): Bytes {
    Varint(m.visibleAt) + (Prefixed(m.orderingKey) + Uvarint(m.sequence))
  }

  const V1: byte := 1
  const V2: byte := 2

  function EncodeV2(m: Message, order: seq<Bytes>): Bytes
    requires forall k :: k in order ==> k in m.headers
  {
    [V2] + Fields(m, order)
  }

  function EncodeV1(m: Message, order: seq<Bytes>): Bytes
    requires forall k :: k in order ==> k in m.headers
  {
    [V1] + (Prefixed(m.id) + (Prefixed(m.queue) + Fields(m, order)))
  }

  // ---------- decoding ----------

  /** Reads `count` entries into `acc`; a repeated key overwrites. */
  function ReadHeaders(data: Bytes, count: nat, acc: Headers): Parsed<Headers>
    decreases count
  {
    if count == 0 then Some((acc, data))
    else
      var k := ReadBytes(data);
      if k.None? then None
      else
        var v := ReadBytes(k.value.1);
        if v.None? then None else ReadHeaders(v.value.1, count - 1, acc[k.value.0 := v.value.0])
  }

  function Uint32(x: nat): nat {
    x % 0x1_0000_0000
  }

  function ReadTrailer(data: Bytes, m: Message): Parsed<Message> {
    var attempt := ReadUvarint(data);
    if attempt.None? then None else
    var published := ReadVarint(attempt.value.1);
    if published.None? then None else
    ReadEnding(published.value.1, m.(attempt := Uint32(attempt.value.0), publishedAt := published.value.0))
  }

  function ReadEnding(data: Bytes, m: Message): Parsed<Message> {
    var visible := ReadVarint(data);
    if visible.None? then None else
    var key := ReadBytes(visible.value.1);
    if key.None? then None else
    var sequence := ReadUvarint(key.value.1);
    if sequence.None? then None else
    Some((m.(visibleAt := visible.value.0, orderingKey := key.value.0, sequence := sequence.value.0),
          sequence.value.1))
  }

  function ReadFields(data: Bytes, m: Message): Parsed<Message> {
    var payload := ReadBytes(data);
    if payload.None? then None else
    var count := ReadUvarint(payload.value.1);
    if count.None? then None else
    var headers := ReadHeaders(count.value.1, count.value.0, map[]);
    if headers.None? then None else
    ReadTrailer(headers.value.1, m.(payload := payload.value.0, headers := headers.value.0))
  }

  /** `NotBinary` is left to the JSON decoder. */
  datatype Decoded = Ok(msg: Message) | Malformed | NotBinary

  /** What follows the record is not looked at. */
  function Outcome(r: Parsed<Message>): Decoded {
    if r.Some? then Ok(r.value.0) else Malformed
  }

  function ReadV1(data: Bytes, m: Message): Parsed<Message> {
    var id := ReadBytes(data);
    if id.None? then None else
    var queue := ReadBytes(id.value.1);
    if queue.None? then None else
    ReadFields(queue.value.1, m.(id := id.value.0, queue := queue.value.0))
  }

  /** Total on every byte string: no read goes past the end. */
  function Decode(data: Bytes, m: Message): Decoded {
    if data == [] then Malformed
    else if data[0] == V1 then Outcome(ReadV1(data[1..], m))
    else if data[0] == V2 then Outcome(ReadFields(data[1..], m))
    else NotBinary
  }

  // ---------- round trips ----------

  /** The entries of `order` as a map. */
  ghost function Entries(order: seq<Bytes>, h: Headers): Headers
    requires forall k :: k in order ==> k in h
  {
    map k | k in order :: h[k]
  }

  lemma {:induction false} HeadersRoundTrip(order: seq<Bytes>, h: Headers, rest: Bytes, acc: Headers)
    requires forall k :: k in order ==> k in h && |k| < U64 && |h[k]| < U64
    ensures ReadHeaders(HeaderBytes(order, h) + rest, |order|, acc) == Some((acc + Entries(order, h), rest))
  {
    hide Prefixed, ReadBytes, Entries;
    if order == [] {
      assert HeaderBytes(order, h) + rest == rest;
      NoEntries(h, acc);
    } else {
      var k, tail := order[0], order[1..];
      var after := HeaderBytes(tail, h) + rest;
      assert HeaderBytes(order, h) + rest == Prefixed(k) + (Prefixed(h[k]) + after);
      PrefixedRoundTrip(k, Prefixed(h[k]) + after);
      PrefixedRoundTrip(h[k], after);
      HeadersRoundTrip(tail, h, rest, acc[k := h[k]]);
      FirstEntry(order, h, acc);
    }
  }

  lemma FirstEntry(order: seq<Bytes>, h: Headers, acc: Headers)
    requires order != [] && forall k :: k in order ==> k in h
    ensures acc[order[0] := h[order[0]]] + Entries(order[1..], h) == acc + Entries(order, h)
  {
  }

  lemma NoEntries(h: Headers, acc: Headers)
    ensures acc + Entries([], h) == acc
  {
  }

  lemma Assoc(a: Bytes, b: Bytes, c: Bytes)
    ensures (a + b) + c == a + (b + c)
  {
  }

  lemma TrailerRoundTrip(m: Message, rest: Bytes, base: Message)
    requires Encodable(m)
    ensures ReadTrailer(Trailer(m) + rest, base) ==
            Some((base.(attempt := m.attempt, publishedAt := m.publishedAt, visibleAt := m.visibleAt,
                        orderingKey := m.orderingKey, sequence := m.sequence), rest))
  {
    hide Uvarint, Varint, ReadUvarint, ReadVarint, Ending, ReadEnding, Encodable, Uint32;
    NumbersInRange(m);
    var tail := Varint(m.publishedAt) + Ending(m);
    Assoc(Uvarint(m.attempt), tail, rest);
    UvarintRoundTrip(m.attempt, tail + rest);
    Assoc(Varint(m.publishedAt), Ending(m), rest);
    VarintRoundTrip(m.publishedAt, Ending(m) + rest);
    EndingRoundTrip(m, rest, base.(attempt := m.attempt, publishedAt := m.publishedAt));
  }

  lemma NumbersInRange(m: Message)
    requires Encodable(m)
    ensures |m.orderingKey| < U64 && m.attempt < U64 && Uint32(m.attempt) == m.attempt && m.sequence < U64
    ensures -I63 <= m.publishedAt < I63 && -I63 <= m.visibleAt < I63
  {
  }

  lemma EndingRoundTrip(m: Message, rest: Bytes, base: Message)
    requires Encodable(m)
    ensures ReadEnding(Ending(m) + rest, base) ==
            Some((base.(visibleAt := m.visibleAt, orderingKey := m.orderingKey, sequence := m.sequence), rest))
  {
    hide Uvarint, Varint, Prefixed, ReadUvarint, ReadVarint, ReadBytes, Encodable;
    NumbersInRange(m);
    var tail := Prefixed(m.orderingKey) + Uvarint(m.sequence);
    Assoc(Varint(m.visibleAt), tail, rest);
    VarintRoundTrip(m.visibleAt, tail + rest);
    Assoc(Prefixed(m.orderingKey), Uvarint(m.sequence), rest);
    PrefixedRoundTrip(m.orderingKey, Uvarint(m.sequence) + rest);
    UvarintRoundTrip(m.sequence, rest);
  }

  lemma {:induction false} ListingSize(order: seq<Bytes>, h: Headers)
    requires Listing(order, h)
    ensures |order| == |h|
  {
    if order == [] {
      assert h == map[];
    } else {
      var k, p := order[|order| - 1], order[..|order| - 1];
      assert k in h;
      assert Listing(p, h - {k});
      ListingSize(p, h - {k});
      assert h.Keys == (h - {k}).Keys + {k};
    }
  }

  lemma AllEntries(order: seq<Bytes>, h: Headers)
    requires Listing(order, h)
    ensures map[] + Entries(order, h) == h
  {
  }

  lemma InRange(m: Message)
    requires Encodable(m)
    ensures |m.payload| < U64 && |m.headers| < U64 && |m.id| < U64 && |m.queue| < U64
    ensures forall k :: k in m.headers ==> |k| < U64 && |m.headers[k]| < U64
  {
  }

  lemma FieldsRoundTrip(m: Message, order: seq<Bytes>, rest: Bytes, base: Message)
    requires Encodable(m) && Listing(order, m.headers)
    ensures ReadFields(Fields(m, order) + rest, base) == Some((m.(id := base.id, queue := base.queue), rest))
  {
    hide Uvarint, Prefixed, ReadUvarint, ReadBytes, ReadHeaders, HeaderBytes, Trailer, ReadTrailer, Encodable, Entries;
    InRange(m);
    var s3 := Trailer(m);
    var s2 := HeaderBytes(order, m.headers) + s3;
    var s1 := Uvarint(|m.headers|) + s2;
    Assoc(Prefixed(m.payload), s1, rest);
    PrefixedRoundTrip(m.payload, s1 + rest);
    Assoc(Uvarint(|m.headers|), s2, rest);
    UvarintRoundTrip(|m.headers|, s2 + rest);
    Assoc(HeaderBytes(order, m.headers), s3, rest);
    ListingSize(order, m.headers);
    HeadersRoundTrip(order, m.headers, s3 + rest, map[]);
    AllEntries(order, m.headers);
    TrailerRoundTrip(m, rest, base.(payload := m.payload, headers := m.headers));
  }

  /** Decoding a version 2 record gives the message back, whatever order its headers were
      written in, whatever bytes follow it; id and queue come from the key. */
  lemma RoundTripV2(m: Message, order: seq<Bytes>, rest: Bytes, base: Message)
    requires Encodable(m) && Listing(order, m.headers) && base.id == m.id && base.queue == m.queue
    ensures Decode(EncodeV2(m, order) + rest, base) == Ok(m)
  {
    hide Fields, ReadFields;
    assert (EncodeV2(m, order) + rest)[1..] == Fields(m, order) + rest;
    FieldsRoundTrip(m, order, rest, base);
  }

  /** A version 1 record carries id and queue itself and decodes to the same message. */
  lemma RoundTripV1(m: Message, order: seq<Bytes>, rest: Bytes, base: Message)
    requires Encodable(m) && Listing(order, m.headers)
    ensures Decode(EncodeV1(m, order) + rest, base) == Ok(m)
  {
    hide Fields, ReadV1, Prefixed, Encodable;
    assert (EncodeV1(m, order) + rest)[1..] == Prefixed(m.id) + (Prefixed(m.queue) + Fields(m, order)) + rest;
    V1RoundTrip(m, order, rest, base);
  }

  lemma V1RoundTrip(m: Message, order: seq<Bytes>, rest: Bytes, base: Message)
    requires Encodable(m) && Listing(order, m.headers)
    ensures ReadV1(Prefixed(m.id) + (Prefixed(m.queue) + Fields(m, order)) + rest, base) == Some((m, rest))
  {
    hide Fields, ReadFields, Prefixed, ReadBytes, Encodable;
    InRange(m);
    var s2 := Fields(m, order);
    var s1 := Prefixed(m.queue) + s2;
    Assoc(Prefixed(m.id), s1, rest);
    PrefixedRoundTrip(m.id, s1 + rest);
    Assoc(Prefixed(m.queue), s2, rest);
    PrefixedRoundTrip(m.queue, s2 + rest);
    FieldsRoundTrip(m, order, rest, base.(id := m.id, queue := m.queue));
  }

  // ---------- records cut short ----------

  /** Bytes after what a reader reads do not change what it reads. */
  lemma {:induction false} UvarintStable(data: Bytes, more: Bytes, i: nat)
    requires i <= 10 && ReadUvarintAt(data, i).Some?
    ensures var r := ReadUvarintAt(data, i).value; ReadUvarintAt(data + more, i) == Some((r.0, r.1 + more))
  {
    assert (data + more)[1..] == data[1..] + more;
    if data[0] >= 128 { UvarintStable(data[1..], more, i + 1); }
  }

  lemma VarintStable(data: Bytes, more: Bytes)
    requires ReadVarint(data).Some?
    ensures var r := ReadVarint(data).value; ReadVarint(data + more) == Some((r.0, r.1 + more))
  {
    UvarintStable(data, more, 0);
  }

  lemma BytesStable(data: Bytes, more: Bytes)
    requires ReadBytes(data).Some?
    ensures var r := ReadBytes(data).value; ReadBytes(data + more) == Some((r.0, r.1 + more))
  {
    hide ReadUvarintAt;
    UvarintStable(data, more, 0);
    var len := ReadUvarint(data).value;
    assert (len.1 + more)[..len.0] == len.1[..len.0] && (len.1 + more)[len.0..] == len.1[len.0..] + more;
  }

  lemma {:induction false} HeadersStable(data: Bytes, count: nat, acc: Headers, more: Bytes)
    requires ReadHeaders(data, count, acc).Some?
    ensures var r := ReadHeaders(data, count, acc).value;
            ReadHeaders(data + more, count, acc) == Some((r.0, r.1 + more))
    decreases count
  {
    hide ReadBytes;
    if count > 0 {
      var k := ReadBytes(data).value;
      var v := ReadBytes(k.1).value;
      BytesStable(data, more);
      BytesStable(k.1, more);
      HeadersStable(v.1, count - 1, acc[k.0 := v.0], more);
    }
  }

  lemma EndingStable(data: Bytes, m: Message, more: Bytes)
    requires ReadEnding(data, m).Some?
    ensures var r := ReadEnding(data, m).value; ReadEnding(data + more, m) == Some((r.0, r.1 + more))
  {
    hide ReadVarint, ReadBytes, ReadUvarintAt;
    var visible := ReadVarint(data).value;
    var key := ReadBytes(visible.1).value;
    VarintStable(data, more);
    BytesStable(visible.1, more);
    UvarintStable(key.1, more, 0);
  }

  lemma TrailerStable(data: Bytes, m: Message, more: Bytes)
    requires ReadTrailer(data, m).Some?
    ensures var r := ReadTrailer(data, m).value; ReadTrailer(data + more, m) == Some((r.0, r.1 + more))
  {
    hide ReadVarint, ReadEnding, ReadUvarintAt, Uint32;
    var attempt := ReadUvarint(data).value;
    var published := ReadVarint(attempt.1).value;
    UvarintStable(data, more, 0);
    VarintStable(attempt.1, more);
    EndingStable(published.1, m.(attempt := Uint32(attempt.0), publishedAt := published.0), more);
  }

  lemma FieldsStable(data: Bytes, m: Message, more: Bytes)
    requires ReadFields(data, m).Some?
    ensures var r := ReadFields(data, m).value; ReadFields(data + more, m) == Some((r.0, r.1 + more))
  {
    hide ReadBytes, ReadHeaders, ReadTrailer, ReadUvarintAt;
    var payload := ReadBytes(data).value;
    var count := ReadUvarint(payload.1).value;
    var headers := ReadHeaders(count.1, count.0, map[]).value;
    BytesStable(data, more);
    UvarintStable(payload.1, more, 0);
    HeadersStable(count.1, count.0, map[], more);
    TrailerStable(headers.1, m.(payload := payload.0, headers := headers.0), more);
  }

  lemma V1Stable(data: Bytes, m: Message, more: Bytes)
    requires ReadV1(data, m).Some?
    ensures var r := ReadV1(data, m).value; ReadV1(data + more, m) == Some((r.0, r.1 + more))
  {
    hide ReadBytes, ReadFields;
    var id := ReadBytes(data).value;
    var queue := ReadBytes(id.1).value;
    BytesStable(data, more);
    BytesStable(id.1, more);
    FieldsStable(queue.1, m.(id := id.0, queue := queue.0), more);
  }

  /** A record cut short anywhere is malformed: no part of a message passes for a message. */
  lemma CutShortV2(m: Message, order: seq<Bytes>, k: nat, base: Message)
    requires Encodable(m) && Listing(order, m.headers) && k < |EncodeV2(m, order)|
    ensures Decode(EncodeV2(m, order)[..k], base) == Malformed
  {
    hide Fields, ReadFields, Encodable;
    var all := Fields(m, order);
    if k > 0 && ReadFields(all[..k - 1], base).Some? {
      assert all[..k - 1] + all[k - 1..] == all == all + [];
      FieldsRoundTrip(m, order, [], base);
      FieldsStable(all[..k - 1], base, all[k - 1..]);
    }
    assert k > 0 ==> EncodeV2(m, order)[..k][1..] == all[..k - 1];
  }

  lemma CutShortV1(m: Message, order: seq<Bytes>, k: nat, base: Message)
    requires Encodable(m) && Listing(order, m.headers) && k < |EncodeV1(m, order)|
    ensures Decode(EncodeV1(m, order)[..k], base) == Malformed
  {
    hide Fields, ReadV1, Encodable, Prefixed;
    var all := Prefixed(m.id) + (Prefixed(m.queue) + Fields(m, order));
    if k > 0 && ReadV1(all[..k - 1], base).Some? {
      assert all[..k - 1] + all[k - 1..] == all == all + [];
      V1RoundTrip(m, order, [], base);
      V1Stable(all[..k - 1], base, all[k - 1..]);
    }
    assert k > 0 ==> EncodeV1(m, order)[..k][1..] == all[..k - 1];
  }

  // ---------- sizes ----------

  function PrefixedSize(s: Bytes): nat {
    UvarintSize(|s|) + |s|
  }

  function HeaderSize(order: seq<Bytes>, h: Headers): nat
    requires forall k :: k in order ==> k in h
  {
    if order == [] then 0
    else PrefixedSize(order[0]) + PrefixedSize(h[order[0]]) + HeaderSize(order[1..], h)
  }

  /** The buffer size computed before encoding; it iterates over the headers on its own. */
  function EncodedSize(m: Message, order: seq<Bytes>): nat
    requires forall k :: k in order ==> k in m.headers
  {
    1 + PrefixedSize(m.payload) + UvarintSize(|m.headers|) + HeaderSize(order, m.headers)
      + UvarintSize(m.attempt) + UvarintSize(ZigZag(m.publishedAt)) + UvarintSize(ZigZag(m.visibleAt))
      + PrefixedSize(m.orderingKey) + UvarintSize(m.sequence)
  }

  lemma {:induction false} HeaderBytesSize(order: seq<Bytes>, h: Headers)
    requires forall k :: k in order ==> k in h
    ensures |HeaderBytes(order, h)| == HeaderSize(order, h)
  {
    if order != [] {
      SizeIsLength(|order[0]|);
      SizeIsLength(|h[order[0]]|);
      HeaderBytesSize(order[1..], h);
    }
  }

  /** Taking one key out of the middle. */
  lemma {:induction false} HeaderSizeWithout(order: seq<Bytes>, h: Headers, i: nat)
    requires i < |order| && forall k :: k in order ==> k in h
    ensures var rest := order[..i] + order[i + 1..];
            && (forall k :: k in rest ==> k in h)
            && HeaderSize(order, h) == PrefixedSize(order[i]) + PrefixedSize(h[order[i]]) + HeaderSize(rest, h)
  {
    hide PrefixedSize;
    var rest := order[..i] + order[i + 1..];
    if i == 0 {
      assert rest == order[1..];
    } else {
      HeaderSizeWithout(order[1..], h, i - 1);
      assert rest[1..] == order[1..][..i - 1] + order[1..][i..];
      assert rest[0] == order[0];
    }
  }

  lemma HasMember(q: seq<Bytes>)
    requires q != []
    ensures exists k :: k in q
  {
    assert q[0] in q;
  }

  /** Iteration order does not matter to the size. */
  lemma {:induction false} HeaderSizeAnyOrder(p: seq<Bytes>, q: seq<Bytes>, h: Headers)
    requires (forall k :: k in p <==> k in q) && forall k :: k in p ==> k in h
    requires (forall i, j :: 0 <= i < j < |p| ==> p[i] != p[j]) && forall i, j :: 0 <= i < j < |q| ==> q[i] != q[j]
    ensures HeaderSize(p, h) == HeaderSize(q, h)
  {
    hide PrefixedSize;
    if p == [] {
      if q != [] { HasMember(q); }
    } else {
      var k := p[0];
      assert k in q;
      var i :| 0 <= i < |q| && q[i] == k;
      var rest := q[..i] + q[i + 1..];
      HeaderSizeWithout(q, h, i);
      SameRest(p, q, i);
      HeaderSizeAnyOrder(p[1..], rest, h);
    }
  }

  lemma SameRest(p: seq<Bytes>, q: seq<Bytes>, i: nat)
    requires (forall k :: k in p <==> k in q) && p != [] && i < |q| && q[i] == p[0]
    requires (forall a, b :: 0 <= a < b < |p| ==> p[a] != p[b]) && forall a, b :: 0 <= a < b < |q| ==> q[a] != q[b]
    ensures forall k :: k in p[1..] <==> k in q[..i] + q[i + 1..]
  {
    var rest := q[..i] + q[i + 1..];
    forall k | k in p[1..] ensures k in rest {
      assert k in q && k != p[0];
      var j :| 0 <= j < |q| && q[j] == k;
      assert rest[if j < i then j else j - 1] == k;
    }
    forall k | k in rest ensures k in p[1..] {
      assert k in q && k != q[i];
      assert k in p;
    }
  }

  /** The computed size is the encoded length, whatever two orders the two iterations take. */
  lemma SizeExact(m: Message, order: seq<Bytes>, sizing: seq<Bytes>)
    requires Listing(order, m.headers) && Listing(sizing, m.headers)
    ensures |EncodeV2(m, order)| == EncodedSize(m, sizing)
  {
    hide Uvarint, UvarintSize;
    HeaderBytesSize(order, m.headers);
    HeaderSizeAnyOrder(order, sizing, m.headers);
    SizeIsLength(|m.payload|);
    SizeIsLength(|m.headers|);
    SizeIsLength(m.attempt);
    SizeIsLength(ZigZag(m.publishedAt));
    SizeIsLength(ZigZag(m.visibleAt));
    SizeIsLength(|m.orderingKey|);
    SizeIsLength(m.sequence);
  }

  // ---------- the loops ----------

  /** Appends the headers in the order the map yields them. */
  method AppendHeaders(buf: Bytes, h: Headers) returns (r: Bytes, ghost order: seq<Bytes>)
    ensures Listing(order, h) && r == buf + HeaderBytes(order, h)
  {
    r, order := buf, [];
    var todo := h.Keys;
    while todo != {}
      invariant todo <= h.Keys
      invariant forall k :: k in order <==> k in h && k !in todo
      invariant forall i, j :: 0 <= i < j < |order| ==> order[i] != order[j]
      invariant r == buf + HeaderBytes(order, h)
      decreases |todo|
    {
      var k :| k in todo;
      todo := todo - {k};
      r := r + Prefixed(k) + Prefixed(h[k]);
      HeaderBytesSnoc(order, k, h);
      order := order + [k];
    }
  }

  lemma {:induction false} HeaderBytesSnoc(order: seq<Bytes>, k: Bytes, h: Headers)
    requires k in h && forall x :: x in order ==> x in h
    ensures HeaderBytes(order + [k], h) == HeaderBytes(order, h) + Prefixed(k) + Prefixed(h[k])
  {
    hide Prefixed;
    if order == [] {
      assert [k][1..] == [] && order + [k] == [k];
    } else {
      assert (order + [k])[1..] == order[1..] + [k];
      HeaderBytesSnoc(order[1..], k, h);
    }
  }

  /** A record of the message, its headers in some order. */
  ghost predicate IsRecord(r: Bytes, m: Message) {
    exists order :: Listing(order, m.headers) && r == EncodeV2(m, order)
  }

  method EncodeMessage(m: Message) returns (r: Bytes)
    ensures IsRecord(r, m)
  {
    hide Uvarint, Varint, Prefixed, HeaderBytes;
    r := [V2] + Prefixed(m.payload) + Uvarint(|m.headers|);
    ghost var order;
    r, order := AppendHeaders(r, m.headers);
    r := r + Uvarint(m.attempt) + Varint(m.publishedAt) + Varint(m.visibleAt);
    r := r + Prefixed(m.orderingKey) + Uvarint(m.sequence);
    assert r == EncodeV2(m, order);
  }

  /** Whatever the encoder returns decodes to the message and has the size computed beforehand. */
  lemma EncodedComesBack(r: Bytes, m: Message, rest: Bytes, base: Message, sizing: seq<Bytes>)
    requires IsRecord(r, m) && Encodable(m) && base.id == m.id && base.queue == m.queue && Listing(sizing, m.headers)
    ensures Decode(r + rest, base) == Ok(m) && |r| == EncodedSize(m, sizing)
  {
    hide EncodeV2, Decode, Encodable, EncodedSize;
    var order :| Listing(order, m.headers) && r == EncodeV2(m, order);
    RoundTripV2(m, order, rest, base);
    SizeExact(m, order, sizing);
  }

  /** Reads the header entries; None when the data runs out or a length is malformed. */
  method DecodeHeaders(data: Bytes, count: nat) returns (r: Parsed<Headers>)
    ensures r == ReadHeaders(data, count, map[])
  {
    hide ReadBytes;
    var buf, h: Headers := data, map[];
    var i := 0;
    while i < count
      invariant i <= count
      invariant ReadHeaders(data, count, map[]) == ReadHeaders(buf, count - i, h)
    {
      var k := ReadBytes(buf);
      if k.None? { return None; }
      var v := ReadBytes(k.value.1);
      if v.None? { return None; }
      h := h[k.value.0 := v.value.0];
      buf := v.value.1;
      i := i + 1;
    }
    return Some((h, buf));
  }
}
