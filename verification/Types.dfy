/**
 The values every part of the broker shares. Go strings and byte slices are both byte
 sequences here; times and durations are integers (nanoseconds in the source).
 */
module Types {
  newtype byte = x: int | 0 <= x < 256

  type Bytes = seq<byte>

  const U64 := 0x1_0000_0000_0000_0000
  const I63 := 0x8000_0000_0000_0000

  datatype Option<+T> = None | Some(value: T)

  datatype Message = Message(
    id: Bytes,
    queue: Bytes,
    payload: Bytes,
    headers: map<Bytes, Bytes>,
    attempt: nat,
    publishedAt: int,
    visibleAt: int,
    orderingKey: Bytes,
    sequence: nat)

  /** What a message keeps from publish to acknowledgement, whatever happens to it. */
  datatype Content = Content(
    payload: Bytes,
    headers: map<Bytes, Bytes>,
    publishedAt: int,
    orderingKey: Bytes,
    sequence: nat)

  function ContentOf(m: Message): Content {
    Content(m.payload, m.headers, m.publishedAt, m.orderingKey, m.sequence)
  }

  /** The failure policy is a free string in the source; any other string is `OtherPolicy`. */
  datatype FailurePolicy = DeadLetter | DropMessage | Infinite | OtherPolicy(text: Bytes)
}
