/**
 Stream storage over a sorted key space shared with all other keys. Each scan walks the
 keys in byte order; each is proved to compute the numeric thing it stands for, over the
 log of the one stream it is asked about.
 */
module StreamStorage {
  import opened Types
  import opened StreamKeys
  import opened StreamProtocol

  datatype Value = StreamValue(entry: Entry) | OtherValue(data: Bytes)

  datatype Item = Item(key: Bytes, val: Value)

  ghost predicate Sorted(db: seq<Item>) {
    forall i, j :: 0 <= i < j < |db| ==> Less(db[i].key, db[j].key)
  }

  predicate Belongs(it: Item, queue: Bytes) {
    HasPrefix(it.key, StreamPrefix(queue))
  }

  /** Every key under the stream's prefix is a key of that stream, holding its own number. */
  ghost predicate Owns(db: seq<Item>, queue: Bytes) {
    forall i :: 0 <= i < |db| && Belongs(db[i], queue) ==>
      && db[i].val.StreamValue? && 1 <= db[i].val.entry.seqNo < U64
      && db[i].key == StreamKey(queue, db[i].val.entry.seqNo)
  }

  predicate IsStreamItem(it: Item, r: Bytes, n: nat) {
    && COLON !in r && 1 <= n < U64 && it.key == StreamKey(r, n)
    && it.val.StreamValue? && it.val.entry.seqNo == n
  }

  /** The key was made by one of the storage's key functions from a colon-free queue name. */
  ghost predicate WellMade(it: Item) {
    || (exists r, n: nat :: IsStreamItem(it, r, n))
    || (exists r, t :: it.key == MsgKey(r, t) || it.key == QueueKey(r) || it.key == OffsetKey(r, t))
  }

  /** With colon-free names no scan ever strays into another stream or another kind of key. */
  lemma WellMadeOwns(db: seq<Item>, queue: Bytes)
    requires forall i :: 0 <= i < |db| ==> WellMade(db[i])
    ensures Owns(db, queue)
  {
    hide StreamKey, MsgKey, QueueKey, OffsetKey, HasPrefix, StreamPrefix;
    forall i | 0 <= i < |db| && Belongs(db[i], queue)
      ensures db[i].val.StreamValue? && 1 <= db[i].val.entry.seqNo < U64
      ensures db[i].key == StreamKey(queue, db[i].val.entry.seqNo)
    {
      var it := db[i];
      if r, t :| it.key == MsgKey(r, t) || it.key == QueueKey(r) || it.key == OffsetKey(r, t) {
        OtherKindsApart(queue, it.key, r, t);
      } else {
        var r, n: nat :| IsStreamItem(it, r, n);
        ColonFreeApart(queue, r, n);
      }
    }
  }

  /** The stream's log as stored: sequence number to message. */
  ghost function Log(db: seq<Item>, queue: Bytes): map<nat, Message> {
    if db == [] then map[]
    else
      var p, it := Log(db[..|db| - 1], queue), db[|db| - 1];
      if Belongs(it, queue) && it.val.StreamValue? then p[it.val.entry.seqNo := it.val.entry.msg] else p
  }

  lemma {:induction false} LogHas(db: seq<Item>, queue: Bytes, i: nat)
    requires Sorted(db) && Owns(db, queue) && i < |db| && Belongs(db[i], queue)
    ensures var e := db[i].val.entry; e.seqNo in Log(db, queue) && Log(db, queue)[e.seqNo] == e.msg
  {
    hide Belongs, StreamKey;
    var p, it := db[..|db| - 1], db[|db| - 1];
    if i < |db| - 1 {
      LogHas(p, queue, i);
      LessTotal(db[i].key, it.key);
    }
  }

  lemma {:induction false} LogFrom(db: seq<Item>, queue: Bytes, n: nat) returns (i: nat)
    requires Owns(db, queue) && n in Log(db, queue)
    ensures i < |db| && Belongs(db[i], queue) && db[i].val.entry.seqNo == n
  {
    hide Belongs, StreamKey;
    var p, it := db[..|db| - 1], db[|db| - 1];
    if Belongs(it, queue) && it.val.entry.seqNo == n {
      i := |db| - 1;
    } else {
      i := LogFrom(p, queue, n);
    }
  }

  /** The position of a stored number is as its key compares. */
  lemma ItemOrder(db: seq<Item>, queue: Bytes, i: nat, n: nat)
    requires Owns(db, queue) && i < |db| && Belongs(db[i], queue) && n < U64
    ensures Less(db[i].key, StreamKey(queue, n)) <==> db[i].val.entry.seqNo < n
    ensures Less(StreamKey(queue, n), db[i].key) <==> n < db[i].val.entry.seqNo
  {
    hide Less, StreamKey, HasPrefix;
    StreamKeyOrder(queue, db[i].val.entry.seqNo, n);
    StreamKeyOrder(queue, n, db[i].val.entry.seqNo);
  }

  /** Belonging items lie together. */
  lemma BlockTogether(db: seq<Item>, queue: Bytes, a: nat, k: nat, b: nat)
    requires Sorted(db) && a <= k <= b < |db| && Belongs(db[a], queue) && Belongs(db[b], queue)
    ensures Belongs(db[k], queue)
  {
    hide Less, HasPrefix, StreamPrefix;
    PrefixBetween(StreamPrefix(queue), db[a].key, db[k].key, db[b].key);
  }

  class Storage {
    var db: seq<Item>

    ghost predicate Valid()
      reads this
    {
      Sorted(db)
    }

    /** The first position whose key is not below the given one. */
    method Seek(key: Bytes) returns (i: nat)
      requires Valid()
      ensures i <= |db|
      ensures forall j :: 0 <= j < i ==> Less(db[j].key, key)
      ensures forall j :: i <= j < |db| ==> !Less(db[j].key, key)
    {
      i := 0;
      while i < |db| && Less(db[i].key, key)
        invariant i <= |db| && forall j :: 0 <= j < i ==> Less(db[j].key, key)
      {
        i := i + 1;
      }
      forall j | i <= j < |db| ensures !Less(db[j].key, key) {
        if j > i && Less(db[j].key, key) { LessTrans(db[i].key, db[j].key, key); }
      }
    }

    /** The messages numbered from `from` on, in numeric order, at most `limit` of them. */
    method LoadStreamMessages(queue: Bytes, from: nat, limit: nat) returns (msgs: seq<Entry>)
      requires Valid() && Owns(db, queue) && from < U64
      ensures IsBatch(Log(db, queue), from, limit, msgs)
    {
      hide Less, StreamKey, HasPrefix, StreamPrefix, IsBatch, Log;
      msgs := [];
      var i0 := Seek(StreamKey(queue, from));
      var i := i0;
      while i < |db| && Belongs(db[i], queue) && |msgs| < limit
        invariant Scanned(db, queue, from, i0, i) && |msgs| == i - i0 <= limit
        invariant forall k :: 0 <= k < |msgs| ==> msgs[k] == db[i0 + k].val.entry
      {
        msgs := msgs + [db[i].val.entry];
        i := i + 1;
      }
      BatchFound(db, queue, from, limit, i0, i, msgs);
    }

    /** Where the stream's items begin. */
    method SeekStream(queue: Bytes) returns (i0: nat)
      requires Valid() && Owns(db, queue)
      ensures i0 <= |db|
      ensures forall k :: 0 <= k < |db| && Belongs(db[k], queue) ==> i0 <= k && Belongs(db[i0], queue)
    {
      hide Less, HasPrefix, StreamPrefix;
      i0 := Seek(StreamPrefix(queue));
      forall k | 0 <= k < |db| && Belongs(db[k], queue) ensures i0 <= k && Belongs(db[i0], queue) {
        PrefixNotAbove(db[k].key, StreamPrefix(queue));
        PrefixOfItself(StreamPrefix(queue));
        ScanMeets(db, queue, StreamPrefix(queue), i0, k);
      }
    }

    /** The highest stored number, 0 if there is none. */
    method GetStreamSequence(queue: Bytes) returns (n: nat)
      requires Valid() && Owns(db, queue)
      ensures IsNewest(Log(db, queue), n)
    {
      hide Less, StreamKey, HasPrefix, StreamPrefix, Log, IsNewest, ParseDigits;
      var top := StreamPrefix(queue) + [0xff];
      var i := |db|;
      while i > 0 && Less(top, db[i - 1].key)
        invariant 0 <= i <= |db| && forall j :: i <= j < |db| ==> Less(top, db[j].key)
      {
        i := i - 1;
      }
      if i > 0 && Belongs(db[i - 1], queue) {
        StreamKeyParse(queue, db[i - 1].val.entry.seqNo);
        var d := ParseDigits(db[i - 1].key[|STREAM| + |queue| + 1..]);
        NewestFound(db, queue, i);
        return d;
      }
      NoneFound(db, queue, i);
      return 0;
    }

    /** The lowest and highest stored numbers, 0 if there is none. */
    method GetStreamStats(queue: Bytes) returns (oldest: nat, newest: nat)
      requires Valid() && Owns(db, queue)
      ensures IsOldest(Log(db, queue), oldest) && IsNewest(Log(db, queue), newest)
    {
      hide Less, StreamKey, HasPrefix, StreamPrefix, Log, ParseDigits, IsNewest, IsOldest;
      var i0 := SeekStream(queue);
      oldest := 0;
      if i0 < |db| && Belongs(db[i0], queue) {
        StreamKeyParse(queue, db[i0].val.entry.seqNo);
        oldest := ParseDigits(db[i0].key[|STREAM| + |queue| + 1..]);
      }
      OldestFound(db, queue, i0);
      newest := GetStreamSequence(queue);
    }

    /** The first message, by number, published at or after the given time; 0 if there is none. */
    method GetStreamMessageByTimestamp(queue: Bytes, ms: int) returns (n: nat)
      requires Valid() && Owns(db, queue)
      ensures IsFirstSince(Log(db, queue), ms, n)
    {
      hide Less, StreamKey, HasPrefix, StreamPrefix, Log, IsFirstSince;
      var i0 := SeekStream(queue);
      var i := i0;
      while i < |db| && Belongs(db[i], queue)
        invariant i0 <= i <= |db|
        invariant forall k :: i0 <= k < i ==> Belongs(db[k], queue) && Millis(db[k].val.entry.msg.publishedAt) < ms
      {
        if Millis(db[i].val.entry.msg.publishedAt) >= ms {
          FirstFound(db, queue, i0, i, ms);
          return db[i].val.entry.seqNo;
        }
        i := i + 1;
      }
      FirstMissing(db, queue, i0, i, ms);
      return 0;
    }

    /** Deletes the messages numbered below `n`, and nothing else. */
    method DeleteStreamMessagesBefore(queue: Bytes, n: nat)
      requires Valid() && Owns(db, queue) && n < U64
      modifies this
      ensures Valid() && Owns(db, queue)
      ensures Log(db, queue) == Tail(old(Log(db, queue)), n)
      ensures forall it :: it in old(db) && !Belongs(it, queue) ==> it in db
      ensures forall it :: it in db ==> it in old(db)
    {
      hide Less, StreamKey, HasPrefix, StreamPrefix, Log;
      var i0 := SeekStream(queue);
      var end := StreamKey(queue, n);
      var i := i0;
      while i < |db| && Belongs(db[i], queue) && Less(db[i].key, end)
        invariant i0 <= i <= |db|
        invariant forall k :: i0 <= k < i ==> Belongs(db[k], queue) && Less(db[k].key, end)
      {
        i := i + 1;
      }
      CutOut(db, queue, n, i0, i);
      db := db[..i0] + db[i..];
    }

    /** Stores the message under its number, replacing what was there. */
    method SaveStreamMessage(queue: Bytes, n: nat, msg: Message)
      requires Valid() && Owns(db, queue) && 1 <= n < U64
      modifies this
      ensures Valid() && Owns(db, queue)
      ensures Log(db, queue) == old(Log(db, queue))[n := msg]
      ensures forall it :: it in old(db) && !Belongs(it, queue) ==> it in db
    {
      hide Less, StreamKey, HasPrefix, StreamPrefix, Log;
      var key := StreamKey(queue, n);
      var i := Seek(key);
      var it := Item(key, StreamValue(Entry(n, msg)));
      if i < |db| && db[i].key == key {
        Replaced(db, queue, i, n, msg);
        db := db[..i] + [it] + db[i + 1..];
      } else {
        Inserted(db, queue, i, n, msg);
        db := db[..i] + [it] + db[i..];
      }
    }
  }

  /** A scan started at i0, collected up to i, and skipped nothing of the stream. */
  ghost predicate Scanned(db: seq<Item>, queue: Bytes, from: nat, i0: nat, i: nat) {
    && Sorted(db) && Owns(db, queue) && from < U64 && i0 <= i <= |db|
    && (forall j :: 0 <= j < i0 ==> Less(db[j].key, StreamKey(queue, from)))
    && (forall j :: i0 <= j < |db| ==> !Less(db[j].key, StreamKey(queue, from)))
    && (forall k :: i0 <= k < i ==> Belongs(db[k], queue))
  }

  lemma ScannedEntry(db: seq<Item>, queue: Bytes, from: nat, i0: nat, i: nat, k: nat)
    requires Scanned(db, queue, from, i0, i) && i0 <= k < i
    ensures var e := db[k].val.entry;
            from <= e.seqNo && e.seqNo in Log(db, queue) && Log(db, queue)[e.seqNo] == e.msg
  {
    hide Less, StreamKey, HasPrefix, StreamPrefix, Log;
    LogHas(db, queue, k);
    ItemOrder(db, queue, k, from);
  }

  lemma ScannedAscends(db: seq<Item>, queue: Bytes, a: nat, b: nat)
    requires Sorted(db) && Owns(db, queue) && a < b < |db| && Belongs(db[a], queue) && Belongs(db[b], queue)
    ensures db[a].val.entry.seqNo < db[b].val.entry.seqNo
  {
    hide Less, StreamKey, HasPrefix, StreamPrefix;
    ItemOrder(db, queue, a, db[b].val.entry.seqNo);
  }

  /** A stored number the scan should see is in what it collected, or comes after all of it
      and the scan stopped on an item of the stream. */
  lemma ScannedAll(db: seq<Item>, queue: Bytes, from: nat, i0: nat, i: nat, n: nat) returns (j: nat)
    requires Scanned(db, queue, from, i0, i) && n in Log(db, queue) && from <= n
    ensures i0 <= j < |db| && Belongs(db[j], queue) && db[j].val.entry.seqNo == n
    ensures j >= i ==> i < |db| && Belongs(db[i], queue)
  {
    hide Less, StreamKey, HasPrefix, StreamPrefix, Log;
    j := LogFrom(db, queue, n);
    ItemOrder(db, queue, j, from);
    if j >= i {
      StreamKeyParse(queue, from);
      ScanMeets(db, queue, StreamKey(queue, from), i, j);
    }
  }

  /** The block a scan collected is the batch asked for. */
  lemma BatchFound(db: seq<Item>, queue: Bytes, from: nat, limit: nat, i0: nat, i: nat, msgs: seq<Entry>)
    requires Scanned(db, queue, from, i0, i) && |msgs| == i - i0 <= limit
    requires forall k :: 0 <= k < |msgs| ==> msgs[k] == db[i0 + k].val.entry
    requires i == |db| || !Belongs(db[i], queue) || |msgs| == limit
    ensures IsBatch(Log(db, queue), from, limit, msgs)
  {
    hide Less, StreamKey, HasPrefix, StreamPrefix, Log;
    var log := Log(db, queue);
    forall k | 0 <= k < |msgs|
      ensures from <= msgs[k].seqNo && msgs[k].seqNo in log && log[msgs[k].seqNo] == msgs[k].msg
    {
      ScannedEntry(db, queue, from, i0, i, i0 + k);
    }
    forall a, b | 0 <= a < b < |msgs| ensures msgs[a].seqNo < msgs[b].seqNo {
      ScannedAscends(db, queue, i0 + a, i0 + b);
    }
    forall n | n in log && from <= n
      ensures (exists k :: 0 <= k < |msgs| && msgs[k].seqNo == n)
           || (|msgs| == limit && (msgs == [] || msgs[|msgs| - 1].seqNo < n))
    {
      var j := ScannedAll(db, queue, from, i0, i, n);
      if j < i {
        assert msgs[j - i0].seqNo == n;
      } else if i0 < i {
        ScannedAscends(db, queue, i - 1, j);
      }
    }
  }

  /** Between the key a scan started from and an item of the stream there are only items of
      the stream. */
  lemma ScanMeets(db: seq<Item>, queue: Bytes, from: Bytes, i: nat, j: nat)
    requires Sorted(db) && i <= j < |db| && Belongs(db[j], queue)
    requires HasPrefix(from, StreamPrefix(queue)) && !Less(db[i].key, from)
    ensures Belongs(db[i], queue)
  {
    hide Less, HasPrefix, StreamPrefix;
    LessTotal(from, db[i].key);
    PrefixBetween(StreamPrefix(queue), from, db[i].key, db[j].key);
  }

  // ---------- what the scans compute ----------

  /** Times are kept in nanoseconds and compared in milliseconds. */
  function Millis(t: int): int {
    t / 1_000_000
  }

  ghost predicate IsNewest(log: map<nat, Message>, n: nat) {
    if log == map[] then n == 0 else n in log && forall k :: k in log ==> k <= n
  }

  ghost predicate IsOldest(log: map<nat, Message>, n: nat) {
    if log == map[] then n == 0 else n in log && forall k :: k in log ==> n <= k
  }

  ghost predicate IsFirstSince(log: map<nat, Message>, ms: int, n: nat) {
    || (n == 0 && forall k :: k in log ==> Millis(log[k].publishedAt) < ms)
    || (n in log && Millis(log[n].publishedAt) >= ms
        && forall k :: k in log && k < n ==> Millis(log[k].publishedAt) < ms)
  }

  function Tail(log: map<nat, Message>, n: nat): map<nat, Message> {
    map k | k in log && k >= n :: log[k]
  }

  lemma PrefixOfItself(p: Bytes)
    ensures HasPrefix(p, p)
  {
  }

  lemma {:induction false} PrefixNotAbove(k: Bytes, p: Bytes)
    requires HasPrefix(k, p)
    ensures !Less(k, p)
  {
    if p != [] {
      assert k[1..][..|p| - 1] == p[1..];
      PrefixNotAbove(k[1..], p[1..]);
    }
  }

  lemma BelowTop(queue: Bytes, n: nat)
    requires n < U64
    ensures Less(StreamKey(queue, n), StreamPrefix(queue) + [0xff])
  {
    hide Padded;
    assert Less(Padded(n), [0xff]);
    LessCommon(StreamPrefix(queue), Padded(n), [0xff]);
  }

  /** Whatever belongs to the stream lies before the top of its range. */
  lemma BeforeTop(db: seq<Item>, queue: Bytes, i: nat, j: nat)
    requires Sorted(db) && Owns(db, queue) && i <= |db| && j < |db| && Belongs(db[j], queue)
    requires forall k :: i <= k < |db| ==> Less(StreamPrefix(queue) + [0xff], db[k].key)
    ensures j < i
  {
    hide Less, StreamKey, HasPrefix, StreamPrefix;
    BelowTop(queue, db[j].val.entry.seqNo);
    LessTotal(db[j].key, StreamPrefix(queue) + [0xff]);
  }

  lemma NewestFound(db: seq<Item>, queue: Bytes, i: nat)
    requires Sorted(db) && Owns(db, queue) && 0 < i <= |db| && Belongs(db[i - 1], queue)
    requires forall k :: i <= k < |db| ==> Less(StreamPrefix(queue) + [0xff], db[k].key)
    ensures IsNewest(Log(db, queue), db[i - 1].val.entry.seqNo)
  {
    hide Less, StreamKey, HasPrefix, StreamPrefix, Log;
    LogHas(db, queue, i - 1);
    forall n | n in Log(db, queue) ensures n <= db[i - 1].val.entry.seqNo {
      var j := LogFrom(db, queue, n);
      BeforeTop(db, queue, i, j);
      if j < i - 1 { ScannedAscends(db, queue, j, i - 1); }
    }
  }

  lemma NoneFound(db: seq<Item>, queue: Bytes, i: nat)
    requires Sorted(db) && Owns(db, queue) && i <= |db| && (i > 0 ==> !Belongs(db[i - 1], queue))
    requires forall k :: i <= k < |db| ==> Less(StreamPrefix(queue) + [0xff], db[k].key)
    requires i > 0 ==> !Less(StreamPrefix(queue) + [0xff], db[i - 1].key)
    ensures IsNewest(Log(db, queue), 0)
  {
    hide Less, StreamKey, HasPrefix, StreamPrefix, Log;
    if n :| n in Log(db, queue) {
      var j := LogFrom(db, queue, n);
      BeforeTop(db, queue, i, j);
      TopHasPrefix(queue);
      LessTotal(db[i - 1].key, StreamPrefix(queue) + [0xff]);
      PrefixBetween(StreamPrefix(queue), db[j].key, db[i - 1].key, StreamPrefix(queue) + [0xff]);
      assert false;
    }
  }

  lemma TopHasPrefix(queue: Bytes)
    ensures HasPrefix(StreamPrefix(queue) + [0xff], StreamPrefix(queue))
  {
    hide StreamPrefix;
  }

  /** All of the stream's items start at i0. */
  ghost predicate StartsAt(db: seq<Item>, queue: Bytes, i0: nat) {
    && Sorted(db) && Owns(db, queue) && i0 <= |db|
    && forall k :: 0 <= k < |db| && Belongs(db[k], queue) ==> i0 <= k && Belongs(db[i0], queue)
  }

  lemma OldestFound(db: seq<Item>, queue: Bytes, i0: nat)
    requires StartsAt(db, queue, i0)
    ensures IsOldest(Log(db, queue), if i0 < |db| && Belongs(db[i0], queue) then db[i0].val.entry.seqNo else 0)
  {
    hide Less, StreamKey, HasPrefix, StreamPrefix, Log;
    forall n | n in Log(db, queue)
      ensures i0 < |db| && Belongs(db[i0], queue) && db[i0].val.entry.seqNo <= n
    {
      var j := LogFrom(db, queue, n);
      if i0 < j { ScannedAscends(db, queue, i0, j); }
    }
    if i0 < |db| && Belongs(db[i0], queue) { LogHas(db, queue, i0); }
  }

  lemma FirstFound(db: seq<Item>, queue: Bytes, i0: nat, i: nat, ms: int)
    requires StartsAt(db, queue, i0) && i0 <= i < |db| && Belongs(db[i], queue)
    requires forall k :: i0 <= k < i ==> Belongs(db[k], queue) && Millis(db[k].val.entry.msg.publishedAt) < ms
    requires Millis(db[i].val.entry.msg.publishedAt) >= ms
    ensures IsFirstSince(Log(db, queue), ms, db[i].val.entry.seqNo)
  {
    hide Less, StreamKey, HasPrefix, StreamPrefix, Log, Millis;
    var log := Log(db, queue);
    LogHas(db, queue, i);
    forall n | n in log && n < db[i].val.entry.seqNo ensures Millis(log[n].publishedAt) < ms {
      var j := LogFrom(db, queue, n);
      if i < j { ScannedAscends(db, queue, i, j); }
      LogHas(db, queue, j);
    }
  }

  lemma FirstMissing(db: seq<Item>, queue: Bytes, i0: nat, i: nat, ms: int)
    requires StartsAt(db, queue, i0) && i0 <= i <= |db| && (i == |db| || !Belongs(db[i], queue))
    requires forall k :: i0 <= k < i ==> Belongs(db[k], queue) && Millis(db[k].val.entry.msg.publishedAt) < ms
    ensures IsFirstSince(Log(db, queue), ms, 0)
  {
    hide Less, StreamKey, HasPrefix, StreamPrefix, Log, Millis;
    var log := Log(db, queue);
    forall n | n in log ensures Millis(log[n].publishedAt) < ms {
      var j := LogFrom(db, queue, n);
      if i <= j { BlockTogether(db, queue, i0, i, j); }
      LogHas(db, queue, j);
    }
  }

  /** Two databases hold the same log if they hold the same items of the stream. */
  lemma LogByItems(db: seq<Item>, queue: Bytes, log: map<nat, Message>)
    requires Sorted(db) && Owns(db, queue)
    requires forall i :: 0 <= i < |db| && Belongs(db[i], queue) ==>
               db[i].val.entry.seqNo in log && log[db[i].val.entry.seqNo] == db[i].val.entry.msg
    requires forall n :: n in log ==> exists i :: 0 <= i < |db| && Belongs(db[i], queue) && db[i].val.entry.seqNo == n
    ensures Log(db, queue) == log
  {
    hide Less, StreamKey, Belongs, Log;
    forall n ensures n in Log(db, queue) <==> n in log {
      if n in Log(db, queue) { var i := LogFrom(db, queue, n); }
      if n in log {
        var i :| 0 <= i < |db| && Belongs(db[i], queue) && db[i].val.entry.seqNo == n;
        LogHas(db, queue, i);
      }
    }
    forall n | n in log ensures n in Log(db, queue) && Log(db, queue)[n] == log[n] {
      var i :| 0 <= i < |db| && Belongs(db[i], queue) && db[i].val.entry.seqNo == n;
      LogHas(db, queue, i);
    }
  }

  lemma CutOut(db: seq<Item>, queue: Bytes, n: nat, i0: nat, i: nat)
    requires StartsAt(db, queue, i0) && n < U64 && i0 <= i <= |db|
    requires forall k :: i0 <= k < i ==> Belongs(db[k], queue) && Less(db[k].key, StreamKey(queue, n))
    requires i == |db| || !Belongs(db[i], queue) || !Less(db[i].key, StreamKey(queue, n))
    ensures var cut := db[..i0] + db[i..];
            && Sorted(cut) && Owns(cut, queue) && Log(cut, queue) == Tail(Log(db, queue), n)
            && (forall it :: it in db && !Belongs(it, queue) ==> it in cut)
            && (forall it :: it in cut ==> it in db)
  {
    hide Less, StreamKey, HasPrefix, StreamPrefix, Log;
    var cut := db[..i0] + db[i..];
    assert Sorted(cut);
    forall it | it in db && !Belongs(it, queue) ensures it in cut {
      var k :| 0 <= k < |db| && db[k] == it;
      assert k < i0 || i <= k;
      if i <= k { assert cut[k - i + i0] == it; } else { assert cut[k] == it; }
    }
    CutLog(db, queue, n, i0, i);
  }

  lemma CutLog(db: seq<Item>, queue: Bytes, n: nat, i0: nat, i: nat)
    requires StartsAt(db, queue, i0) && n < U64 && i0 <= i <= |db|
    requires forall k :: i0 <= k < i ==> Belongs(db[k], queue) && Less(db[k].key, StreamKey(queue, n))
    requires i == |db| || !Belongs(db[i], queue) || !Less(db[i].key, StreamKey(queue, n))
    requires Sorted(db[..i0] + db[i..]) && Owns(db[..i0] + db[i..], queue)
    ensures Log(db[..i0] + db[i..], queue) == Tail(Log(db, queue), n)
  {
    hide Less, StreamKey, HasPrefix, StreamPrefix, Log;
    var cut, log := db[..i0] + db[i..], Log(db, queue);
    forall c | 0 <= c < |cut| && Belongs(cut[c], queue)
      ensures var e := cut[c].val.entry; e.seqNo in Tail(log, n) && Tail(log, n)[e.seqNo] == e.msg
    {
      assert cut[c] in db;
      assert c >= i0 && cut[c] == db[c - i0 + i];
      CutKeeps(db, queue, n, i0, i, c - i0 + i);
      LogHas(db, queue, c - i0 + i);
    }
    forall m | m in Tail(log, n)
      ensures exists c :: 0 <= c < |cut| && Belongs(cut[c], queue) && cut[c].val.entry.seqNo == m
    {
      var j := LogFrom(db, queue, m);
      ItemOrder(db, queue, j, n);
      assert i <= j;
      assert cut[j - i + i0] == db[j];
    }
    LogByItems(cut, queue, Tail(log, n));
  }

  /** What lies past the cut is numbered at least n. */
  lemma CutKeeps(db: seq<Item>, queue: Bytes, n: nat, i0: nat, i: nat, j: nat)
    requires StartsAt(db, queue, i0) && n < U64 && i0 <= i <= j < |db| && Belongs(db[j], queue)
    requires !Belongs(db[i], queue) || !Less(db[i].key, StreamKey(queue, n))
    ensures db[j].val.entry.seqNo >= n
  {
    hide Less, StreamKey, HasPrefix, StreamPrefix;
    BlockTogether(db, queue, i0, i, j);
    ItemOrder(db, queue, i, n);
    if i < j { ScannedAscends(db, queue, i, j); }
  }

  lemma Replaced(db: seq<Item>, queue: Bytes, i: nat, n: nat, msg: Message)
    requires Sorted(db) && Owns(db, queue) && 1 <= n < U64 && i < |db| && db[i].key == StreamKey(queue, n)
    ensures var t := db[..i] + [Item(StreamKey(queue, n), StreamValue(Entry(n, msg)))] + db[i + 1..];
            && Sorted(t) && Owns(t, queue) && Log(t, queue) == Log(db, queue)[n := msg]
            && forall it :: it in db && !Belongs(it, queue) ==> it in t
  {
    hide Less, StreamKey, HasPrefix, StreamPrefix, Log;
    StreamKeyParse(queue, n);
    var t := db[i := Item(StreamKey(queue, n), StreamValue(Entry(n, msg)))];
    assert t == db[..i] + [Item(StreamKey(queue, n), StreamValue(Entry(n, msg)))] + db[i + 1..];
    forall k | 0 <= k < |db| && k != i ensures t[k] == db[k] && db[k].key != StreamKey(queue, n) {
      LessTotal(db[k].key, db[i].key);
    }
    StreamKeyInjective(queue, db[i].val.entry.seqNo, queue, n);
    forall k | 0 <= k < |db| && k != i ensures db[k] in t { assert t[k] == db[k]; }
    StoredLog(db, queue, t, i, n, msg);
    forall it | it in db && !Belongs(it, queue) ensures it in t {
      var k :| 0 <= k < |db| && db[k] == it;
      assert t[k] == it;
    }
  }

  /** Item i of `t` is the new message, and every other item of the stream is as before. */
  lemma StoredLog(db: seq<Item>, queue: Bytes, t: seq<Item>, i: nat, n: nat, msg: Message)
    requires Sorted(db) && Owns(db, queue) && Sorted(t) && Owns(t, queue) && 1 <= n < U64
    requires i < |t| && Belongs(t[i], queue) && t[i].val == StreamValue(Entry(n, msg))
    requires forall k :: 0 <= k < |t| && k != i && Belongs(t[k], queue) ==> t[k] in db && t[k].val.entry.seqNo != n
    requires forall k :: 0 <= k < |db| && Belongs(db[k], queue) && db[k].val.entry.seqNo != n ==> db[k] in t
    ensures Log(t, queue) == Log(db, queue)[n := msg]
  {
    hide Less, StreamKey, Belongs, Log;
    var log := Log(db, queue)[n := msg];
    forall k | 0 <= k < |t| && Belongs(t[k], queue)
      ensures t[k].val.entry.seqNo in log && log[t[k].val.entry.seqNo] == t[k].val.entry.msg
    {
      if k != i {
        var j :| 0 <= j < |db| && db[j] == t[k];
        LogHas(db, queue, j);
      }
    }
    forall m | m in log ensures exists k :: 0 <= k < |t| && Belongs(t[k], queue) && t[k].val.entry.seqNo == m {
      if m == n { assert t[i].val.entry.seqNo == m; }
      else {
        var j := LogFrom(db, queue, m);
        var k :| 0 <= k < |t| && t[k] == db[j];
      }
    }
    LogByItems(t, queue, log);
  }

  lemma Inserted(db: seq<Item>, queue: Bytes, i: nat, n: nat, msg: Message)
    requires Sorted(db) && Owns(db, queue) && 1 <= n < U64 && i <= |db|
    requires i < |db| ==> db[i].key != StreamKey(queue, n)
    requires forall j :: 0 <= j < i ==> Less(db[j].key, StreamKey(queue, n))
    requires forall j :: i <= j < |db| ==> !Less(db[j].key, StreamKey(queue, n))
    ensures var t := db[..i] + [Item(StreamKey(queue, n), StreamValue(Entry(n, msg)))] + db[i..];
            && Sorted(t) && Owns(t, queue) && Log(t, queue) == Log(db, queue)[n := msg]
            && forall it :: it in db && !Belongs(it, queue) ==> it in t
  {
    hide Less, StreamKey, HasPrefix, StreamPrefix, Log;
    StreamKeyParse(queue, n);
    var key := StreamKey(queue, n);
    var t := db[..i] + [Item(key, StreamValue(Entry(n, msg)))] + db[i..];
    AboveNew(db, i, key);
    InsertSorted(db, i, Item(key, StreamValue(Entry(n, msg))));
    forall k | 0 <= k < |db| ensures db[k] in t && db[k].key != key {
      assert t[if k < i then k else k + 1] == db[k];
      LessTotal(key, key);
    }
    StoredLog(db, queue, t, i, n, msg);
  }

  lemma AboveNew(db: seq<Item>, i: nat, key: Bytes)
    requires Sorted(db) && i <= |db| && (i < |db| ==> db[i].key != key)
    requires forall j :: i <= j < |db| ==> !Less(db[j].key, key)
    ensures forall j :: i <= j < |db| ==> Less(key, db[j].key)
  {
    hide Less;
    forall j | i <= j < |db| ensures Less(key, db[j].key) {
      LessTotal(key, db[j].key);
      LessTotal(key, db[i].key);
      if i < j { LessTrans(key, db[i].key, db[j].key); }
    }
  }

  lemma InsertSorted(db: seq<Item>, i: nat, it: Item)
    requires Sorted(db) && i <= |db|
    requires forall j :: 0 <= j < i ==> Less(db[j].key, it.key)
    requires forall j :: i <= j < |db| ==> Less(it.key, db[j].key)
    ensures Sorted(db[..i] + [it] + db[i..])
  {
    hide Less;
  }
}
