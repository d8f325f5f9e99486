/**
 The idempotency table: a key is a duplicate until its entry expires. Expired entries are
 evicted by a ticker, or on the way in when the table is full, and inserted over otherwise.
 */
module Dedup {
  import opened Types

  const DEFAULT_TTL := 300_000_000_000
  const MAX_KEYS := 100_000

  type Table = map<Bytes, int>

  function Evict(t: Table, now: int): Table {
    map k | k in t && now <= t[k] :: t[k]
  }

  /** The new table and whether the key is let through. */
  function CheckKey(t: Table, ttl: int, key: Bytes, now: int): (Table, bool) {
    if key == [] then (t, true)
    else if key in t && now < t[key] then (t, false)
    else ((if |t| >= MAX_KEYS then Evict(t, now) else t)[key := now + ttl], true)
  }

  class IdempotencyTracker {
    var keys: Table
    const ttl: int

    constructor (ttl: int)
      ensures keys == map[] && this.ttl == (if ttl <= 0 then DEFAULT_TTL else ttl) && this.ttl > 0
    {
      keys := map[];
      this.ttl := if ttl <= 0 then DEFAULT_TTL else ttl;
    }

    method Check(key: Bytes, now: int) returns (ok: bool)
      modifies this
      ensures (keys, ok) == CheckKey(old(keys), ttl, key, now)
    {
      if key == [] { return true; }
      if key in keys && now < keys[key] { return false; }
      if |keys| >= MAX_KEYS { Cleanup(now); }
      keys := keys[key := now + ttl];
      return true;
    }

    /** Deletes while iterating over the keys, in any order. */
    method Cleanup(now: int)
      modifies this
      ensures keys == Evict(old(keys), now)
    {
      var left := keys.Keys;
      while left != {}
        invariant left <= keys.Keys <= old(keys).Keys
        invariant forall k :: k in keys ==> keys[k] == old(keys)[k] && (k in left || now <= keys[k])
        invariant forall k :: k in old(keys) && now <= old(keys)[k] ==> k in keys
        decreases |left|
      {
        var key :| key in left;
        left := left - {key};
        if now > keys[key] { keys := keys - {key}; }
      }
    }
  }

  // ---------- against an unbounded history ----------

  /** The ticker may fire at any moment. */
  datatype Event = Check(key: Bytes, now: int) | Tick(now: int)

  function Step(t: Table, ttl: int, e: Event): (Table, bool) {
    match e
    case Check(key, now) => CheckKey(t, ttl, key, now)
    case Tick(now) => (Evict(t, now), true)
  }

  /** The table after a run and, per event, the answer given. */
  function Run(ttl: int, events: seq<Event>): (r: (Table, seq<bool>))
    ensures |r.1| == |events|
  {
    if events == [] then (map[], [])
    else
      var before := Run(ttl, events[..|events| - 1]);
      var (t, ok) := Step(before.0, ttl, events[|events| - 1]);
      (t, before.1 + [ok])
  }

  ghost predicate Monotone(events: seq<Event>) {
    forall i, j :: 0 <= i < j < |events| ==> events[i].now <= events[j].now
  }

  /** Check `i` let this key through, less than one TTL before `now`. */
  ghost predicate Recent(events: seq<Event>, answers: seq<bool>, ttl: int, key: Bytes, now: int, i: nat) {
    && i < |events| && i < |answers|
    && events[i] == Check(key, events[i].now) && answers[i] && now < events[i].now + ttl
  }

  ghost predicate SeenRecently(events: seq<Event>, answers: seq<bool>, ttl: int, key: Bytes, now: int) {
    exists i: nat :: Recent(events, answers, ttl, key, now, i)
  }

  /** The table knows, for every moment from `now` on, what the whole history knows. */
  ghost predicate Knows(events: seq<Event>, ttl: int, now: int) {
    forall key, at :: key != [] && at >= now ==> KnowsAt(events, ttl, key, at)
  }

  ghost predicate KnowsAt(events: seq<Event>, ttl: int, key: Bytes, at: int) {
    var r := Run(ttl, events);
    (key in r.0 && at < r.0[key]) <==> SeenRecently(events, r.1, ttl, key, at)
  }

  lemma SeenOneMore(events: seq<Event>, answers: seq<bool>, e: Event, ok: bool, ttl: int, key: Bytes, at: int)
    requires |events| == |answers|
    ensures SeenRecently(events + [e], answers + [ok], ttl, key, at) <==>
            SeenRecently(events, answers, ttl, key, at) || (e == Check(key, e.now) && ok && at < e.now + ttl)
  {
    var more, oks := events + [e], answers + [ok];
    forall i: nat | i < |events|
      ensures Recent(more, oks, ttl, key, at, i) <==> Recent(events, answers, ttl, key, at, i)
    {
      assert more[i] == events[i] && oks[i] == answers[i];
    }
    if e == Check(key, e.now) && ok && at < e.now + ttl { assert Recent(more, oks, ttl, key, at, |events|); }
    if SeenRecently(events, answers, ttl, key, at) {
      var i: nat :| Recent(events, answers, ttl, key, at, i);
      assert Recent(more, oks, ttl, key, at, i);
    }
  }

  lemma RunOneMore(ttl: int, events: seq<Event>, e: Event)
    ensures var r := Run(ttl, events); var after := Step(r.0, ttl, e);
            Run(ttl, events + [e]) == (after.0, r.1 + [after.1])
  {
    assert (events + [e])[..|events|] == events;
  }

  lemma OneMoreKnows(events: seq<Event>, e: Event, ttl: int, key: Bytes, at: int)
    requires Knows(events, ttl, e.now) && key != [] && at >= e.now
    ensures KnowsAt(events + [e], ttl, key, at)
  {
    hide Run, SeenRecently;
    var r := Run(ttl, events);
    var after := Step(r.0, ttl, e);
    RunOneMore(ttl, events, e);
    SeenOneMore(events, r.1, e, after.1, ttl, key, at);
    assert KnowsAt(events, ttl, key, at) && KnowsAt(events, ttl, key, e.now);
  }

  lemma {:induction false} AlwaysKnows(events: seq<Event>, ttl: int, now: int)
    requires Monotone(events) && (events != [] ==> events[|events| - 1].now <= now)
    ensures Knows(events, ttl, now)
  {
    hide KnowsAt;
    if events == [] {
      forall key, at | key != [] && at >= now ensures KnowsAt([], ttl, key, at) { NothingKnown(ttl, key, at); }
    } else {
      var n := |events| - 1;
      var e := events[n];
      AlwaysKnows(events[..n], ttl, e.now);
      assert events == events[..n] + [e];
      forall key, at | key != [] && at >= now ensures KnowsAt(events, ttl, key, at) {
        OneMoreKnows(events[..n], e, ttl, key, at);
      }
    }
  }

  lemma NothingKnown(ttl: int, key: Bytes, at: int)
    ensures KnowsAt([], ttl, key, at)
  {
  }

  lemma {:induction false} AnswersStand(ttl: int, events: seq<Event>, i: nat)
    requires i <= |events|
    ensures Run(ttl, events).1[..i] == Run(ttl, events[..i]).1
  {
    if i < |events| {
      var n := |events| - 1;
      AnswersStand(ttl, events[..n], i);
      assert events[..n][..i] == events[..i];
    } else {
      assert events[..i] == events;
    }
  }

  /** In every run with a monotone clock and cleanups at any moments, a check is let through
      exactly when no earlier check of its key was, less than one TTL before. */
  lemma EvictionIsInvisible(ttl: int, events: seq<Event>, i: nat)
    requires Monotone(events) && i < |events| && events[i].Check? && events[i].key != []
    ensures var answers := Run(ttl, events).1;
            answers[i] <==> forall j: nat :: j < i && events[j].Check? && events[j].key == events[i].key && answers[j]
                              ==> events[i].now >= events[j].now + ttl
  {
    hide Run;
    var past, e := events[..i], events[i];
    var answers := Run(ttl, events).1;
    AnswersStand(ttl, events, i);
    AnswersStand(ttl, events, i + 1);
    RunOneMore(ttl, past, e);
    assert events[..i + 1] == past + [e];
    assert answers[i] == answers[..i + 1][i] == Step(Run(ttl, past).0, ttl, e).1;
    AlwaysKnows(past, ttl, e.now);
    assert KnowsAt(past, ttl, e.key, e.now);
    var before := answers[..i];
    assert answers[i] <==> !SeenRecently(past, before, ttl, e.key, e.now);
    forall j: nat | j < i
      ensures Recent(past, before, ttl, e.key, e.now, j) <==>
              events[j].Check? && events[j].key == e.key && answers[j] && e.now < events[j].now + ttl
    {
    }
  }

  // ---------- what a cleanup forgets ----------

  /** Check `i` let this key through, and its entry lasts until `until`. */
  ghost predicate LetThrough(events: seq<Event>, answers: seq<bool>, ttl: int, key: Bytes, until: int, i: nat) {
    && i < |events| && i < |answers|
    && events[i] == Check(key, events[i].now) && answers[i] && until == events[i].now + ttl
  }

  /** Every entry was put there by a check that was let through. */
  lemma {:induction false} EntryFromCheck(ttl: int, events: seq<Event>, key: Bytes) returns (i: nat)
    requires key in Run(ttl, events).0
    ensures LetThrough(events, Run(ttl, events).1, ttl, key, Run(ttl, events).0[key], i)
  {
    var n := |events| - 1;
    var e := events[n];
    if e.Check? && e.key == key && e.key != [] && Run(ttl, events).1[n] {
      i := n;
    } else {
      i := EntryFromCheck(ttl, events[..n], key);
    }
  }

  /** A cleanup, by the ticker or on the way into a full table, leaves only keys let through at
      most one TTL before. */
  lemma CleanupForgets(ttl: int, events: seq<Event>, key: Bytes) returns (i: nat)
    requires events != [] && key in Run(ttl, events).0
    requires var e := events[|events| - 1];
             e.Tick? || (e.key != [] && e.key != key && Run(ttl, events).1[|events| - 1]
                         && |Run(ttl, events[..|events| - 1]).0| >= MAX_KEYS)
    ensures i < |events| && events[i].Check? && events[i].key == key && Run(ttl, events).1[i]
    ensures events[|events| - 1].now <= events[i].now + ttl
  {
    i := EntryFromCheck(ttl, events, key);
  }
}
