/**
 The sliding-window rate limiter. It forgets: it filters the queried key in place and sweeps idle keys every
 so often. It still answers exactly as a limiter that remembers every grant for ever (ratelimiter.go).
 */
module Limiter {
  /** Session ids, which are only ever compared. */
  type Key = nat

  const SWEEP_EVERY := 64

  datatype Call = Call(key: Key, now: int)

  // ---- the limiter that never forgets ----------------------------------------

  /** The times later than `cutoff`, in order. */
  function Recent(times: seq<int>, cutoff: int): seq<int> {
    if times == [] then []
    else Recent(times[..|times| - 1], cutoff) + if times[|times| - 1] > cutoff then [times[|times| - 1]] else []
  }

  /** Every time `key` was ever granted, under a limit per window. */
  function Granted(limit: int, window: int, calls: seq<Call>, key: Key): seq<int>
    decreases |calls|, 0
  {
    if calls == [] then []
    else
      var before, c := calls[..|calls| - 1], calls[|calls| - 1];
      Granted(limit, window, before, key)
      + if c.key == key && Grants(limit, window, before, c) then [c.now] else []
  }

  /** A call is granted when fewer than `limit` earlier grants lie inside its window. */
  predicate Grants(limit: int, window: int, before: seq<Call>, c: Call)
    decreases |before|, 1
  {
    |Recent(Granted(limit, window, before, c.key), c.now - window)| < limit
  }

  ghost predicate ClockRuns(calls: seq<Call>) {
    forall i, j :: 0 <= i < j < |calls| ==> calls[i].now <= calls[j].now
  }

  // ---- the limiter that forgets ----------------------------------------------

  datatype Memory = Memory(swept: nat, hits: map<Key, seq<int>>)

  function Hits(m: Memory, key: Key): seq<int> { if key in m.hits then m.hits[key] else [] }

  predicate Live(times: seq<int>, cutoff: int) { times != [] && times[|times| - 1] > cutoff }

  function Evict(hits: map<Key, seq<int>>, cutoff: int): map<Key, seq<int>> {
    map k | k in hits && Live(hits[k], cutoff) :: hits[k]
  }

  predicate Sweeps(m: Memory) { m.swept + 1 >= SWEEP_EVERY }

  function Sweep(m: Memory, cutoff: int): Memory {
    if Sweeps(m) then Memory(0, Evict(m.hits, cutoff)) else Memory(m.swept + 1, m.hits)
  }

  function Answer(limit: int, window: int, m: Memory, c: Call): bool {
    |Recent(Hits(Sweep(m, c.now - window), c.key), c.now - window)| < limit
  }

  function Record(limit: int, window: int, m: Memory, c: Call): Memory {
    var s := Sweep(m, c.now - window);
    var kept := Recent(Hits(s, c.key), c.now - window);
    s.(hits := s.hits[c.key := if |kept| < limit then kept + [c.now] else kept])
  }

  function After(limit: int, window: int, calls: seq<Call>): Memory {
    if calls == [] then Memory(0, map[])
    else Record(limit, window, After(limit, window, calls[..|calls| - 1]), calls[|calls| - 1])
  }

  // ---- the limiter as it runs ------------------------------------------------

  /** A slice: a prefix of a buffer that may have room to grow. */
  datatype Slice = Slice(buf: array<int>, len: nat)

  /** Nothing in the slice is later than `cutoff`, its last time being the latest. */
  predicate Idle(s: Slice, ghost times: seq<int>, cutoff: int)
    requires s.len <= s.buf.Length && s.buf[..s.len] == times
    reads s.buf
    ensures Idle(s, times, cutoff) <==> !Live(times, cutoff)
  {
    s.len == 0 || s.buf[s.len - 1] <= cutoff
  }

  class RateLimiter {
    const limit: int
    const window: int
    var swept: nat
    var hits: map<Key, Slice>
    /** What the slices hold, and which key each buffer belongs to. */
    ghost var times: map<Key, seq<int>>
    ghost var keyOf: map<array<int>, Key>
    ghost var Repr: set<array<int>>

    ghost predicate Holds(k: Key, slice: Slice)
      reads this, Repr
    {
      && k in times && slice.buf in Repr && slice.buf in keyOf && keyOf[slice.buf] == k
      && slice.len <= slice.buf.Length && slice.buf[..slice.len] == times[k]
    }

    /** No two keys share a buffer. */
    ghost predicate Valid()
      reads this, Repr
    {
      hits.Keys == times.Keys && forall k :: k in hits ==> Holds(k, hits[k])
    }

    ghost function Value(): Memory
      reads this
    {
      Memory(swept, times)
    }

    constructor (limit: int, window: int)
      ensures Valid() && Value() == Memory(0, map[]) && Repr == {}
      ensures this.limit == limit && this.window == window
    {
      this.limit, this.window, this.swept, this.hits, this.times, this.keyOf, this.Repr :=
        limit, window, 0, map[], map[], map[], {};
    }

    /** The keys with nothing left inside the window. */
    method IdleKeys(cutoff: int) returns (idle: set<Key>)
      requires Valid()
      ensures forall k :: k in idle <==> k in times && !Live(times[k], cutoff)
    {
      var keys: set<Key>;
      keys, idle := hits.Keys, {};
      while keys != {}
        invariant keys <= hits.Keys
        invariant forall k :: k in idle ==> k in hits && k !in keys && !Live(times[k], cutoff)
        invariant forall k :: k in hits ==> k in keys || k in idle || Live(times[k], cutoff)
        decreases |keys|
      {
        var k :| k in keys;
        keys := keys - {k};
        if Idle(hits[k], times[k], cutoff) {
          idle := idle + {k};
        }
      }
    }

    method EvictIdle(cutoff: int)
      requires Valid()
      modifies this`hits, this`times
      ensures Valid()
      ensures times == Evict(old(times), cutoff)
    {
      hide Live;
      var idle := IdleKeys(cutoff);
      hits, times := hits - idle, times - idle;
    }

    /** The key's slice, or an empty one in a buffer nobody has. */
    method Lookup(key: Key) returns (slice: Slice)
      requires Valid()
      ensures slice.len <= slice.buf.Length && slice.buf[..slice.len] == Hits(Value(), key)
      ensures fresh(slice.buf) || (slice.buf in Repr && slice.buf in keyOf && keyOf[slice.buf] == key)
    {
      if key in hits {
        slice := hits[key];
      } else {
        var none := new int[0];
        slice := Slice(none, 0);
      }
    }

    /** Gives the key a slice, whatever it had before. */
    method Put(key: Key, slice: Slice)
      requires hits.Keys == times.Keys && forall k :: k in hits && k != key ==> Holds(k, hits[k])
      requires slice.len <= slice.buf.Length
      requires slice.buf !in Repr || (slice.buf in keyOf && keyOf[slice.buf] == key)
      modifies this`hits, this`times, this`keyOf, this`Repr
      ensures Valid() && Repr == old(Repr) + {slice.buf}
      ensures times == old(times)[key := slice.buf[..slice.len]]
    {
      hits, times := hits[key := slice], times[key := slice.buf[..slice.len]];
      keyOf, Repr := keyOf[slice.buf := key], Repr + {slice.buf};
    }

    /** The queried key's turn: filter its times in place, and record the grant if there is room for one. */
    method Admit(key: Key, now: int, cutoff: int) returns (ok: bool)
      requires Valid()
      modifies this`hits, this`times, this`keyOf, this`Repr, Repr
      ensures Valid() && fresh(Repr - old(Repr))
      ensures var kept := Recent(Hits(old(Value()), key), cutoff);
              ok == (|kept| < limit) && times == old(times)[key := if ok then kept + [now] else kept]
    {
      hide Recent, Hits;
      var slice := Lookup(key);
      var grown;
      ok, grown := Refill(slice, limit, now, cutoff);
      Put(key, grown);
    }

    /** May `key` act now? Records the grant when it may. */
    method Allow(key: Key, now: int) returns (ok: bool)
      requires Valid()
      modifies this, Repr
      ensures Valid() && fresh(Repr - old(Repr))
      ensures ok == Answer(limit, window, old(Value()), Call(key, now))
      ensures Value() == Record(limit, window, old(Value()), Call(key, now))
    {
      hide Recent;
      var cutoff := now - window;
      swept := swept + 1;
      if swept >= SWEEP_EVERY {
        swept := 0;
        EvictIdle(cutoff);
      }
      assert Value() == Sweep(old(Value()), cutoff);
      ok := Admit(key, now, cutoff);
    }
  }

  /** Keeps the times later than `cutoff` in the same buffer; reading stays ahead of writing. */
  method FilterInPlace(buf: array<int>, len: nat, cutoff: int) returns (kept: nat)
    requires len <= buf.Length
    modifies buf
    ensures kept <= len && buf[..kept] == Recent(old(buf[..len]), cutoff)
  {
    ghost var was := buf[..len];
    kept := 0;
    for i := 0 to len
      invariant kept <= i
      invariant buf[..kept] == Recent(was[..i], cutoff)
      invariant buf[i..len] == was[i..]
    {
      assert was[..i + 1][..i] == was[..i];
      assert buf[i] == buf[i..len][0] == was[i];
      var t := buf[i];
      if t > cutoff {
        buf[kept] := t;
        kept := kept + 1;
        assert buf[..kept] == buf[..kept - 1] + [t];
      }
      assert buf[i + 1..len] == was[i..][1..];
    }
    assert was[..len] == was;
  }

  method Refill(s: Slice, limit: int, now: int, cutoff: int) returns (ok: bool, r: Slice)
    requires s.len <= s.buf.Length
    modifies s.buf
    ensures r.len <= r.buf.Length && (r.buf == s.buf || fresh(r.buf))
    ensures var kept := Recent(old(s.buf[..s.len]), cutoff);
            ok == (|kept| < limit) && r.buf[..r.len] == if ok then kept + [now] else kept
  {
    var kept := FilterInPlace(s.buf, s.len, cutoff);
    ok := kept < limit;
    r := Slice(s.buf, kept);
    if ok {
      r := Append(r, now);
    }
  }

  /** In place while there is room, otherwise into a buffer of twice the size. */
  method Append(s: Slice, x: int) returns (r: Slice)
    requires s.len <= s.buf.Length
    modifies s.buf
    ensures r.buf == s.buf || fresh(r.buf)
    ensures r.len == s.len + 1 <= r.buf.Length
    ensures r.buf[..r.len] == old(s.buf[..s.len]) + [x]
  {
    var buf := s.buf;
    if s.len == buf.Length {
      var b := buf;
      buf := new int[2 * s.len + 1](i requires 0 <= i reads b => if i < b.Length then b[i] else 0);
      assert buf[..s.len] == s.buf[..s.len];
    }
    buf[s.len] := x;
    r := Slice(buf, s.len + 1);
  }

  // ---- forgetting changes no answer -------------------------------------------

  lemma {:induction false} RecentSnoc(times: seq<int>, x: int, cutoff: int)
    ensures Recent(times + [x], cutoff) == Recent(times, cutoff) + if x > cutoff then [x] else []
  {
    assert (times + [x])[..|times|] == times;
  }

  lemma {:induction false} RecentTwice(times: seq<int>, early: int, late: int)
    requires early <= late
    ensures Recent(Recent(times, early), late) == Recent(times, late)
  {
    if times == [] {
    } else {
      var front, last := times[..|times| - 1], times[|times| - 1];
      RecentTwice(front, early, late);
      if last > early {
        RecentSnoc(Recent(front, early), last, late);
      } else {
        assert Recent(times, early) == Recent(front, early) && Recent(times, late) == Recent(front, late);
      }
    }
  }

  ghost predicate SortedUpTo(times: seq<int>, now: int) {
    && (forall i :: 0 <= i < |times| ==> times[i] <= now)
    && forall i, j :: 0 <= i < j < |times| ==> times[i] <= times[j]
  }

  lemma {:induction false} RecentSorted(times: seq<int>, cutoff: int, now: int)
    requires SortedUpTo(times, now)
    ensures SortedUpTo(Recent(times, cutoff), now)
    ensures Recent(times, cutoff) != [] <==> Live(times, cutoff)
  {
    if times == [] {
    } else {
      var front, last := times[..|times| - 1], times[|times| - 1];
      RecentSorted(front, cutoff, last);
    }
  }

  /** What a sweep drops was outside every window still to come. */
  lemma {:induction false} SweepForgetsNothing(m: Memory, key: Key, sweepAt: int, cutoff: int, now: int)
    requires SortedUpTo(Hits(m, key), now) && sweepAt <= cutoff
    ensures Recent(Hits(Sweep(m, sweepAt), key), cutoff) == Recent(Hits(m, key), cutoff)
    ensures SortedUpTo(Hits(Sweep(m, sweepAt), key), now)
  {
    RecentSorted(Hits(m, key), sweepAt, now);
    RecentSorted(Hits(m, key), cutoff, now);
  }

  ghost predicate UpToNow(calls: seq<Call>, now: int) { calls != [] ==> calls[|calls| - 1].now <= now }

  /** Recording the call keeps the two memories alike from `cutoff` on. */
  lemma {:induction false} RecordAlike(hits: seq<int>, granted: seq<int>, now: int, early: int, cutoff: int)
    requires SortedUpTo(hits, now) && early <= cutoff
    requires Recent(hits, cutoff) == Recent(granted, cutoff)
    ensures SortedUpTo(Recent(hits, early), now) && SortedUpTo(Recent(hits, early) + [now], now)
    ensures Recent(Recent(hits, early), cutoff) == Recent(granted, cutoff)
    ensures Recent(Recent(hits, early) + [now], cutoff) == Recent(granted + [now], cutoff)
  {
    hide Recent;
    RecentSorted(hits, early, now);
    RecentTwice(hits, early, cutoff);
    RecentSnoc(Recent(hits, early), now, cutoff);
    RecentSnoc(granted, now, cutoff);
  }

  /** Inside any window still to come, the limiter remembers exactly the grants there were. */
  lemma {:induction false} RemembersRecent(limit: int, window: int, calls: seq<Call>, key: Key, now: int, cutoff: int)
    requires ClockRuns(calls) && UpToNow(calls, now) && now - window <= cutoff
    ensures SortedUpTo(Hits(After(limit, window, calls), key), now)
    ensures Recent(Hits(After(limit, window, calls), key), cutoff) == Recent(Granted(limit, window, calls, key), cutoff)
  {
    hide Recent, SortedUpTo, Sweep;
    if calls == [] {
      EmptySorted(now);
    } else {
      var before, c := calls[..|calls| - 1], calls[|calls| - 1];
      var m, early := After(limit, window, before), c.now - window;
      RemembersRecent(limit, window, before, key, c.now, early);
      RemembersRecent(limit, window, before, key, c.now, cutoff);
      SweepForgetsNothing(m, key, early, early, c.now);
      SweepForgetsNothing(m, key, early, cutoff, c.now);
      var hits, granted := Hits(Sweep(m, early), key), Granted(limit, window, before, key);
      RecordAlike(hits, granted, c.now, early, cutoff);
      assert granted + [] == granted;
      SortedLater(Hits(After(limit, window, calls), key), c.now, now);
    }
  }

  lemma EmptySorted(now: int)
    ensures SortedUpTo([], now)
  {
  }

  lemma SortedLater(times: seq<int>, early: int, late: int)
    requires SortedUpTo(times, early) && early <= late
    ensures SortedUpTo(times, late)
  {
  }

  /** Under a clock that never runs backwards the two limiters answer every call alike. */
  lemma {:induction false} AnswersAlike(limit: int, window: int, calls: seq<Call>, c: Call)
    requires ClockRuns(calls) && UpToNow(calls, c.now)
    ensures Answer(limit, window, After(limit, window, calls), c) == Grants(limit, window, calls, c)
  {
    hide Recent, Sweep, SortedUpTo, After, Granted, ClockRuns;
    RemembersRecent(limit, window, calls, c.key, c.now, c.now - window);
    SweepForgetsNothing(After(limit, window, calls), c.key, c.now - window, c.now - window, c.now);
  }

  /** The calls of this key that were granted later than `cutoff`. */
  ghost function GrantedSince(limit: int, window: int, calls: seq<Call>, key: Key, cutoff: int): set<nat> {
    set i | 0 <= i < |calls| && calls[i].key == key && cutoff < calls[i].now
            && Answer(limit, window, After(limit, window, calls[..i]), calls[i])
  }

  lemma {:induction false} GrantedSnoc(limit: int, window: int, calls: seq<Call>, key: Key, cutoff: int)
    requires calls != []
    ensures var n := |calls| - 1;
            GrantedSince(limit, window, calls, key, cutoff)
            == GrantedSince(limit, window, calls[..n], key, cutoff)
               + if calls[n].key == key && cutoff < calls[n].now
                    && Answer(limit, window, After(limit, window, calls[..n]), calls[n])
                 then {n} else {}
  {
    hide After, Answer;
    var n := |calls| - 1;
    forall i | 0 <= i < n ensures calls[..n][..i] == calls[..i] {}
  }

  /** The reference limiter's times later than the cutoff are as many as the calls granted later than it. */
  lemma {:induction false} GrantsCounted(limit: int, window: int, calls: seq<Call>, key: Key, cutoff: int)
    requires ClockRuns(calls)
    ensures |Recent(Granted(limit, window, calls, key), cutoff)| == |GrantedSince(limit, window, calls, key, cutoff)|
  {
    hide Recent, After, Answer, Grants;
    if calls == [] {
      NoneRecent(cutoff);
    } else {
      var n := |calls| - 1;
      var before, c := calls[..n], calls[n];
      GrantsCounted(limit, window, before, key, cutoff);
      AnswersAlike(limit, window, before, c);
      GrantedSnoc(limit, window, calls, key, cutoff);
      var granted := Granted(limit, window, before, key);
      RecentSnoc(granted, c.now, cutoff);
      assert granted + [] == granted;
      assert n !in GrantedSince(limit, window, before, key, cutoff);
      hide GrantedSince, ClockRuns;
    }
  }

  lemma NoneRecent(cutoff: int)
    ensures Recent([], cutoff) == []
  {
  }

  /**
   Under a clock that never runs backwards a call is granted exactly if fewer than `limit` calls of its key were granted
   within the window before it, a grant exactly one window old no longer counting.
   */
  lemma {:induction false} GrantedBelowLimit(limit: int, window: int, calls: seq<Call>, c: Call)
    requires ClockRuns(calls) && UpToNow(calls, c.now)
    ensures Answer(limit, window, After(limit, window, calls), c)
            <==> |GrantedSince(limit, window, calls, c.key, c.now - window)| < limit
  {
    hide Answer, After, GrantedSince, Recent, Granted, ClockRuns;
    AnswersAlike(limit, window, calls, c);
    GrantsCounted(limit, window, calls, c.key, c.now - window);
  }

  // ---- the memory stays bounded -------------------------------------------------

  ghost function KeysOf(calls: seq<Call>): set<Key> { set i | 0 <= i < |calls| :: calls[i].key }

  /** The keys with a grant later than `cutoff`. */
  ghost function LiveKeys(limit: int, window: int, calls: seq<Call>, cutoff: int): set<Key> {
    set k | k in KeysOf(calls) && Recent(Granted(limit, window, calls, k), cutoff) != []
  }

  /** How many keys were live when the last sweep ran. */
  ghost function LiveAtSweep(limit: int, window: int, calls: seq<Call>): nat {
    if calls == [] then 0
    else
      var before, c := calls[..|calls| - 1], calls[|calls| - 1];
      if Sweeps(After(limit, window, before)) then |LiveKeys(limit, window, before, c.now - window)|
      else LiveAtSweep(limit, window, before)
  }

  lemma {:induction false} OnlyCallersHeld(limit: int, window: int, calls: seq<Call>)
    ensures After(limit, window, calls).hits.Keys <= KeysOf(calls)
  {
    if calls == [] {
    } else {
      var before := calls[..|calls| - 1];
      OnlyCallersHeld(limit, window, before);
      forall k | k in KeysOf(before) ensures k in KeysOf(calls) {
        var i :| 0 <= i < |before| && before[i].key == k;
        assert calls[i].key == k;
      }
    }
  }

  lemma {:induction false} SweepKeepsLive(limit: int, window: int, calls: seq<Call>, now: int)
    requires ClockRuns(calls) && UpToNow(calls, now)
    ensures Evict(After(limit, window, calls).hits, now - window).Keys == LiveKeys(limit, window, calls, now - window)
  {
    var evicted, live := Evict(After(limit, window, calls).hits, now - window), LiveKeys(limit, window, calls, now - window);
    OnlyCallersHeld(limit, window, calls);
    forall k | k in KeysOf(calls) ensures k in evicted.Keys <==> k in live {
      SweepKeepsKey(limit, window, calls, now, k);
    }
  }

  lemma {:induction false} SweepKeepsKey(limit: int, window: int, calls: seq<Call>, now: int, k: Key)
    requires ClockRuns(calls) && UpToNow(calls, now)
    ensures k in Evict(After(limit, window, calls).hits, now - window)
            <==> Recent(Granted(limit, window, calls, k), now - window) != []
  {
    hide Recent;
    var m := After(limit, window, calls);
    RemembersRecent(limit, window, calls, k, now, now - window);
    RecentSorted(Hits(m, k), now - window, now);
  }

  lemma RecordCounts(limit: int, window: int, m: Memory, c: Call)
    ensures Record(limit, window, m, c).swept == if m.swept + 1 >= SWEEP_EVERY then 0 else m.swept + 1
  {
    hide Recent, Hits, Evict;
  }

  lemma OneMoreOf64(n: nat)
    ensures (n + 1) % 64 == if n % 64 == 63 then 0 else n % 64 + 1
  {
  }

  /** Exactly every 64th call sweeps. */
  lemma {:induction false} SweepsEvery64th(limit: int, window: int, calls: seq<Call>)
    ensures After(limit, window, calls).swept == |calls| % 64
    ensures Sweeps(After(limit, window, calls)) <==> (|calls| + 1) % 64 == 0
  {
    hide Record;
    OneMoreOf64(|calls|);
    if calls == [] {
    } else {
      var before, c := calls[..|calls| - 1], calls[|calls| - 1];
      SweepsEvery64th(limit, window, before);
      RecordCounts(limit, window, After(limit, window, before), c);
      OneMoreOf64(|before|);
    }
  }

  /** The keys held never exceed those live at the last sweep by more than the calls between sweeps. */
  lemma {:induction false} TrackedBounded(limit: int, window: int, calls: seq<Call>)
    requires ClockRuns(calls)
    ensures After(limit, window, calls).swept < SWEEP_EVERY
    ensures |After(limit, window, calls).hits| <= LiveAtSweep(limit, window, calls) + After(limit, window, calls).swept + 1
    ensures |After(limit, window, calls).hits| <= LiveAtSweep(limit, window, calls) + 64
  {
    hide Recent, Evict, LiveKeys;
    if calls == [] {
    } else {
      var before, c := calls[..|calls| - 1], calls[|calls| - 1];
      TrackedBounded(limit, window, before);
      var m := After(limit, window, before);
      var s := Sweep(m, c.now - window);
      SweepKeepsLive(limit, window, before, c.now);
      assert After(limit, window, calls).hits.Keys == s.hits.Keys + {c.key};
    }
  }
}
