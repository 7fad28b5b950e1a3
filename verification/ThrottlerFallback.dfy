/** A JavaScript Map: entries in insertion order; setting an existing key keeps its place. */
module OrderedMaps {
  import opened Wrappers

  datatype OrderedMap<V> = OrderedMap(order: seq<string>, at: map<string, V>) {

    ghost predicate Valid() {
      Distinct(order) && forall k :: k in order <==> k in at
    }

    function Get(k: string): Option<V> {
      if k in at then Some(at[k]) else None
    }

    function Set(k: string, v: V): OrderedMap<V> {
      OrderedMap(if k in at then order else order + [k], at[k := v])
    }

    function Delete(k: string): OrderedMap<V> {
      OrderedMap(Without(order, k), at - {k})
    }
  }

  function Without(keys: seq<string>, k: string): seq<string> {
    if keys == [] then [] else (if keys[0] == k then [] else [keys[0]]) + Without(keys[1..], k)
  }

  ghost predicate Distinct(keys: seq<string>) {
    forall i, j :: 0 <= i < j < |keys| ==> keys[i] != keys[j]
  }

  lemma {:induction false} WithoutMembers(keys: seq<string>, k: string)
    ensures forall x :: x in Without(keys, k) <==> x in keys && x != k
    decreases |keys|
  {
    if keys != [] {
      WithoutMembers(keys[1..], k);
      assert keys == [keys[0]] + keys[1..];
    }
  }

  lemma {:induction false} WithoutDistinct(keys: seq<string>, k: string)
    requires Distinct(keys)
    ensures Distinct(Without(keys, k))
    decreases |keys|
  {
    if keys != [] {
      WithoutDistinct(keys[1..], k);
      WithoutMembers(keys[1..], k);
      forall j | 0 <= j < |Without(keys[1..], k)| ensures Without(keys[1..], k)[j] != keys[0] {
        assert Without(keys[1..], k)[j] in keys[1..];
      }
    }
  }

  lemma {:induction false} WithoutLength(keys: seq<string>, k: string)
    requires Distinct(keys)
    ensures |Without(keys, k)| == |keys| - if k in keys then 1 else 0
    decreases |keys|
  {
    if keys != [] {
      WithoutLength(keys[1..], k);
      assert keys == [keys[0]] + keys[1..];
    }
  }

  lemma SetValid<V>(m: OrderedMap<V>, k: string, v: V)
    requires m.Valid()
    ensures m.Set(k, v).Valid() && |m.Set(k, v).order| <= |m.order| + 1
  {
  }

  lemma DeleteValid<V>(m: OrderedMap<V>, k: string)
    requires m.Valid()
    ensures m.Delete(k).Valid() && |m.Delete(k).order| == |m.order| - if k in m.at then 1 else 0
  {
    WithoutMembers(m.order, k);
    WithoutDistinct(m.order, k);
    WithoutLength(m.order, k);
  }

  /** Deletes those of the listed keys whose value is stale. */
  function DropStale<V>(m: OrderedMap<V>, keys: seq<string>, stale: V -> bool): OrderedMap<V>
    decreases |keys|
  {
    if keys == [] then m
    else DropStale(if keys[0] in m.at && stale(m.at[keys[0]]) then m.Delete(keys[0]) else m, keys[1..], stale)
  }

  lemma DropStaleStep<V>(m: OrderedMap<V>, keys: seq<string>, i: nat, stale: V -> bool)
    requires i < |keys|
    ensures DropStale(m, keys[i..], stale) ==
            DropStale(if keys[i] in m.at && stale(m.at[keys[i]]) then m.Delete(keys[i]) else m, keys[i + 1..], stale)
  {
    assert keys[i..][0] == keys[i] && keys[i..][1..] == keys[i + 1..];
  }

  lemma {:induction false} DropStaleSpec<V>(m: OrderedMap<V>, keys: seq<string>, stale: V -> bool)
    requires m.Valid()
    ensures var r := DropStale(m, keys, stale);
            && r.Valid() && |r.order| <= |m.order|
            && (forall k :: r.Get(k) == if k in keys && k in m.at && stale(m.at[k]) then None else m.Get(k))
    decreases |keys|
  {
    if keys != [] {
      DeleteValid(m, keys[0]);
      DropStaleSpec(if keys[0] in m.at && stale(m.at[keys[0]]) then m.Delete(keys[0]) else m, keys[1..], stale);
    }
  }

  /** Deletes oldest entries until at most max remain; an empty key would stop the loop. */
  function EvictOldest<V>(m: OrderedMap<V>, max: nat): OrderedMap<V>
    requires m.Valid()
    decreases |m.order|
  {
    if |m.order| <= max || m.order[0] == "" then m
    else
      DeleteValid(m, m.order[0]);
      EvictOldest(m.Delete(m.order[0]), max)
  }

  lemma {:induction false} EvictOldestSpec<V>(m: OrderedMap<V>, max: nat)
    requires m.Valid()
    ensures var r := EvictOldest(m, max);
            && r.Valid()
            && (forall k :: k in r.at ==> k in m.at && r.at[k] == m.at[k])
            && ("" !in m.at ==> |r.order| <= max)
            && (|m.order| <= max ==> r == m)
    decreases |m.order|
  {
    if |m.order| > max && m.order[0] != "" {
      DeleteValid(m, m.order[0]);
      EvictOldestSpec(m.Delete(m.order[0]), max);
    }
  }
}

/** The in-memory path used while Redis is down. */
module ThrottlerFallback {
  import opened Wrappers
  import opened OrderedMaps
  import opened ThrottlerCommon

  datatype HitState = HitState(hits: nat, windowEndsAt: nat)

  /** One call: what the guard asks for, and the clock readings of the compaction and of the call itself. */
  datatype Call = Call(
    hitKey: string, blockKey: string, ttl: int, limit: int, blockDuration: int, compactedAt: nat, now: nat)

  datatype Local = Local(hits: OrderedMap<HitState>, blocks: OrderedMap<nat>) {
    ghost predicate Valid() {
      hits.Valid() && blocks.Valid() && "" !in hits.at && "" !in blocks.at
    }
  }

  const Empty := Local(OrderedMap([], map[]), OrderedMap([], map[]))

  function StaleBlock(now: nat): nat -> bool { (until: nat) => until <= now }

  function StaleWindow(now: nat): HitState -> bool { (s: HitState) => s.windowEndsAt <= now }

  function DropExpired(st: Local, now: nat): Local {
    Local(DropStale(st.hits, st.hits.order, StaleWindow(now)), DropStale(st.blocks, st.blocks.order, StaleBlock(now)))
  }

  lemma DropExpiredSpec(st: Local, now: nat)
    requires st.Valid()
    ensures DropExpired(st, now).Valid()
    ensures forall k :: DropExpired(st, now).hits.Get(k) ==
                        if k in st.hits.at && st.hits.at[k].windowEndsAt <= now then None else st.hits.Get(k)
    ensures forall k :: DropExpired(st, now).blocks.Get(k) ==
                        if k in st.blocks.at && st.blocks.at[k] <= now then None else st.blocks.Get(k)
  {
    DropStaleSpec(st.hits, st.hits.order, StaleWindow(now));
    DropStaleSpec(st.blocks, st.blocks.order, StaleBlock(now));
    assert DropExpired(st, now).hits.Get("").None? && DropExpired(st, now).blocks.Get("").None?;
  }

  /** compactInMemoryState. */
  function Compact(st: Local, now: nat, max: nat): Local
    requires st.Valid()
  {
    DropExpiredSpec(st, now);
    var live := DropExpired(st, now);
    Local(EvictOldest(live.hits, max), EvictOldest(live.blocks, max))
  }

  /** incrementInMemory after its compaction. */
  function CountCall(st: Local, c: Call): (Local, Record) {
    var blockedUntil := if c.blockKey in st.blocks.at then st.blocks.at[c.blockKey] else 0;
    if blockedUntil > c.now then
      var window := st.hits.Get(c.hitKey);
      (st, Record(if window.Some? then window.value.hits else c.limit + 1,
                  ToSeconds((if window.Some? then window.value.windowEndsAt else blockedUntil) - c.now),
                  true,
                  ToSeconds(blockedUntil - c.now)))
    else
      var windowMs := if c.ttl > 0 then c.ttl else 1000;
      var active := c.hitKey in st.hits.at && st.hits.at[c.hitKey].windowEndsAt > c.now;
      var hits := if active then st.hits.at[c.hitKey].hits + 1 else 1;
      var windowEndsAt := if active then st.hits.at[c.hitKey].windowEndsAt else c.now + windowMs;
      var counted := st.hits.Set(c.hitKey, HitState(hits, windowEndsAt));
      if hits > c.limit then
        var blockMs := ResolveBlockDuration(c.blockDuration, c.ttl);
        (Local(counted, st.blocks.Set(c.blockKey, c.now + blockMs)),
         Record(hits, ToSeconds(windowEndsAt - c.now), true, ToSeconds(blockMs)))
      else (st.(hits := counted), Record(hits, ToSeconds(windowEndsAt - c.now), false, 0))
  }

  function Increment(st: Local, c: Call, max: nat): (Local, Record)
    requires st.Valid()
  {
    CountCall(Compact(st, c.compactedAt, max), c)
  }

  predicate WellTimed(c: Call) {
    c.compactedAt <= c.now && c.hitKey != "" && c.blockKey != ""
  }

  lemma CompactValid(st: Local, now: nat, max: nat)
    requires st.Valid()
    ensures var r := Compact(st, now, max);
            r.Valid() && |r.hits.order| <= max && |r.blocks.order| <= max
  {
    DropExpiredSpec(st, now);
    var live := DropExpired(st, now);
    EvictOldestSpec(live.hits, max);
    EvictOldestSpec(live.blocks, max);
  }

  lemma CountCallValid(st: Local, c: Call)
    requires st.Valid() && c.hitKey != "" && c.blockKey != ""
    ensures var r := CountCall(st, c).0;
            r.Valid() && |r.hits.order| <= |st.hits.order| + 1 && |r.blocks.order| <= |st.blocks.order| + 1
  {
    var r := CountCall(st, c).0;
    if c.hitKey in r.hits.at {
      SetValid(st.hits, c.hitKey, r.hits.at[c.hitKey]);
    }
    if c.blockKey in r.blocks.at {
      SetValid(st.blocks, c.blockKey, r.blocks.at[c.blockKey]);
    }
  }

  /** Each map holds at most one entry more than the cap after every call. */
  lemma SizeBounded(st: Local, c: Call, max: nat)
    requires st.Valid() && WellTimed(c)
    ensures var r := Increment(st, c, max).0;
            r.Valid() && |r.hits.order| <= max + 1 && |r.blocks.order| <= max + 1
  {
    CompactValid(st, c.compactedAt, max);
    CountCallValid(Compact(st, c.compactedAt, max), c);
  }

  // ---- Blocks and compaction ----

  /** The size cap does not touch this key's window. */
  ghost predicate WindowKept(st: Local, now: nat, max: nat, hitKey: string)
    requires st.Valid()
  {
    Compact(st, now, max).hits.Get(hitKey) == DropExpired(st, now).hits.Get(hitKey)
  }

  ghost predicate BlockKept(st: Local, now: nat, max: nat, blockKey: string)
    requires st.Valid()
  {
    Compact(st, now, max).blocks.Get(blockKey) == DropExpired(st, now).blocks.Get(blockKey)
  }

  /** A call before its block's end is blocked for the rest of the block and counts nothing. */
  lemma BlockHolds(st: Local, c: Call, max: nat)
    requires st.Valid() && WellTimed(c) && BlockKept(st, c.compactedAt, max, c.blockKey)
    requires c.blockKey in st.blocks.at && c.now < st.blocks.at[c.blockKey]
    ensures var (after, record) := Increment(st, c, max);
            && record.isBlocked
            && record.timeToBlockExpire == ToSeconds(st.blocks.at[c.blockKey] - c.now) > 0
            && after == Compact(st, c.compactedAt, max)
            && after.blocks.Get(c.blockKey) == st.blocks.Get(c.blockKey)
  {
    DropExpiredSpec(st, c.compactedAt);
    assert Compact(st, c.compactedAt, max).blocks.Get(c.blockKey) == st.blocks.Get(c.blockKey);
  }

  /** Dropping expired entries is invisible: it changes neither the verdict nor the block time, and no other part of
      the record either, unless the call is blocked and its window has run out. */
  lemma CompactionInvisible(st: Local, c: Call, max: nat)
    requires st.Valid() && WellTimed(c)
    requires WindowKept(st, c.compactedAt, max, c.hitKey) && BlockKept(st, c.compactedAt, max, c.blockKey)
    ensures var plain, compacted := CountCall(st, c).1, Increment(st, c, max).1;
            && plain.isBlocked == compacted.isBlocked
            && plain.timeToBlockExpire == compacted.timeToBlockExpire
            && (plain == compacted
                || (&& c.blockKey in st.blocks.at && c.now < st.blocks.at[c.blockKey]
                    && c.hitKey in st.hits.at && st.hits.at[c.hitKey].windowEndsAt <= c.compactedAt))
  {
    DropExpiredSpec(st, c.compactedAt);
    var compacted := Compact(st, c.compactedAt, max);
    assert compacted.hits.Get(c.hitKey) ==
           if c.hitKey in st.hits.at && st.hits.at[c.hitKey].windowEndsAt <= c.compactedAt then None
           else st.hits.Get(c.hitKey);
    assert compacted.blocks.Get(c.blockKey) ==
           if c.blockKey in st.blocks.at && st.blocks.at[c.blockKey] <= c.compactedAt then None
           else st.blocks.Get(c.blockKey);
  }

  // ---- Histories ----

  /** Calls in the order in which they run; the clock never goes back. */
  ghost predicate Ordered(calls: seq<Call>) {
    && (forall i :: 0 <= i < |calls| ==> WellTimed(calls[i]))
    && (forall i, j :: 0 <= i < j < |calls| ==> calls[i].now <= calls[j].compactedAt)
  }

  /** states[i] is what the fallback holds before call i. */
  ghost predicate IsHistory(states: seq<Local>, calls: seq<Call>, max: nat) {
    && Ordered(calls)
    && |states| == |calls| + 1
    && states[0] == Empty
    && (forall i :: 0 <= i < |states| ==> states[i].Valid())
    && (forall i {:trigger Increment(states[i], calls[i], max)} :: 0 <= i < |calls| ==>
          states[i + 1] == Increment(states[i], calls[i], max).0)
  }

  /** Every history of calls has its states. */
  lemma HistoryExists(calls: seq<Call>, max: nat) returns (states: seq<Local>)
    requires Ordered(calls)
    ensures IsHistory(states, calls, max)
  {
    states := [Empty];
    for n := 0 to |calls|
      invariant |states| == n + 1 && states[0] == Empty
      invariant forall i :: 0 <= i <= n ==> states[i].Valid()
      invariant forall i :: 0 <= i < n ==> states[i + 1] == Increment(states[i], calls[i], max).0
    {
      SizeBounded(states[n], calls[n], max);
      states := states + [Increment(states[n], calls[n], max).0];
    }
  }

  /** Call i was let through and counted in the window that ends at windowEnd. */
  ghost predicate PassesInWindow(states: seq<Local>, calls: seq<Call>, max: nat, hitKey: string, windowEnd: nat, i: nat)
    requires IsHistory(states, calls, max) && i < |calls|
  {
    && calls[i].hitKey == hitKey
    && !Increment(states[i], calls[i], max).1.isBlocked
    && hitKey in states[i + 1].hits.at && states[i + 1].hits.at[hitKey].windowEndsAt == windowEnd
  }

  /** How many of the first n calls were let through for this key in the window that ends at windowEnd. */
  ghost function Passed(states: seq<Local>, calls: seq<Call>, max: nat, hitKey: string, windowEnd: nat, n: nat): nat
    requires IsHistory(states, calls, max) && n <= |calls|
  {
    if n == 0 then 0
    else
      Passed(states, calls, max, hitKey, windowEnd, n - 1)
      + if PassesInWindow(states, calls, max, hitKey, windowEnd, n - 1) then 1 else 0
  }

  lemma PassedNext(states: seq<Local>, calls: seq<Call>, max: nat, hitKey: string, e: nat, j: nat)
    requires IsHistory(states, calls, max) && j < |calls|
    ensures Passed(states, calls, max, hitKey, e, j + 1)
            == Passed(states, calls, max, hitKey, e, j)
               + if PassesInWindow(states, calls, max, hitKey, e, j) then 1 else 0
  {
  }

  ghost predicate NeverEvicted(states: seq<Local>, calls: seq<Call>, max: nat, hitKey: string)
    requires IsHistory(states, calls, max)
  {
    forall i :: 0 <= i < |calls| ==> WindowKept(states[i], calls[i].compactedAt, max, hitKey)
  }

  ghost predicate SameLimit(calls: seq<Call>, hitKey: string, limit: int) {
    forall i :: 0 <= i < |calls| && calls[i].hitKey == hitKey ==> calls[i].limit == limit
  }

  function Positive(limit: int): nat { if limit > 0 then limit else 0 }

  /** What one call does to the window of a key that is not evicted. */
  lemma WindowStep(st: Local, c: Call, max: nat, hitKey: string)
    requires st.Valid() && WellTimed(c) && WindowKept(st, c.compactedAt, max, hitKey)
    ensures var (after, record) := Increment(st, c, max);
            var w, w' := st.hits.Get(hitKey), after.hits.Get(hitKey);
            if c.hitKey == hitKey && !record.isBlocked then
              w'.Some? && w'.value.hits <= c.limit
              && (if w.Some? && w.value.windowEndsAt > c.now
                  then w' == Some(HitState(w.value.hits + 1, w.value.windowEndsAt))
                  else w'.value.hits == 1 && w'.value.windowEndsAt > c.now)
            else
              || w' == w
              || (w'.None? && w.Some? && w.value.windowEndsAt <= c.now)
              || (w'.Some? && w.Some? && w'.value.windowEndsAt == w.value.windowEndsAt && w'.value.hits > w.value.hits)
              || (w'.Some? && (w.Some? ==> w.value.windowEndsAt <= c.now) && w'.value.windowEndsAt > c.now)
  {
    DropExpiredSpec(st, c.compactedAt);
    assert Compact(st, c.compactedAt, max).hits.Get(hitKey) == DropExpired(st, c.compactedAt).hits.Get(hitKey);
  }

  /** How the count p of the window ending at e relates to the key's present window w. */
  predicate Counted(w: Option<HitState>, last: nat, limit: int, e: nat, p: nat) {
    && p <= Positive(limit)
    && (w.Some? && w.value.windowEndsAt == e ==> p <= w.value.hits)
    && (e > (if w.Some? then w.value.windowEndsAt else last) ==> p == 0)
  }

  lemma CountedStep(st: Local, c: Call, max: nat, hitKey: string, last: nat, limit: int, e: nat, p: nat)
    requires st.Valid() && WellTimed(c) && WindowKept(st, c.compactedAt, max, hitKey) && last <= c.compactedAt
    requires c.hitKey == hitKey ==> c.limit == limit
    requires Counted(st.hits.Get(hitKey), last, limit, e, p)
    ensures var (after, record) := Increment(st, c, max);
            var passes := c.hitKey == hitKey && !record.isBlocked
                          && hitKey in after.hits.at && after.hits.at[hitKey].windowEndsAt == e;
            Counted(after.hits.Get(hitKey), c.now, limit, e, p + if passes then 1 else 0)
  {
    WindowStep(st, c, max, hitKey);
  }

  /** The same over a history, after its first n calls. */
  ghost predicate CountedBy(states: seq<Local>, calls: seq<Call>, max: nat, hitKey: string, limit: int, e: nat, n: nat)
    requires IsHistory(states, calls, max) && n <= |calls|
  {
    Counted(states[n].hits.Get(hitKey), if n == 0 then 0 else calls[n - 1].now, limit, e,
            Passed(states, calls, max, hitKey, e, n))
  }

  lemma CountedNext(states: seq<Local>, calls: seq<Call>, max: nat, hitKey: string, limit: int, e: nat, j: nat, n: nat)
    requires IsHistory(states, calls, max) && j < |calls| && n == j + 1
    requires NeverEvicted(states, calls, max, hitKey) && SameLimit(calls, hitKey, limit)
    requires CountedBy(states, calls, max, hitKey, limit, e, j)
    ensures CountedBy(states, calls, max, hitKey, limit, e, n)
  {
    var last := if j == 0 then 0 else calls[j - 1].now;
    var p := Passed(states, calls, max, hitKey, e, j);
    PassedNext(states, calls, max, hitKey, e, j);
    assert states[j + 1] == Increment(states[j], calls[j], max).0;
    CountedStep(states[j], calls[j], max, hitKey, last, limit, e, p);
  }

  lemma {:induction false} WindowCounted(
      states: seq<Local>, calls: seq<Call>, max: nat, hitKey: string, limit: int, e: nat, n: nat)
    requires IsHistory(states, calls, max) && n <= |calls|
    requires NeverEvicted(states, calls, max, hitKey) && SameLimit(calls, hitKey, limit)
    ensures CountedBy(states, calls, max, hitKey, limit, e, n)
  {
    if n == 0 {
      assert Counted(None, 0, limit, e, 0);
    } else {
      var j := n - 1;
      WindowCounted(states, calls, max, hitKey, limit, e, j);
      CountedNext(states, calls, max, hitKey, limit, e, j, n);
    }
  }

  /** For a key that is not evicted, every window of the fallback lets at most limit calls through. */
  lemma LimitPerWindow(states: seq<Local>, calls: seq<Call>, max: nat, hitKey: string, limit: int, windowEnd: nat)
    requires IsHistory(states, calls, max)
    requires NeverEvicted(states, calls, max, hitKey) && SameLimit(calls, hitKey, limit)
    ensures Passed(states, calls, max, hitKey, windowEnd, |calls|) <= Positive(limit)
  {
    WindowCounted(states, calls, max, hitKey, limit, windowEnd, |calls|);
  }

  // ---- Who is let through, and for how long the others are not ----

  /** The call finds its client blocked. */
  ghost predicate UnderBlock(st: Local, c: Call) { c.blockKey in st.blocks.at && c.now < st.blocks.at[c.blockKey] }

  /** The configured block time if there is one, else the window, else a second. */
  ghost predicate IsBlockTime(c: Call, d: int) {
    && (c.blockDuration > 0 ==> d == c.blockDuration)
    && (c.blockDuration <= 0 && c.ttl > 0 ==> d == c.ttl)
    && (c.blockDuration <= 0 && c.ttl <= 0 ==> d == 1000)
  }

  /** Whole seconds that just cover the time. */
  ghost predicate Covers(seconds: int, ms: int) { 1000 * (seconds - 1) < ms <= 1000 * seconds }

  lemma CompactedBlock(st: Local, c: Call, max: nat)
    requires st.Valid() && WellTimed(c) && BlockKept(st, c.compactedAt, max, c.blockKey)
    ensures UnderBlock(Compact(st, c.compactedAt, max), c) <==> UnderBlock(st, c)
  {
    DropExpiredSpec(st, c.compactedAt);
    assert Compact(st, c.compactedAt, max).blocks.Get(c.blockKey)
           == DropExpired(st, c.compactedAt).blocks.Get(c.blockKey);
  }

  /** A call whose client is not blocked is refused exactly when it counts past the limit; then the client is blocked
      from now for the block time, and otherwise its block is left alone. */
  lemma RefusedExactly(st: Local, c: Call, max: nat, d: int)
    requires st.Valid() && WellTimed(c) && BlockKept(st, c.compactedAt, max, c.blockKey) && !UnderBlock(st, c)
    requires IsBlockTime(c, d)
    ensures var (after, record) := Increment(st, c, max);
            && (record.isBlocked <==> record.totalHits > c.limit)
            && c.hitKey in after.hits.at && after.hits.at[c.hitKey].hits == record.totalHits
            && after.hits.at[c.hitKey].windowEndsAt > c.now
            && Covers(record.timeToExpire, after.hits.at[c.hitKey].windowEndsAt - c.now)
            && (if record.isBlocked
                then after.blocks.Get(c.blockKey) == Some(c.now + d) && Covers(record.timeToBlockExpire, d)
                else after.blocks == Compact(st, c.compactedAt, max).blocks && record.timeToBlockExpire == 0)
  {
    CompactedBlock(st, c, max);
  }

  /** A call counts one more than the window it falls into, which lasts its ttl from the first call, or a second. */
  lemma WindowExactly(st: Local, c: Call, max: nat)
    requires st.Valid() && WellTimed(c) && WindowKept(st, c.compactedAt, max, c.hitKey)
    requires BlockKept(st, c.compactedAt, max, c.blockKey) && !UnderBlock(st, c)
    ensures var w, w' := st.hits.Get(c.hitKey), Increment(st, c, max).0.hits.Get(c.hitKey);
            && w'.Some?
            && (if w.Some? && w.value.windowEndsAt > c.now
                then w'.value == HitState(w.value.hits + 1, w.value.windowEndsAt)
                else w'.value.hits == 1
                     && (c.ttl > 0 ==> w'.value.windowEndsAt == c.now + c.ttl)
                     && (c.ttl <= 0 ==> w'.value.windowEndsAt == c.now + 1000))
  {
    CompactedBlock(st, c, max);
    DropExpiredSpec(st, c.compactedAt);
    assert Compact(st, c.compactedAt, max).hits.Get(c.hitKey) == DropExpired(st, c.compactedAt).hits.Get(c.hitKey);
  }

  /** A call under a block reports what its window has counted, or one more than the limit if it has none any more. */
  lemma UnderBlockExactly(st: Local, c: Call, max: nat)
    requires st.Valid() && WellTimed(c) && WindowKept(st, c.compactedAt, max, c.hitKey)
    requires BlockKept(st, c.compactedAt, max, c.blockKey) && UnderBlock(st, c)
    ensures var record := Increment(st, c, max).1;
            var live := c.hitKey in st.hits.at && st.hits.at[c.hitKey].windowEndsAt > c.compactedAt;
            && record.isBlocked && Covers(record.timeToBlockExpire, st.blocks.at[c.blockKey] - c.now)
            && record.totalHits == (if live then st.hits.at[c.hitKey].hits else c.limit + 1)
            && (live && st.hits.at[c.hitKey].windowEndsAt > c.now
                ==> Covers(record.timeToExpire, st.hits.at[c.hitKey].windowEndsAt - c.now))
            && (!live ==> record.timeToExpire == record.timeToBlockExpire)
  {
    CompactedBlock(st, c, max);
    DropExpiredSpec(st, c.compactedAt);
    var compacted := Compact(st, c.compactedAt, max);
    assert compacted.hits.Get(c.hitKey) == DropExpired(st, c.compactedAt).hits.Get(c.hitKey);
    assert compacted.blocks.Get(c.blockKey) == DropExpired(st, c.compactedAt).blocks.Get(c.blockKey);
  }

  /** Between the calls, the size cap does not touch this block. */
  ghost predicate BlockNeverEvicted(states: seq<Local>, calls: seq<Call>, max: nat, blockKey: string)
    requires IsHistory(states, calls, max)
  {
    forall i :: 0 <= i < |calls| ==> BlockKept(states[i], calls[i].compactedAt, max, blockKey)
  }

  /** What one call does to a block that it does not write. */
  lemma OtherBlockStep(st: Local, c: Call, max: nat, blockKey: string, end: nat)
    requires st.Valid() && WellTimed(c) && BlockKept(st, c.compactedAt, max, blockKey)
    requires st.blocks.Get(blockKey) == Some(end) && c.now < end
    ensures Increment(st, c, max).0.blocks.Get(blockKey) == Some(end)
  {
    DropExpiredSpec(st, c.compactedAt);
    assert Compact(st, c.compactedAt, max).blocks.Get(blockKey) == DropExpired(st, c.compactedAt).blocks.Get(blockKey);
    if c.blockKey == blockKey {
      CompactedBlock(st, c, max);
    }
  }

  lemma BlockNext(states: seq<Local>, calls: seq<Call>, max: nat, k: nat, j: nat, blockKey: string, end: nat)
    requires IsHistory(states, calls, max) && BlockNeverEvicted(states, calls, max, blockKey)
    requires j == k + 1 && k < |calls| && calls[k].now < end && states[k].blocks.Get(blockKey) == Some(end)
    ensures states[j].blocks.Get(blockKey) == Some(end)
  {
    OtherBlockStep(states[k], calls[k], max, blockKey, end);
    assert states[j] == Increment(states[k], calls[k], max).0;
  }

  lemma {:induction false} BlockStays(states: seq<Local>, calls: seq<Call>, max: nat, i: nat, j: nat, blockKey: string,
                                      end: nat)
    requires IsHistory(states, calls, max) && BlockNeverEvicted(states, calls, max, blockKey)
    requires i <= j < |calls| && calls[j].now < end && states[i].blocks.Get(blockKey) == Some(end)
    ensures states[j].blocks.Get(blockKey) == Some(end)
    decreases j
  {
    if i < j {
      var k := j - 1;
      assert calls[k].now <= calls[j].compactedAt <= calls[j].now;
      BlockStays(states, calls, max, i, k, blockKey, end);
      BlockNext(states, calls, max, k, j, blockKey, end);
    }
  }

  /** Over any history: from the call that exceeds the limit, every call of the client before the block time is over is
      refused, and is told the seconds that are left. */
  lemma BlockedUntil(states: seq<Local>, calls: seq<Call>, max: nat, i: nat, j: nat, d: int)
    requires IsHistory(states, calls, max) && i < j < |calls|
    requires BlockNeverEvicted(states, calls, max, calls[i].blockKey)
    requires calls[j].blockKey == calls[i].blockKey && IsBlockTime(calls[i], d)
    requires !UnderBlock(states[i], calls[i]) && Increment(states[i], calls[i], max).1.isBlocked
    requires calls[j].now < calls[i].now + d
    ensures var record := Increment(states[j], calls[j], max).1;
            record.isBlocked && Covers(record.timeToBlockExpire, calls[i].now + d - calls[j].now)
  {
    var end := calls[i].now + d;
    RefusedExactly(states[i], calls[i], max, d);
    assert states[i + 1].blocks.Get(calls[i].blockKey) == Some(end);
    BlockStays(states, calls, max, i + 1, j, calls[i].blockKey, end);
    assert BlockKept(states[j], calls[j].compactedAt, max, calls[j].blockKey);
    BlockHolds(states[j], calls[j], max);
  }

  /** What of `hits` calls is let through. */
  function Within(hits: nat, limit: int): nat { if hits <= limit then hits else Positive(limit) }

  ghost predicate ToldBy(states: seq<Local>, calls: seq<Call>, max: nat, hitKey: string, limit: int, n: nat)
    requires IsHistory(states, calls, max) && n <= |calls|
  {
    hitKey in states[n].hits.at ==>
      var w := states[n].hits.at[hitKey];
      w.hits > 0 && Passed(states, calls, max, hitKey, w.windowEndsAt, n) == Within(w.hits, limit)
  }

  lemma ToldNext(states: seq<Local>, calls: seq<Call>, max: nat, hitKey: string, limit: int, j: nat, n: nat)
    requires IsHistory(states, calls, max) && j < |calls| && n == j + 1
    requires NeverEvicted(states, calls, max, hitKey) && SameLimit(calls, hitKey, limit)
    requires ToldBy(states, calls, max, hitKey, limit, j)
    ensures ToldBy(states, calls, max, hitKey, limit, n)
  {
    if hitKey in states[n].hits.at {
      var e := states[n].hits.at[hitKey].windowEndsAt;
      assert states[n] == Increment(states[j], calls[j], max).0;
      PassedStep(states[j], calls[j], max, hitKey);
      PassedNext(states, calls, max, hitKey, e, j);
      if !(hitKey in states[j].hits.at && states[j].hits.at[hitKey].windowEndsAt == e) {
        WindowCounted(states, calls, max, hitKey, limit, e, j);
      }
    }
  }

  lemma {:induction false} ToldRun(
      states: seq<Local>, calls: seq<Call>, max: nat, hitKey: string, limit: int, n: nat)
    requires IsHistory(states, calls, max) && n <= |calls|
    requires NeverEvicted(states, calls, max, hitKey) && SameLimit(calls, hitKey, limit)
    ensures ToldBy(states, calls, max, hitKey, limit, n)
  {
    if n > 0 {
      var j := n - 1;
      ToldRun(states, calls, max, hitKey, limit, j);
      ToldNext(states, calls, max, hitKey, limit, j, n);
    }
  }

  /** How many calls the present window of a key has let through: all that it counts, up to the limit. */
  lemma PassedExactly(states: seq<Local>, calls: seq<Call>, max: nat, hitKey: string, limit: int, n: nat)
    requires IsHistory(states, calls, max) && n <= |calls|
    requires NeverEvicted(states, calls, max, hitKey) && SameLimit(calls, hitKey, limit)
    requires hitKey in states[n].hits.at
    ensures var w := states[n].hits.at[hitKey];
            w.hits > 0 && Passed(states, calls, max, hitKey, w.windowEndsAt, n) == Within(w.hits, limit)
  {
    ToldRun(states, calls, max, hitKey, limit, n);
  }

  /** A call either leaves the window of a key alone or counts one more in it, and lets through what counts within the
      limit. */
  lemma PassedStep(st: Local, c: Call, max: nat, hitKey: string)
    requires st.Valid() && WellTimed(c) && WindowKept(st, c.compactedAt, max, hitKey)
    requires hitKey in Increment(st, c, max).0.hits.at
    ensures var (after, record) := Increment(st, c, max);
            var w, w' := st.hits.Get(hitKey), after.hits.at[hitKey];
            || (w == Some(w') && !(c.hitKey == hitKey && !record.isBlocked))
            || (&& c.hitKey == hitKey && (record.isBlocked <==> w'.hits > c.limit)
                && (if w.Some? && w.value.windowEndsAt > c.now
                    then w' == HitState(w.value.hits + 1, w.value.windowEndsAt)
                    else w'.hits == 1 && w'.windowEndsAt > c.now))
  {
    DropExpiredSpec(st, c.compactedAt);
    assert Compact(st, c.compactedAt, max).hits.Get(hitKey) == DropExpired(st, c.compactedAt).hits.Get(hitKey);
  }

  /** Over any history: a call that is not under a block is let through exactly when the window it falls into has not
      yet let the limit through. */
  lemma LetThroughExactly(states: seq<Local>, calls: seq<Call>, max: nat, limit: int, n: nat)
    requires IsHistory(states, calls, max) && n < |calls|
    requires NeverEvicted(states, calls, max, calls[n].hitKey) && SameLimit(calls, calls[n].hitKey, limit)
    requires BlockKept(states[n], calls[n].compactedAt, max, calls[n].blockKey) && !UnderBlock(states[n], calls[n])
    ensures var w := states[n].hits.Get(calls[n].hitKey);
            var passed := if w.Some? && w.value.windowEndsAt > calls[n].now
                          then Passed(states, calls, max, calls[n].hitKey, w.value.windowEndsAt, n) else 0;
            !Increment(states[n], calls[n], max).1.isBlocked <==> passed < limit
  {
    var c, w := calls[n], states[n].hits.Get(calls[n].hitKey);
    var d := ResolveBlockDuration(c.blockDuration, c.ttl);
    assert WindowKept(states[n], c.compactedAt, max, c.hitKey);
    WindowExactly(states[n], c, max);
    RefusedExactly(states[n], c, max, d);
    if w.Some? {
      PassedExactly(states, calls, max, c.hitKey, limit, n);
    }
  }

  // ---- The stateful service ----

  const PAYMENT_THROTTLERS := {"paymentsAnonymous", "paymentsWebhook"}

  datatype Unavailable = PaymentServiceUnavailable

  /** The two local maps and the operations that update them in place. */
  class RedisThrottlerStorage {
    var localHits: OrderedMap<HitState>
    var localBlocks: OrderedMap<nat>
    const fallbackMaxKeys: nat

    ghost predicate Valid()
      reads this
    {
      State().Valid()
    }

    ghost function State(): Local
      reads this
    {
      Local(localHits, localBlocks)
    }

    constructor (fallbackMaxKeys: nat)
      ensures Valid() && State() == Empty && this.fallbackMaxKeys == fallbackMaxKeys
    {
      localHits := OrderedMap([], map[]);
      localBlocks := OrderedMap([], map[]);
      this.fallbackMaxKeys := fallbackMaxKeys;
    }

    method DropStaleBlocks(now: nat)
      requires Valid()
      modifies this`localBlocks
      ensures localBlocks == DropStale(old(localBlocks), old(localBlocks.order), StaleBlock(now))
      ensures localBlocks.Valid()
    {
      var keys := localBlocks.order;
      ghost var result := DropStale(localBlocks, keys, StaleBlock(now));
      var i := 0;
      while i < |keys|
        invariant 0 <= i <= |keys| && localBlocks.Valid()
        invariant DropStale(localBlocks, keys[i..], StaleBlock(now)) == result
      {
        DropStaleStep(localBlocks, keys, i, StaleBlock(now));
        if keys[i] in localBlocks.at && localBlocks.at[keys[i]] <= now {
          DeleteValid(localBlocks, keys[i]);
          localBlocks := localBlocks.Delete(keys[i]);
        }
        i := i + 1;
      }
    }

    method DropStaleHits(now: nat)
      requires Valid()
      modifies this`localHits
      ensures localHits == DropStale(old(localHits), old(localHits.order), StaleWindow(now))
      ensures localHits.Valid()
    {
      var keys := localHits.order;
      ghost var result := DropStale(localHits, keys, StaleWindow(now));
      var i := 0;
      while i < |keys|
        invariant 0 <= i <= |keys| && localHits.Valid()
        invariant DropStale(localHits, keys[i..], StaleWindow(now)) == result
      {
        DropStaleStep(localHits, keys, i, StaleWindow(now));
        if keys[i] in localHits.at && localHits.at[keys[i]].windowEndsAt <= now {
          DeleteValid(localHits, keys[i]);
          localHits := localHits.Delete(keys[i]);
        }
        i := i + 1;
      }
    }

    method CompactInMemoryState(now: nat)
      requires Valid()
      modifies this
      ensures Valid() && State() == Compact(old(State()), now, fallbackMaxKeys)
    {
      CompactValid(State(), now, fallbackMaxKeys);
      DropExpiredSpec(State(), now);
      DropStaleBlocks(now);
      DropStaleHits(now);
      ghost var live := State();
      while |localHits.order| > fallbackMaxKeys
        invariant localHits.Valid() && localBlocks == live.blocks
        invariant EvictOldest(localHits, fallbackMaxKeys) == EvictOldest(live.hits, fallbackMaxKeys)
        decreases |localHits.order|
      {
        var oldestKey := localHits.order[0];
        if oldestKey == "" { break; }
        DeleteValid(localHits, oldestKey);
        localHits := localHits.Delete(oldestKey);
      }
      while |localBlocks.order| > fallbackMaxKeys
        invariant localBlocks.Valid() && localHits == EvictOldest(live.hits, fallbackMaxKeys)
        invariant EvictOldest(localBlocks, fallbackMaxKeys) == EvictOldest(live.blocks, fallbackMaxKeys)
        decreases |localBlocks.order|
      {
        var oldestKey := localBlocks.order[0];
        if oldestKey == "" { break; }
        DeleteValid(localBlocks, oldestKey);
        localBlocks := localBlocks.Delete(oldestKey);
      }
    }

    method IncrementInMemory(c: Call) returns (record: Record)
      requires Valid() && WellTimed(c)
      modifies this
      ensures Valid()
      ensures (State(), record) == Increment(old(State()), c, fallbackMaxKeys)
    {
      CompactInMemoryState(c.compactedAt);
      CountCallValid(State(), c);
      record := Count(c);
    }

    /** What is done when Redis is down: payment routes are refused outright, and any other call is counted here. */
    method RedisUnavailableFallback(throttler: string, c: Call) returns (r: Result<Record, Unavailable>)
      requires Valid() && WellTimed(c)
      modifies this
      ensures Valid()
      ensures r.Failure? <==> throttler == "paymentsAnonymous" || throttler == "paymentsWebhook"
      ensures r.Failure? ==> State() == old(State())
      ensures r.Success? ==> (State(), r.value) == Increment(old(State()), c, fallbackMaxKeys)
    {
      if throttler in PAYMENT_THROTTLERS {
        return Failure(PaymentServiceUnavailable);
      }
      var record := IncrementInMemory(c);
      return Success(record);
    }

    /** The part of incrementInMemory after the compaction. */
    method Count(c: Call) returns (record: Record)
      modifies this
      ensures (State(), record) == CountCall(old(State()), c)
    {
      var blockedUntil := if c.blockKey in localBlocks.at then localBlocks.at[c.blockKey] else 0;
      if blockedUntil > c.now {
        var state := localHits.Get(c.hitKey);
        return Record(if state.Some? then state.value.hits else c.limit + 1,
                      ToSeconds((if state.Some? then state.value.windowEndsAt else blockedUntil) - c.now),
                      true,
                      ToSeconds(blockedUntil - c.now));
      }
      var windowMs := if c.ttl > 0 then c.ttl else 1000;
      var existing := localHits.Get(c.hitKey);
      var hits, windowEndsAt := 1, c.now + windowMs;
      if existing.Some? && existing.value.windowEndsAt > c.now {
        hits, windowEndsAt := existing.value.hits + 1, existing.value.windowEndsAt;
      }
      localHits := localHits.Set(c.hitKey, HitState(hits, windowEndsAt));
      if hits > c.limit {
        var blockMs := ResolveBlockDuration(c.blockDuration, c.ttl);
        localBlocks := localBlocks.Set(c.blockKey, c.now + blockMs);
        return Record(hits, ToSeconds(windowEndsAt - c.now), true, ToSeconds(blockMs));
      }
      return Record(hits, ToSeconds(windowEndsAt - c.now), false, 0);
    }
  }
}

/** Called one at a time, the fallback and the Redis path are the same limiter. */
module ThrottlerRefinement {
  import opened Wrappers
  import opened OrderedMaps
  import opened RedisCounter
  import opened ThrottlerCommon
  import R = RedisThrottler
  import opened ThrottlerFallback

  /** The Redis keys of all throttlers and clients. */
  datatype Db = Db(hits: map<string, Counter>, blocks: map<string, nat>)

  const EmptyDb := Db(map[], map[])

  function HitOf(db: Db, k: string): Option<Counter> { if k in db.hits then Some(db.hits[k]) else None }

  function BlockOf(db: Db, k: string): Option<nat> { if k in db.blocks then Some(db.blocks[k]) else None }

  function PutHit(db: Db, k: string, c: Option<Counter>): Db {
    db.(hits := if c.Some? then db.hits[k := c.value] else db.hits - {k})
  }

  function PutBlock(db: Db, k: string, b: Option<nat>): Db {
    db.(blocks := if b.Some? then db.blocks[k := b.value] else db.blocks - {k})
  }

  function Rank(p: R.Phase): nat {
    match p
    case ReadBlock => 8
    case BlockedGet(_) => 2
    case BlockedTtl(_, _) => 1
    case Increment => 6
    case Expire => 5
    case ReadTtl => 4
    case Repair => 3
    case Block(_) => 1
    case Done(_) => 0
  }

  /** One call sends its commands with nothing in between. */
  function RunAlone(cfg: R.Config, s: R.State, id: R.CallId): (r: R.State)
    requires id in s.calls && s.calls[id].alive
    ensures id in r.calls && r.calls[id].phase.Done? && r.now == s.now
    decreases Rank(s.calls[id].phase)
  {
    if s.calls[id].phase.Done? then s else RunAlone(cfg, R.CallStep(cfg, s, id), id)
  }

  /** incrementInRedis when no other call is in flight. */
  function CallRedis(db: Db, c: Call): (Db, Record) {
    var start := R.State(c.now, HitOf(db, c.hitKey), BlockOf(db, c.blockKey),
                         map[0 := R.Call(R.ReadBlock, R.NoTicket, true)], 0, 0);
    var end := RunAlone(R.Config(c.ttl, c.limit, c.blockDuration), start, 0);
    (PutBlock(PutHit(db, c.hitKey, end.hits), c.blockKey, end.block), end.calls[0].phase.record)
  }

  /** A live window: its hits and its end, if it has one. */
  function LocalWindow(st: Local, k: string, now: nat): Option<(nat, Option<nat>)> {
    if k in st.hits.at && st.hits.at[k].windowEndsAt > now then Some((st.hits.at[k].hits, Some(st.hits.at[k].windowEndsAt)))
    else None
  }

  function CounterWindow(c: Option<Counter>, now: nat): Option<(nat, Option<nat>)> {
    if Live(c, now) then Some((c.value.value, c.value.expiresAt)) else None
  }

  function LocalBlock(st: Local, k: string, now: nat): Option<nat> {
    if k in st.blocks.at && st.blocks.at[k] > now then Some(st.blocks.at[k]) else None
  }

  function LiveBlock(b: Option<nat>, now: nat): Option<nat> {
    if b.Some? && b.value > now then b else None
  }

  ghost predicate AgreeAt(st: Local, db: Db, k: string, now: nat) {
    && LocalWindow(st, k, now) == CounterWindow(HitOf(db, k), now)
    && (LocalWindow(st, k, now).Some? ==> LocalWindow(st, k, now).value.0 > 0)
    && LocalBlock(st, k, now) == LiveBlock(BlockOf(db, k), now)
  }

  /** Seen at this time, both hold the same live windows, with positive counts, and the same live blocks. */
  ghost predicate Agree(st: Local, db: Db, now: nat) {
    forall k :: AgreeAt(st, db, k, now)
  }

  lemma AgreeLater(st: Local, db: Db, now: nat, later: nat)
    requires Agree(st, db, now) && now <= later
    ensures Agree(st, db, later)
  {
    forall k ensures AgreeAt(st, db, k, later) {
      assert AgreeAt(st, db, k, now);
    }
  }

  /** The Redis path under a live block: nothing is written. */
  lemma RedisBlocked(cfg: R.Config, s: R.State, id: R.CallId)
    requires id in s.calls && s.calls[id] == R.Call(R.ReadBlock, R.NoTicket, true)
    requires LiveBlock(s.block, s.now).Some?
    ensures var r := RunAlone(cfg, s, id);
            var hits := if CounterWindow(s.hits, s.now).Some? && CounterWindow(s.hits, s.now).value.0 != 0
                        then s.hits.value.value else cfg.limit + 1;
            && r.hits == s.hits && r.block == s.block
            && r.calls[id].phase.record ==
               Record(hits, ToSeconds(Pttl(s.hits, s.now)), true, ToSeconds(s.block.value - s.now))
  {
    var s1 := R.CallStep(cfg, s, id);
    var s2 := R.CallStep(cfg, s1, id);
    var s3 := R.CallStep(cfg, s2, id);
    assert RunAlone(cfg, s, id) == RunAlone(cfg, s1, id) == RunAlone(cfg, s2, id) == RunAlone(cfg, s3, id);
  }

  /** The Redis path without a live block: the call is counted, in a new window if none is live. */
  lemma RedisCounted(cfg: R.Config, s: R.State, id: R.CallId)
    requires id in s.calls && s.calls[id] == R.Call(R.ReadBlock, R.NoTicket, true)
    requires LiveBlock(s.block, s.now).None? && cfg.ttl > 0
    requires Live(s.hits, s.now) ==> s.hits.value.expiresAt.Some? && s.hits.value.value > 0
    ensures var r := RunAlone(cfg, s, id);
            var counted := if Live(s.hits, s.now) then s.hits.value.(value := s.hits.value.value + 1)
                           else Counter(1, Some(s.now + cfg.ttl));
            && r.hits == Some(counted)
            && r.calls[id].phase.record ==
               (var window := ToSeconds(counted.expiresAt.value - s.now);
                if counted.value > cfg.limit
                then Record(counted.value, window, true, ToSeconds(ResolveBlockDuration(cfg.blockDuration, cfg.ttl)))
                else Record(counted.value, window, false, 0))
            && r.block == if counted.value > cfg.limit
                          then Some(s.now + ResolveBlockDuration(cfg.blockDuration, cfg.ttl)) else s.block
  {
    var s1 := R.CallStep(cfg, s, id);
    var s2 := R.CallStep(cfg, s1, id);
    assert RunAlone(cfg, s, id) == RunAlone(cfg, s1, id) == RunAlone(cfg, s2, id);
    AfterIncrement(cfg, s2, id);
  }

  /** The commands after INCR. */
  lemma AfterIncrement(cfg: R.Config, s: R.State, id: R.CallId)
    requires id in s.calls && s.calls[id].alive && s.calls[id].ticket.Ticket? && cfg.ttl > 0
    requires Live(s.hits, s.now) && s.calls[id].ticket.hits == s.hits.value.value
    requires s.calls[id].phase == if s.hits.value.value == 1 then R.Expire else R.ReadTtl
    requires s.hits.value.expiresAt.Some? <==> s.calls[id].phase.ReadTtl?
    ensures var r := RunAlone(cfg, s, id);
            var counted := s.hits.value.(expiresAt := Some(if s.calls[id].phase.Expire? then s.now + cfg.ttl
                                                           else s.hits.value.expiresAt.value));
            var window := ToSeconds(counted.expiresAt.value - s.now);
            && r.hits == Some(counted)
            && (if counted.value > cfg.limit then
                  && r.block == Some(s.now + ResolveBlockDuration(cfg.blockDuration, cfg.ttl))
                  && r.calls[id].phase.record ==
                     Record(counted.value, window, true, ToSeconds(ResolveBlockDuration(cfg.blockDuration, cfg.ttl)))
                else
                  && r.block == s.block
                  && r.calls[id].phase.record == Record(counted.value, window, false, 0))
    decreases Rank(s.calls[id].phase)
  {
    var s1 := R.CallStep(cfg, s, id);
    assert RunAlone(cfg, s, id) == RunAlone(cfg, s1, id);
    if s.calls[id].phase.Expire? {
      var s2 := R.CallStep(cfg, s1, id);
      assert RunAlone(cfg, s1, id) == RunAlone(cfg, s2, id);
      if s2.calls[id].phase.Block? { assert RunAlone(cfg, s2, id) == R.CallStep(cfg, s2, id); }
    } else if s1.calls[id].phase.Block? {
      assert RunAlone(cfg, s1, id) == R.CallStep(cfg, s1, id);
    }
  }

  /** The two records of one call. */
  ghost predicate SameRecord(st: Local, c: Call, redis: Record, memory: Record) {
    && redis.totalHits == memory.totalHits
    && redis.isBlocked == memory.isBlocked
    && redis.timeToBlockExpire == memory.timeToBlockExpire
    && (redis.timeToExpire == memory.timeToExpire
        || (LocalBlock(st, c.blockKey, c.now).Some? && LocalWindow(st, c.hitKey, c.now).None?))
  }

  /** The size cap has nothing to evict, and the call reads the clock once. */
  ghost predicate Plain(st: Local, c: Call, max: nat)
    requires st.Valid()
  {
    c.compactedAt == c.now && c.ttl > 0 && Compact(st, c.now, max) == DropExpired(st, c.now)
  }

  lemma DroppedWindows(st: Local, now: nat, k: string)
    requires st.Valid()
    ensures var d := DropExpired(st, now);
            && LocalWindow(d, k, now) == LocalWindow(st, k, now)
            && (k in d.hits.at <==> LocalWindow(st, k, now).Some?)
            && (k in d.hits.at ==> LocalWindow(st, k, now) == Some((d.hits.at[k].hits, Some(d.hits.at[k].windowEndsAt))))
            && LocalBlock(d, k, now) == LocalBlock(st, k, now)
            && (k in d.blocks.at <==> LocalBlock(st, k, now).Some?)
            && (k in d.blocks.at ==> LocalBlock(st, k, now) == Some(d.blocks.at[k]))
  {
    DropExpiredSpec(st, now);
    var d := DropExpired(st, now);
    assert d.hits.Get(k) == if k in st.hits.at && st.hits.at[k].windowEndsAt <= now then None else st.hits.Get(k);
    assert d.blocks.Get(k) == if k in st.blocks.at && st.blocks.at[k] <= now then None else st.blocks.Get(k);
  }

  ghost predicate Blocked(st: Local, c: Call) { LocalBlock(st, c.blockKey, c.now).Some? }

  /** Both paths under a live block. */
  lemma BlockedStep(st: Local, db: Db, c: Call, max: nat)
    requires st.Valid() && WellTimed(c) && Plain(st, c, max) && Agree(st, db, c.now) && Blocked(st, c)
    ensures var (after, memory), (db', redis) := Increment(st, c, max), CallRedis(db, c);
            && SameRecord(st, c, redis, memory)
            && after == DropExpired(st, c.now)
            && db' == db
  {
    DroppedWindows(st, c.now, c.hitKey);
    DroppedWindows(st, c.now, c.blockKey);
    assert AgreeAt(st, db, c.hitKey, c.now) && AgreeAt(st, db, c.blockKey, c.now);
    var start := R.State(c.now, HitOf(db, c.hitKey), BlockOf(db, c.blockKey),
                         map[0 := R.Call(R.ReadBlock, R.NoTicket, true)], 0, 0);
    RedisBlocked(R.Config(c.ttl, c.limit, c.blockDuration), start, 0);
    assert PutHit(db, c.hitKey, HitOf(db, c.hitKey)) == db;
    assert PutBlock(db, c.blockKey, BlockOf(db, c.blockKey)) == db;
  }

  /** The window after a counted call. */
  function NextWindow(w: Option<(nat, Option<nat>)>, now: nat, ttl: nat): HitState {
    if w.Some? && w.value.1.Some? then HitState(w.value.0 + 1, w.value.1.value) else HitState(1, now + ttl)
  }

  function CountedRecord(w: HitState, c: Call): Record {
    var window := ToSeconds(w.windowEndsAt - c.now);
    if w.hits > c.limit then Record(w.hits, window, true, ToSeconds(ResolveBlockDuration(c.blockDuration, c.ttl)))
    else Record(w.hits, window, false, 0)
  }

  function BlockEnd(c: Call): nat { c.now + ResolveBlockDuration(c.blockDuration, c.ttl) }

  lemma MemoryCounted(st: Local, c: Call, max: nat)
    requires st.Valid() && WellTimed(c) && Plain(st, c, max) && !Blocked(st, c)
    ensures var (after, record) := Increment(st, c, max);
            var d := DropExpired(st, c.now);
            var w := NextWindow(LocalWindow(st, c.hitKey, c.now), c.now, c.ttl);
            && record == CountedRecord(w, c)
            && after.hits.at == d.hits.at[c.hitKey := w]
            && after.blocks.at == if w.hits > c.limit then d.blocks.at[c.blockKey := BlockEnd(c)] else d.blocks.at
  {
    DroppedWindows(st, c.now, c.hitKey);
    DroppedWindows(st, c.now, c.blockKey);
    assert Increment(st, c, max) == CountCall(DropExpired(st, c.now), c);
    LiveCounted(DropExpired(st, c.now), c);
  }

  /** The same where no entry is stale. */
  lemma LiveCounted(d: Local, c: Call)
    requires c.ttl > 0 && c.blockKey !in d.blocks.at
    requires c.hitKey in d.hits.at ==> d.hits.at[c.hitKey].windowEndsAt > c.now
    ensures var (after, record) := CountCall(d, c);
            var w := NextWindow(LocalWindow(d, c.hitKey, c.now), c.now, c.ttl);
            && record == CountedRecord(w, c)
            && after.hits.at == d.hits.at[c.hitKey := w]
            && after.blocks.at == if w.hits > c.limit then d.blocks.at[c.blockKey := BlockEnd(c)] else d.blocks.at
  {
  }

  lemma RedisCountedDb(db: Db, c: Call)
    requires c.ttl > 0 && LiveBlock(BlockOf(db, c.blockKey), c.now).None?
    requires var w := CounterWindow(HitOf(db, c.hitKey), c.now); w.Some? ==> w.value.0 > 0 && w.value.1.Some?
    ensures var (db', record) := CallRedis(db, c);
            var w := NextWindow(CounterWindow(HitOf(db, c.hitKey), c.now), c.now, c.ttl);
            && record == CountedRecord(w, c)
            && db'.hits == db.hits[c.hitKey := Counter(w.hits, Some(w.windowEndsAt))]
            && db'.blocks == if w.hits > c.limit then db.blocks[c.blockKey := BlockEnd(c)] else db.blocks
  {
    var start := R.State(c.now, HitOf(db, c.hitKey), BlockOf(db, c.blockKey),
                         map[0 := R.Call(R.ReadBlock, R.NoTicket, true)], 0, 0);
    RedisCounted(R.Config(c.ttl, c.limit, c.blockDuration), start, 0);
    assert PutBlock(db, c.blockKey, BlockOf(db, c.blockKey)) == db;
  }

  /** Both paths without a live block. */
  lemma CountedStep(st: Local, db: Db, c: Call, max: nat)
    requires st.Valid() && WellTimed(c) && Plain(st, c, max) && Agree(st, db, c.now) && !Blocked(st, c)
    ensures CallRedis(db, c).1 == Increment(st, c, max).1
    ensures forall k :: AgreeAt(Increment(st, c, max).0, CallRedis(db, c).0, k, c.now)
  {
    assert AgreeAt(st, db, c.hitKey, c.now) && AgreeAt(st, db, c.blockKey, c.now);
    MemoryCounted(st, c, max);
    RedisCountedDb(db, c);
    var after, db' := Increment(st, c, max).0, CallRedis(db, c).0;
    forall k ensures AgreeAt(after, db', k, c.now) {
      assert AgreeAt(st, db, k, c.now);
      DroppedWindows(st, c.now, k);
    }
  }

  /** One call keeps the two in agreement. */
  lemma RefinementStep(st: Local, db: Db, c: Call, max: nat)
    requires st.Valid() && WellTimed(c) && Plain(st, c, max) && Agree(st, db, c.now)
    ensures SameRecord(st, c, CallRedis(db, c).1, Increment(st, c, max).1)
    ensures Agree(Increment(st, c, max).0, CallRedis(db, c).0, c.now)
  {
    if Blocked(st, c) {
      BlockedStep(st, db, c, max);
      forall k ensures AgreeAt(DropExpired(st, c.now), db, k, c.now) {
        assert AgreeAt(st, db, k, c.now);
        DroppedWindows(st, c.now, k);
      }
    } else {
      CountedStep(st, db, c, max);
    }
  }

  /** dbs[i] is what Redis holds before call i. */
  ghost predicate IsRedisHistory(dbs: seq<Db>, calls: seq<Call>) {
    && |dbs| == |calls| + 1
    && dbs[0] == EmptyDb
    && (forall i :: 0 <= i < |calls| ==> dbs[i + 1] == CallRedis(dbs[i], calls[i]).0)
  }

  lemma {:induction false} AgreeAlways(states: seq<Local>, dbs: seq<Db>, calls: seq<Call>, max: nat, n: nat)
    requires IsHistory(states, calls, max) && IsRedisHistory(dbs, calls) && n <= |calls|
    requires forall i :: 0 <= i < |calls| ==> Plain(states[i], calls[i], max)
    ensures Agree(states[n], dbs[n], if n == 0 then 0 else calls[n - 1].now)
  {
    if n > 0 {
      AgreeAlways(states, dbs, calls, max, n - 1);
      AgreeLater(states[n - 1], dbs[n - 1], if n == 1 then 0 else calls[n - 2].now, calls[n - 1].now);
      RefinementStep(states[n - 1], dbs[n - 1], calls[n - 1], max);
    }
  }

  /** On any history of calls that run one at a time, with positive ttl and nothing evicted, both paths return the same
      record for every call; only timeToExpire may differ, for a call under a block whose hit window has run out. */
  lemma FallbackRefinesRedis(states: seq<Local>, dbs: seq<Db>, calls: seq<Call>, max: nat, n: nat)
    requires IsHistory(states, calls, max) && IsRedisHistory(dbs, calls) && n < |calls|
    requires forall i :: 0 <= i < |calls| ==> Plain(states[i], calls[i], max)
    ensures SameRecord(states[n], calls[n], CallRedis(dbs[n], calls[n]).1, Increment(states[n], calls[n], max).1)
  {
    AgreeAlways(states, dbs, calls, max, n);
    AgreeLater(states[n], dbs[n], if n == 0 then 0 else calls[n - 1].now, calls[n].now);
    RefinementStep(states[n], dbs[n], calls[n], max);
  }

  lemma DropExpiredSmaller(st: Local, now: nat)
    requires st.Valid()
    ensures |DropExpired(st, now).hits.order| <= |st.hits.order|
    ensures |DropExpired(st, now).blocks.order| <= |st.blocks.order|
  {
    DropStaleSpec(st.hits, st.hits.order, StaleWindow(now));
    DropStaleSpec(st.blocks, st.blocks.order, StaleBlock(now));
  }

  lemma NothingToEvict(st: Local, now: nat, max: nat)
    requires st.Valid() && |st.hits.order| <= max && |st.blocks.order| <= max
    ensures Compact(st, now, max) == DropExpired(st, now)
  {
    DropExpiredSpec(st, now);
    DropExpiredSmaller(st, now);
    EvictOldestSpec(DropExpired(st, now).hits, max);
    EvictOldestSpec(DropExpired(st, now).blocks, max);
  }

  lemma {:induction false} SizeAtMostCalls(states: seq<Local>, calls: seq<Call>, max: nat, n: nat)
    requires IsHistory(states, calls, max) && n <= |calls| <= max + 1
    ensures |states[n].hits.order| <= n && |states[n].blocks.order| <= n
  {
    if n > 0 {
      SizeAtMostCalls(states, calls, max, n - 1);
      var st, c := states[n - 1], calls[n - 1];
      assert states[n] == Increment(st, c, max).0;
      NothingToEvict(st, c.compactedAt, max);
      DropExpiredSpec(st, c.compactedAt);
      DropExpiredSmaller(st, c.compactedAt);
      CountCallValid(DropExpired(st, c.compactedAt), c);
    }
  }

  lemma RedisHistoryExists(calls: seq<Call>) returns (dbs: seq<Db>)
    ensures IsRedisHistory(dbs, calls)
  {
    dbs := [EmptyDb];
    for n := 0 to |calls|
      invariant |dbs| == n + 1 && dbs[0] == EmptyDb
      invariant forall i :: 0 <= i < n ==> dbs[i + 1] == CallRedis(dbs[i], calls[i]).0
    {
      dbs := dbs + [CallRedis(dbs[n], calls[n]).0];
    }
  }

  // ---- Blocks on the Redis path ----

  /** Whatever its ttl, a call that has its ticket is refused exactly when the ticket is past the limit; then it blocks
      the client from now for the block time. */
  lemma TicketDecides(cfg: R.Config, s: R.State, id: R.CallId, d: int)
    requires id in s.calls && s.calls[id].alive && s.calls[id].ticket.Ticket? && R.IsBlockTime(cfg, d)
    requires var p := s.calls[id].phase; p.Expire? || p.ReadTtl? || p.Repair? || p.Block?
    requires s.calls[id].phase.Block? ==> s.calls[id].ticket.hits > cfg.limit
    ensures var r, hits := RunAlone(cfg, s, id), s.calls[id].ticket.hits;
            var record := r.calls[id].phase.record;
            && record.totalHits == hits && (record.isBlocked <==> hits > cfg.limit)
            && (if record.isBlocked then r.block == Some(s.now + d) && Covers(record.timeToBlockExpire, d)
                else r.block == s.block && record.timeToBlockExpire == 0)
    decreases Rank(s.calls[id].phase)
  {
    var t := R.CallStep(cfg, s, id);
    assert RunAlone(cfg, s, id) == RunAlone(cfg, t, id);
    if !t.calls[id].phase.Done? {
      TicketDecides(cfg, t, id, d);
    }
  }

  function LiveHits(db: Db, c: Call): nat {
    if Live(HitOf(db, c.hitKey), c.now) then db.hits[c.hitKey].value else 0
  }

  ghost predicate RedisUnderBlock(db: Db, c: Call) { c.blockKey in db.blocks && c.now < db.blocks[c.blockKey] }

  lemma RedisRefusedExactly(db: Db, c: Call, d: int)
    requires !RedisUnderBlock(db, c) && IsBlockTime(c, d)
    ensures var (db', record) := CallRedis(db, c);
            && record.totalHits == LiveHits(db, c) + 1 && (record.isBlocked <==> record.totalHits > c.limit)
            && (if record.isBlocked
                then BlockOf(db', c.blockKey) == Some(c.now + d) && Covers(record.timeToBlockExpire, d)
                else db'.blocks == db.blocks && record.timeToBlockExpire == 0)
  {
    var cfg := R.Config(c.ttl, c.limit, c.blockDuration);
    var s0 := R.State(c.now, HitOf(db, c.hitKey), BlockOf(db, c.blockKey),
                      map[0 := R.Call(R.ReadBlock, R.NoTicket, true)], 0, 0);
    var s1 := R.CallStep(cfg, s0, 0);
    var s2 := R.CallStep(cfg, s1, 0);
    assert RunAlone(cfg, s0, 0) == RunAlone(cfg, s1, 0) == RunAlone(cfg, s2, 0);
    TicketDecides(cfg, s2, 0, d);
    assert PutBlock(db, c.blockKey, BlockOf(db, c.blockKey)) == db;
  }

  lemma RedisUnderBlockExactly(db: Db, c: Call)
    requires RedisUnderBlock(db, c)
    ensures var (db', record) := CallRedis(db, c);
            && db' == db && record.isBlocked && Covers(record.timeToBlockExpire, db.blocks[c.blockKey] - c.now)
            && record.totalHits == if LiveHits(db, c) != 0 then LiveHits(db, c) else c.limit + 1
  {
    var start := R.State(c.now, HitOf(db, c.hitKey), BlockOf(db, c.blockKey),
                         map[0 := R.Call(R.ReadBlock, R.NoTicket, true)], 0, 0);
    RedisBlocked(R.Config(c.ttl, c.limit, c.blockDuration), start, 0);
    assert PutHit(db, c.hitKey, HitOf(db, c.hitKey)) == db;
    assert PutBlock(db, c.blockKey, BlockOf(db, c.blockKey)) == db;
  }

  lemma {:induction false} RedisBlockStays(dbs: seq<Db>, calls: seq<Call>, i: nat, j: nat, blockKey: string, end: nat)
    requires IsRedisHistory(dbs, calls) && Ordered(calls)
    requires i <= j < |calls| && calls[j].now < end && BlockOf(dbs[i], blockKey) == Some(end)
    ensures BlockOf(dbs[j], blockKey) == Some(end)
    decreases j
  {
    if i < j {
      RedisBlockStays(dbs, calls, i, j - 1, blockKey, end);
      if calls[j - 1].blockKey == blockKey {
        RedisUnderBlockExactly(dbs[j - 1], calls[j - 1]);
      }
    }
  }

  /** Over any history on the Redis path: from the call that exceeds the limit, every call of the client before the
      block time is over is refused, and is told the seconds that are left. */
  lemma RedisBlockedUntil(dbs: seq<Db>, calls: seq<Call>, i: nat, j: nat, d: int)
    requires IsRedisHistory(dbs, calls) && Ordered(calls) && i < j < |calls|
    requires calls[j].blockKey == calls[i].blockKey && IsBlockTime(calls[i], d)
    requires !RedisUnderBlock(dbs[i], calls[i]) && CallRedis(dbs[i], calls[i]).1.isBlocked
    requires calls[j].now < calls[i].now + d
    ensures var record := CallRedis(dbs[j], calls[j]).1;
            record.isBlocked && Covers(record.timeToBlockExpire, calls[i].now + d - calls[j].now)
  {
    RedisRefusedExactly(dbs[i], calls[i], d);
    RedisBlockStays(dbs, calls, i + 1, j, calls[i].blockKey, calls[i].now + d);
    RedisUnderBlockExactly(dbs[j], calls[j]);
  }

  // ---- How many calls always agree ----

  /** Calls with positive ttl that read the clock once. */
  ghost predicate ArePlain(calls: seq<Call>) {
    Ordered(calls) && forall i :: 0 <= i < |calls| ==> calls[i].compactedAt == calls[i].now && calls[i].ttl > 0
  }

  /** Both paths return the same record for each of these calls. */
  ghost predicate SameRecords(states: seq<Local>, dbs: seq<Db>, calls: seq<Call>, max: nat)
    requires IsHistory(states, calls, max) && IsRedisHistory(dbs, calls)
  {
    forall n :: 0 <= n < |calls| ==>
      SameRecord(states[n], calls[n], CallRedis(dbs[n], calls[n]).1, Increment(states[n], calls[n], max).1)
  }

  /** So do all histories of this length. */
  ghost predicate AlwaysAgree(length: nat, max: nat) {
    forall states, dbs, calls ::
      |calls| == length && ArePlain(calls) && IsHistory(states, calls, max) && IsRedisHistory(dbs, calls)
      ==> SameRecords(states, dbs, calls, max)
  }

  lemma FewAgree(states: seq<Local>, dbs: seq<Db>, calls: seq<Call>, max: nat)
    requires ArePlain(calls) && |calls| <= max + 1 && IsHistory(states, calls, max) && IsRedisHistory(dbs, calls)
    ensures SameRecords(states, dbs, calls, max)
  {
    forall i | 0 <= i < |calls| ensures Plain(states[i], calls[i], max) {
      SizeAtMostCalls(states, calls, max, i);
      NothingToEvict(states[i], calls[i].now, max);
    }
    forall n | 0 <= n < |calls|
      ensures SameRecord(states[n], calls[n], CallRedis(dbs[n], calls[n]).1, Increment(states[n], calls[n], max).1)
    {
      FallbackRefinesRedis(states, dbs, calls, max, n);
    }
  }

  /** In particular, any calls with positive ttl, as long as there are no more than the cap and one, have their
      histories and get the same records from both paths. */
  lemma FewCallsAgree(calls: seq<Call>, max: nat) returns (states: seq<Local>, dbs: seq<Db>)
    requires Ordered(calls) && |calls| <= max + 1
    requires forall i :: 0 <= i < |calls| ==> calls[i].compactedAt == calls[i].now && calls[i].ttl > 0
    ensures IsHistory(states, calls, max) && IsRedisHistory(dbs, calls)
    ensures forall n :: 0 <= n < |calls| ==>
              SameRecord(states[n], calls[n], CallRedis(dbs[n], calls[n]).1, Increment(states[n], calls[n], max).1)
  {
    states := HistoryExists(calls, max);
    dbs := RedisHistoryExists(calls);
    FewAgree(states, dbs, calls, max);
  }

  /** Keys of different lengths. */
  function Key(i: nat): string { seq(i + 1, _ => 'k') }

  /** One second, one call a key. */
  function KeyCall(i: nat): Call { Call(Key(i), "b", 1000, 1, 0, 0, 0) }

  /** The first calls are on keys of their own, one more than the cap; all that follow are on the first key again. */
  function Around(max: nat, length: nat): (calls: seq<Call>)
    ensures |calls| == length
    ensures forall i: nat :: i < length ==> calls[i] == KeyCall(if i <= max then i else 0)
  {
    seq(length, i requires 0 <= i < length => KeyCall(if i <= max then i else 0))
  }

  lemma AroundPlain(max: nat, length: nat)
    ensures ArePlain(Around(max, length))
  {
    var calls := Around(max, length);
    forall i | 0 <= i < length ensures calls[i].hitKey != "" && calls[i].now == calls[i].compactedAt == 0 {
      assert |calls[i].hitKey| > 0;
    }
  }

  lemma KeysDiffer(i: nat, j: nat)
    requires i != j
    ensures Key(i) != Key(j)
  {
    assert |Key(i)| == i + 1 && |Key(j)| == j + 1;
  }

  /** Each of the first keys has its window, in order. */
  ghost predicate HoldsFirst(st: Local, n: nat) {
    && st.blocks == Empty.blocks && |st.hits.order| == n
    && (forall i: nat :: i < n ==> st.hits.order[i] == Key(i))
    && (forall k :: k in st.hits.order <==> k in st.hits.at)
    && (forall k :: k in st.hits.at ==> st.hits.at[k] == HitState(1, 1000))
  }

  lemma NothingStale(st: Local, keys: seq<string>)
    requires forall k :: k in st.hits.at ==> st.hits.at[k] == HitState(1, 1000)
    ensures DropStale(st.hits, keys, StaleWindow(0)) == st.hits
    decreases |keys|
  {
    if keys != [] {
      NothingStale(st, keys[1..]);
    }
  }

  lemma DropsNothing(st: Local, n: nat)
    requires HoldsFirst(st, n)
    ensures DropExpired(st, 0) == st
  {
    NothingStale(st, st.hits.order);
  }

  lemma KeyIsNew(st: Local, n: nat)
    requires HoldsFirst(st, n)
    ensures Key(n) !in st.hits.at
  {
    forall i: nat | i < n ensures st.hits.order[i] != Key(n) {
      KeysDiffer(i, n);
    }
  }

  lemma FirstCall(st: Local, max: nat, n: nat)
    requires st.Valid() && HoldsFirst(st, n) && n <= max
    ensures HoldsFirst(Increment(st, KeyCall(n), max).0, n + 1)
  {
    DropsNothing(st, n);
    NothingToEvict(st, 0, max);
    KeyIsNew(st, n);
  }

  lemma {:induction false} FirstCalls(states: seq<Local>, max: nat, length: nat, n: nat)
    requires IsHistory(states, Around(max, length), max) && n <= length && n <= max + 1
    ensures HoldsFirst(states[n], n)
  {
    if n > 0 {
      FirstCalls(states, max, length, n - 1);
      assert states[n] == Increment(states[n - 1], Around(max, length)[n - 1], max).0;
      FirstCall(states[n - 1], max, n - 1);
    }
  }

  /** Compaction then evicts the first key, and its second call is counted as the first. */
  lemma SecondCallPasses(st: Local, max: nat)
    requires st.Valid() && HoldsFirst(st, max + 1)
    ensures !Increment(st, KeyCall(0), max).1.isBlocked
  {
    DropsNothing(st, max + 1);
    DeleteValid(st.hits, Key(0));
    assert st.hits.order[0] == Key(0);
    EvictOldestSpec(st.hits.Delete(Key(0)), max);
    assert EvictOldest(st.hits, max) == EvictOldest(st.hits.Delete(Key(0)), max);
    assert Key(0) !in Compact(st, 0, max).hits.at;
  }

  /** Redis keeps the first key's count. */
  ghost predicate RedisHolds(db: Db, n: nat) {
    && db.blocks == map[]
    && (n > 0 ==> HitOf(db, Key(0)) == Some(Counter(1, Some(1000))))
    && forall i: nat :: i >= n ==> HitOf(db, Key(i)) == None
  }

  lemma RedisFirstCall(db: Db, n: nat)
    requires RedisHolds(db, n)
    ensures RedisHolds(CallRedis(db, KeyCall(n)).0, n + 1)
  {
    RedisCountedDb(db, KeyCall(n));
    forall i: nat | i != n ensures Key(i) != Key(n) {
      KeysDiffer(i, n);
    }
  }

  lemma {:induction false} RedisFirstCalls(dbs: seq<Db>, max: nat, length: nat, n: nat)
    requires IsRedisHistory(dbs, Around(max, length)) && n <= length && n <= max + 1
    ensures RedisHolds(dbs[n], n)
  {
    if n > 0 {
      RedisFirstCalls(dbs, max, length, n - 1);
      RedisFirstCall(dbs[n - 1], n - 1);
    }
  }

  lemma RedisBlocksSecond(db: Db, n: nat)
    requires RedisHolds(db, n) && n > 0
    ensures CallRedis(db, KeyCall(0)).1.isBlocked
  {
    RedisCountedDb(db, KeyCall(0));
  }

  /** One call more, and there is a history that tells the paths apart. */
  lemma ManyDiffer(length: nat, max: nat)
    requires length > max + 1
    ensures !AlwaysAgree(length, max)
  {
    var calls, n := Around(max, length), max + 1;
    AroundPlain(max, length);
    var states := HistoryExists(calls, max);
    var dbs := RedisHistoryExists(calls);
    FirstCalls(states, max, length, n);
    SecondCallPasses(states[n], max);
    RedisFirstCalls(dbs, max, length, n);
    RedisBlocksSecond(dbs[n], n);
    assert !SameRecord(states[n], calls[n], CallRedis(dbs[n], calls[n]).1, Increment(states[n], calls[n], max).1);
    assert !SameRecords(states, dbs, calls, max);
  }

  /** All histories of so many calls with positive ttl get the same records from both paths exactly when the calls are
      no more than the cap and one. */
  lemma AgreementIsSharp(length: nat, max: nat)
    ensures AlwaysAgree(length, max) <==> length <= max + 1
  {
    if length > max + 1 {
      ManyDiffer(length, max);
    } else {
      forall states, dbs, calls | && |calls| == length && ArePlain(calls)
                                  && IsHistory(states, calls, max) && IsRedisHistory(dbs, calls)
        ensures SameRecords(states, dbs, calls, max)
      {
        FewAgree(states, dbs, calls, max);
      }
    }
  }

  // ---- Why ttl must be positive ----

  /** PEXPIRE with 0 or less deletes the counter at once. */
  lemma NonPositiveTtlNeverBlocks(db: Db, c: Call)
    requires c.ttl <= 0 && c.limit >= 1 && c.hitKey !in db.hits && c.blockKey !in db.blocks
    ensures CallRedis(db, c) == (db, Record(1, 0, false, 0))
  {
    var cfg := R.Config(c.ttl, c.limit, c.blockDuration);
    var s0 := R.State(c.now, None, None, map[0 := R.Call(R.ReadBlock, R.NoTicket, true)], 0, 0);
    var s1 := R.CallStep(cfg, s0, 0);
    var s2 := R.CallStep(cfg, s1, 0);
    var s3 := R.CallStep(cfg, s2, 0);
    var s4 := R.CallStep(cfg, s3, 0);
    var s5 := R.CallStep(cfg, s4, 0);
    assert RunAlone(cfg, s0, 0) == RunAlone(cfg, s1, 0) == RunAlone(cfg, s2, 0) == RunAlone(cfg, s3, 0);
    assert RunAlone(cfg, s3, 0) == RunAlone(cfg, s4, 0) == RunAlone(cfg, s5, 0) == s5;
    assert db.hits - {c.hitKey} == db.hits && db.blocks - {c.blockKey} == db.blocks;
  }

  /** With a ttl of 0 or less the Redis path keeps nothing, counts no call past one and lets every call through, in any
      history. */
  lemma {:induction false} NonPositiveTtlHistory(dbs: seq<Db>, calls: seq<Call>, n: nat)
    requires IsRedisHistory(dbs, calls) && n <= |calls|
    requires forall i :: 0 <= i < |calls| ==> calls[i].ttl <= 0 && calls[i].limit >= 1
    ensures dbs[n] == EmptyDb
    ensures n < |calls| ==> CallRedis(dbs[n], calls[n]).1 == Record(1, 0, false, 0)
  {
    if n > 0 {
      NonPositiveTtlHistory(dbs, calls, n - 1);
      NonPositiveTtlNeverBlocks(dbs[n - 1], calls[n - 1]);
    }
    if n < |calls| {
      NonPositiveTtlNeverBlocks(EmptyDb, calls[n]);
    }
  }

  function Repeated(c: Call, times: nat): (calls: seq<Call>) {
    seq(times, _ => c)
  }

  ghost predicate HoldsOne(st: Local, c: Call, hits: nat) {
    && st.blocks == Empty.blocks
    && st.hits == if hits == 0 then Empty.hits
                  else OrderedMap([c.hitKey], map[c.hitKey := HitState(hits, c.now + 1000)])
  }

  /** The fallback gives such calls a window of one second. */
  lemma OneSecondWindow(st: Local, c: Call, max: nat, hits: nat)
    requires st.Valid() && WellTimed(c) && c.compactedAt == c.now && c.ttl <= 0 && max > 0 && HoldsOne(st, c, hits)
    ensures Increment(st, c, max).1.isBlocked <==> hits + 1 > c.limit
    ensures hits + 1 <= c.limit ==> HoldsOne(Increment(st, c, max).0, c, hits + 1)
  {
    NothingToEvict(st, c.now, max);
    if hits > 0 {
      DropStaleStep(st.hits, st.hits.order, 0, StaleWindow(c.now));
    }
    assert DropExpired(st, c.now) == st;
  }

  lemma {:induction false} RepeatedCalls(states: seq<Local>, c: Call, max: nat, times: nat, n: nat)
    requires IsHistory(states, Repeated(c, times), max) && n < times && n <= c.limit
    requires WellTimed(c) && c.compactedAt == c.now && c.ttl <= 0 && max > 0
    ensures HoldsOne(states[n], c, n)
  {
    if n > 0 {
      RepeatedCalls(states, c, max, times, n - 1);
      assert Repeated(c, times)[n - 1] == c;
      OneSecondWindow(states[n - 1], c, max, n - 1);
    }
  }

  lemma RepeatedCallPart(states: seq<Local>, dbs: seq<Db>, c: Call, max: nat, times: nat, n: nat)
    requires IsHistory(states, Repeated(c, times), max) && IsRedisHistory(dbs, Repeated(c, times))
    requires n < times && n <= c.limit && c.limit >= 1
    requires WellTimed(c) && c.compactedAt == c.now && c.ttl <= 0 && max > 0
    ensures !CallRedis(dbs[n], c).1.isBlocked
    ensures Increment(states[n], c, max).1.isBlocked <==> n == c.limit
  {
    assert Repeated(c, times)[n] == c;
    NonPositiveTtlHistory(dbs, Repeated(c, times), n);
    RepeatedCalls(states, c, max, times, n);
    OneSecondWindow(states[n], c, max, n);
  }

  /** Of these calls the Redis path lets all through, and the fallback all but the last. */
  ghost predicate PathsPart(states: seq<Local>, dbs: seq<Db>, c: Call, max: nat)
    requires c.limit >= 0 && IsHistory(states, Repeated(c, c.limit + 1), max)
    requires IsRedisHistory(dbs, Repeated(c, c.limit + 1))
  {
    forall n: nat :: n <= c.limit ==>
      && !CallRedis(dbs[n], c).1.isBlocked
      && (Increment(states[n], c, max).1.isBlocked <==> n == c.limit)
  }

  /** So the two paths part, whatever the limit: repeat a call once more than the limit, and the fallback refuses the
      last one, which the Redis path lets through like the others. */
  lemma NonPositiveTtlPathsPart(c: Call, max: nat, states: seq<Local>, dbs: seq<Db>)
    requires WellTimed(c) && c.compactedAt == c.now && c.ttl <= 0 && c.limit >= 1 && max > 0
    requires IsHistory(states, Repeated(c, c.limit + 1), max) && IsRedisHistory(dbs, Repeated(c, c.limit + 1))
    ensures PathsPart(states, dbs, c, max)
  {
    forall n: nat | n <= c.limit
      ensures !CallRedis(dbs[n], c).1.isBlocked
      ensures Increment(states[n], c, max).1.isBlocked <==> n == c.limit
    {
      RepeatedCallPart(states, dbs, c, max, c.limit + 1, n);
    }
  }
}
