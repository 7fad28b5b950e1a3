/** Redis as a map from keys to values, and the scan that deletes by pattern. Expiry is left to the modules that need
    it. */
module RedisScan {
  import opened CacheInvalidation
  import opened Wrappers

  type Value = nat

  // ---- The scan loop ----

  /** What other clients have written by the time the first `n` batches are done; later writes win. */
  function Written(writes: seq<map<string, Value>>, n: nat): map<string, Value>
    requires n <= |writes|
  {
    if n == 0 then map[] else Written(writes, n - 1) + writes[n - 1]
  }

  /** A scan visits the key space bucket by bucket. A key that is there all along is in one of them. */
  predicate Covers(buckets: seq<set<string>>, keys: set<string>) {
    forall k :: k in keys ==> exists i :: 0 <= i < |buckets| && k in buckets[i]
  }

  predicate InFirst(buckets: seq<set<string>>, n: nat, k: string)
    requires n <= |buckets|
  {
    exists i :: 0 <= i < n && k in buckets[i]
  }

  /** A matching key that is left after `n` buckets was written on the way, or is still to be visited. Other keys are
      untouched. */
  ghost predicate Swept(pattern: string, buckets: seq<set<string>>, writes: seq<map<string, Value>>, n: nat,
                        before: map<string, Value>, now: map<string, Value>)
    requires n <= |buckets| == |writes|
  {
    forall k {:trigger SweptKey(pattern, buckets, writes, n, before, now, k)} ::
      SweptKey(pattern, buckets, writes, n, before, now, k)
  }

  ghost predicate SweptKey(pattern: string, buckets: seq<set<string>>, writes: seq<map<string, Value>>, n: nat,
                           before: map<string, Value>, now: map<string, Value>, k: string)
    requires n <= |buckets| == |writes|
  {
    if Matches(pattern, k) then k in now ==> LeftOver(buckets, writes, n, before, now, k)
    else Holds(now, k) == Holds(before + Written(writes, n), k)
  }

  function Holds(m: map<string, Value>, k: string): Option<Value> { if k in m then Some(m[k]) else None }

  ghost predicate LeftOver(buckets: seq<set<string>>, writes: seq<map<string, Value>>, n: nat,
                           before: map<string, Value>, now: map<string, Value>, k: string)
    requires n <= |buckets| == |writes| && k in now
  {
    || (k in Written(writes, n) && now[k] == Written(writes, n)[k])
    || (k in before && k !in Written(writes, n) && now[k] == before[k] && !InFirst(buckets, n, k))
  }

  /** The matching keys of one bucket. */
  function Batch(now: map<string, Value>, bucket: set<string>, pattern: string): set<string> {
    set k | k in now && k in bucket && Matches(pattern, k)
  }

  lemma SweepNext(pattern: string, buckets: seq<set<string>>, writes: seq<map<string, Value>>, n: nat,
                  before: map<string, Value>, now: map<string, Value>, keys: set<string>, m: nat)
    requires n < |buckets| == |writes| && Swept(pattern, buckets, writes, n, before, now)
    requires keys == Batch(now, buckets[n], pattern) && m == n + 1
    ensures Swept(pattern, buckets, writes, m, before, (now - keys) + writes[n])
    ensures AllEmpty(writes) ==> |(now - keys) + writes[n]| == |now| - |keys|
  {
    var next := (now - keys) + writes[n];
    forall k ensures SweptKey(pattern, buckets, writes, m, before, next, k) {
      assert SweptKey(pattern, buckets, writes, n, before, now, k);
      SweepKeyNext(pattern, buckets, writes, n, before, now, keys, k);
    }
  }

  lemma SweepKeyNext(pattern: string, buckets: seq<set<string>>, writes: seq<map<string, Value>>, n: nat,
                     before: map<string, Value>, now: map<string, Value>, keys: set<string>, k: string)
    requires n < |buckets| == |writes| && SweptKey(pattern, buckets, writes, n, before, now, k)
    requires keys == Batch(now, buckets[n], pattern)
    ensures SweptKey(pattern, buckets, writes, n + 1, before, (now - keys) + writes[n], k)
  {
    assert Written(writes, n + 1) == Written(writes, n) + writes[n];
  }

  /** Nobody writes while the scan runs. */
  predicate AllEmpty(writes: seq<map<string, Value>>) {
    forall i :: 0 <= i < |writes| ==> writes[i] == map[]
  }

  /** What matches is there only if it was written meanwhile; everything else is as it was, or as it was written. */
  ghost predicate MatchesGone(pattern: string, written: map<string, Value>, before: map<string, Value>,
                              now: map<string, Value>) {
    forall k {:trigger GoneKey(pattern, written, before, now, k)} :: GoneKey(pattern, written, before, now, k)
  }

  ghost predicate GoneKey(pattern: string, written: map<string, Value>, before: map<string, Value>,
                          now: map<string, Value>, k: string) {
    if Matches(pattern, k) then Holds(now, k) == None || Holds(now, k) == Holds(written, k)
    else Holds(now, k) == Holds(before + written, k)
  }

  /** After all buckets, what matches is what was written on the way. */
  lemma SweptAll(pattern: string, buckets: seq<set<string>>, writes: seq<map<string, Value>>, n: nat,
                 before: map<string, Value>, now: map<string, Value>)
    requires n == |buckets| == |writes| && Swept(pattern, buckets, writes, n, before, now)
    requires Covers(buckets, before.Keys)
    ensures MatchesGone(pattern, Written(writes, |writes|), before, now)
  {
    forall k ensures GoneKey(pattern, Written(writes, |writes|), before, now, k) {
      assert SweptKey(pattern, buckets, writes, n, before, now, k);
    }
  }

  class RedisService {
    var db: map<string, Value>

    constructor ()
      ensures db == map[]
    {
      db := map[];
    }

    /** One batch of a scan. Cursor zero means the start, and again the end. */
    method Scan(cursor: nat, pattern: string, buckets: seq<set<string>>) returns (nextCursor: nat, keys: set<string>)
      requires cursor < |buckets|
      ensures keys == Batch(db, buckets[cursor], pattern)
      ensures nextCursor == if cursor + 1 < |buckets| then cursor + 1 else 0
    {
      keys := set k | k in db && k in buckets[cursor] && Matches(pattern, k);
      nextCursor := if cursor + 1 < |buckets| then cursor + 1 else 0;
    }

    /** Deletes what matches, batch by batch, while other clients write: `writes[i]` comes after batch `i`. Afterwards a
        matching key is there only if it was written on the way, and no other key has suffered. */
    method DelByPattern(pattern: string, buckets: seq<set<string>>, writes: seq<map<string, Value>>)
      returns (deleted: nat)
      requires |buckets| == |writes| > 0 && Covers(buckets, db.Keys)
      modifies this
      ensures MatchesGone(pattern, Written(writes, |writes|), old(db), db)
      ensures AllEmpty(writes) ==> deleted == |old(db)| - |db|
    {
      ghost var before := db;
      ghost var n := 0;
      var cursor := 0;
      deleted := 0;
      while true
        invariant 0 <= n < |buckets| && cursor == n
        invariant Swept(pattern, buckets, writes, n, before, db)
        invariant AllEmpty(writes) ==> deleted + |db| == |before|
        decreases |buckets| - n
      {
        var nextCursor, keys := Scan(cursor, pattern, buckets);
        ghost var m := n + 1;
        SweepNext(pattern, buckets, writes, n, before, db, keys, m);
        deleted := deleted + |keys|;
        db := (db - keys) + writes[cursor];
        n := m;
        cursor := nextCursor;
        if cursor == 0 {
          break;
        }
      }
      SweptAll(pattern, buckets, writes, n, before, db);
    }

    /** The same with nobody writing: exactly what matches is gone. */
    method DelAllMatching(pattern: string, buckets: seq<set<string>>) returns (deleted: nat)
      requires |buckets| > 0 && Covers(buckets, db.Keys)
      modifies this
      ensures Removed(pattern, old(db), db) && Covers(buckets, db.Keys)
      ensures deleted == |old(db)| - |db|
    {
      ghost var before := db;
      var writes: seq<map<string, Value>> := seq(|buckets|, _ => map[]);
      NothingWritten(writes, |writes|);
      deleted := DelByPattern(pattern, buckets, writes);
      GoneIsRemoved(pattern, before, db);
    }

    method Del(key: string)
      modifies this
      ensures db == old(db) - {key}
    {
      db := db - {key};
    }
  }

  /** Exactly the matching keys are gone, and the rest is as it was. */
  ghost predicate Removed(pattern: string, before: map<string, Value>, now: map<string, Value>) {
    forall k :: Holds(now, k) == if Matches(pattern, k) then None else Holds(before, k)
  }

  lemma GoneIsRemoved(pattern: string, before: map<string, Value>, now: map<string, Value>)
    requires MatchesGone(pattern, map[], before, now)
    ensures Removed(pattern, before, now) && now.Keys <= before.Keys
  {
    assert before + map[] == before;
    forall k ensures Holds(now, k) == if Matches(pattern, k) then None else Holds(before, k) {
      assert GoneKey(pattern, map[], before, now, k);
    }
    forall k | k in now ensures k in before {
      assert Holds(now, k) != None;
    }
  }

  lemma {:induction false} NothingWritten(writes: seq<map<string, Value>>, n: nat)
    requires n <= |writes| && AllEmpty(writes)
    ensures Written(writes, n) == map[]
  {
    if n > 0 {
      NothingWritten(writes, n - 1);
    }
  }
}
