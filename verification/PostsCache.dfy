/** What a change to posts drops from the posts cache, while other clients go on writing. */
module PostsCache {
  import opened CacheInvalidation
  import opened RedisScan
  import opened Wrappers

  /** What others write in the course of one command: a deletion, or a scan with its buckets. */
  type Round = seq<map<string, Value>>

  function WrittenIn(round: Round): map<string, Value> { Written(round, |round|) }

  /** What they have written by the end of the first `n` commands. */
  function Meanwhile(rounds: seq<Round>, n: nat): map<string, Value>
    requires n <= |rounds|
  {
    if n == 0 then map[] else Meanwhile(rounds, n - 1) + WrittenIn(rounds[n - 1])
  }

  predicate Fits(buckets: seq<set<string>>, round: Round) {
    |round| == |buckets| && forall i :: 0 <= i < |round| ==> Covers(buckets, round[i].Keys)
  }

  predicate AllFit(buckets: seq<set<string>>, rounds: seq<Round>) {
    forall j :: 0 <= j < |rounds| ==> Fits(buckets, rounds[j])
  }

  lemma {:induction false} WrittenCovered(buckets: seq<set<string>>, round: Round, n: nat)
    requires Fits(buckets, round) && n <= |round|
    ensures Covers(buckets, Written(round, n).Keys)
  {
    if n > 0 {
      WrittenCovered(buckets, round, n - 1);
      assert Covers(buckets, round[n - 1].Keys);
    }
  }

  lemma StillCovered(pattern: string, buckets: seq<set<string>>, round: Round, before: map<string, Value>,
                     now: map<string, Value>)
    requires Covers(buckets, before.Keys) && Fits(buckets, round) && MatchesGone(pattern, WrittenIn(round), before, now)
    ensures Covers(buckets, now.Keys)
  {
    WrittenCovered(buckets, round, |round|);
    forall k | k in now ensures k in before || k in WrittenIn(round) {
      assert GoneKey(pattern, WrittenIn(round), before, now, k);
      assert Holds(now, k) != None;
    }
  }

  // ---- What is left ----

  /** The posts whose exact key is deleted so far, those whose viewer-aware pattern is, and the scopes whose lists
      are. */
  predicate Dropped(k: string, exact: set<PostId>, viewerAware: set<PostId>, scopes: set<string>) {
    || (exists p :: p in exact && k == BuildKey("post", [Number(p)]))
    || (exists p :: p in viewerAware && Matches(ByIdPattern(p), k))
    || (exists scope :: scope in scopes && Matches(ListPattern(scope), k))
  }

  /** A key that should go is there only if it was written meanwhile; any other is as it was, or as it was written. */
  ghost predicate LeftKey(hit: bool, now: map<string, Value>, before: map<string, Value>, written: map<string, Value>,
                          k: string) {
    if hit then Holds(now, k) == None || Holds(now, k) == Holds(written, k)
    else Holds(now, k) == Holds(before + written, k)
  }

  /** After a change to these posts. */
  ghost predicate HitsGone(now: map<string, Value>, before: map<string, Value>, written: map<string, Value>,
                           posts: set<PostId>) {
    forall k :: LeftKey(HitByMutation(k, posts), now, before, written, k)
  }

  /** On the way there. */
  ghost predicate Left(now: map<string, Value>, before: map<string, Value>, written: map<string, Value>,
                       exact: set<PostId>, viewerAware: set<PostId>, scopes: set<string>) {
    forall k {:trigger LeftAt(now, before, written, exact, viewerAware, scopes, k)} ::
      LeftAt(now, before, written, exact, viewerAware, scopes, k)
  }

  ghost predicate LeftAt(now: map<string, Value>, before: map<string, Value>, written: map<string, Value>,
                         exact: set<PostId>, viewerAware: set<PostId>, scopes: set<string>, k: string) {
    LeftKey(Dropped(k, exact, viewerAware, scopes), now, before, written, k)
  }

  lemma ExactKeyDropped(now: map<string, Value>, before: map<string, Value>, written: map<string, Value>,
                        done: set<PostId>, p: PostId, more: map<string, Value>)
    requires Left(now, before, written, done, {}, {})
    ensures Left(now - {BuildKey("post", [Number(p)])} + more, before, written + more, done + {p}, {}, {})
  {
    var key := BuildKey("post", [Number(p)]);
    forall k ensures LeftAt(now - {key} + more, before, written + more, done + {p}, {}, {}, k) {
      assert p in done + {p};
      assert Dropped(k, done + {p}, {}, {}) <==> Dropped(k, done, {}, {}) || k == key;
      assert LeftAt(now, before, written, done, {}, {}, k);
    }
  }

  lemma ViewerAwareDropped(now: map<string, Value>, next: map<string, Value>, before: map<string, Value>,
                           written: map<string, Value>, exact: set<PostId>, done: set<PostId>, p: PostId,
                           more: map<string, Value>)
    requires Left(now, before, written, exact, done, {}) && MatchesGone(ByIdPattern(p), more, now, next)
    ensures Left(next, before, written + more, exact, done + {p}, {})
  {
    forall k ensures LeftAt(next, before, written + more, exact, done + {p}, {}, k) {
      assert p in done + {p};
      assert LeftAt(now, before, written, exact, done, {}, k);
      assert Dropped(k, exact, done + {p}, {}) <==> Dropped(k, exact, done, {}) || Matches(ByIdPattern(p), k);
      assert GoneKey(ByIdPattern(p), more, now, next, k);
    }
  }

  lemma ListsDropped(now: map<string, Value>, next: map<string, Value>, before: map<string, Value>,
                     written: map<string, Value>, posts: set<PostId>, done: set<string>, scope: string,
                     more: map<string, Value>)
    requires Left(now, before, written, posts, posts, done) && MatchesGone(ListPattern(scope), more, now, next)
    ensures Left(next, before, written + more, posts, posts, done + {scope})
  {
    forall k ensures LeftAt(next, before, written + more, posts, posts, done + {scope}, k) {
      assert scope in done + {scope};
      assert LeftAt(now, before, written, posts, posts, done, k);
      assert Dropped(k, posts, posts, done + {scope}) <==> Dropped(k, posts, posts, done) || Matches(ListPattern(scope), k);
      assert GoneKey(ListPattern(scope), more, now, next, k);
    }
  }

  // ---- The posts ----

  /** The first `n` of a list, as a set. */
  function Firsts(ids: seq<PostId>, n: nat): set<PostId>
    requires n <= |ids|
  {
    if n == 0 then {} else Firsts(ids, n - 1) + {ids[n - 1]}
  }

  /** Each id once, in the order of first occurrence. */
  function Unique(ids: seq<PostId>): seq<PostId> {
    if ids == [] then []
    else
      var last, rest := ids[|ids| - 1], ids[..|ids| - 1];
      if last in rest then Unique(rest) else Unique(rest) + [last]
  }

  lemma {:induction false} UniqueMembers(ids: seq<PostId>)
    ensures forall p :: p in Unique(ids) <==> p in ids
    decreases |ids|
  {
    if ids != [] {
      UniqueMembers(ids[..|ids| - 1]);
      assert ids == ids[..|ids| - 1] + [ids[|ids| - 1]];
    }
  }

  lemma {:induction false} FirstsMembers(ids: seq<PostId>, n: nat)
    requires n <= |ids|
    ensures Firsts(ids, n) == set p | p in ids[..n]
  {
    if n > 0 {
      FirstsMembers(ids, n - 1);
      assert ids[..n] == ids[..n - 1] + [ids[n - 1]];
    }
  }

  lemma UniqueFirsts(ids: seq<PostId>)
    ensures Firsts(Unique(ids), |Unique(ids)|) == set p | p in ids
  {
    UniqueMembers(ids);
    FirstsMembers(Unique(ids), |Unique(ids)|);
    assert Unique(ids)[..|Unique(ids)|] == Unique(ids);
  }

  // ---- The service ----

  class PostsCacheService {
    const redis: RedisService

    constructor (redis: RedisService)
      ensures this.redis == redis
    {
      this.redis := redis;
    }

    /** Deletes the exact keys, then the viewer-aware patterns, then the lists of every scope, while others write in the
        course of every command. Whatever the change hits is there afterwards only if it was written meanwhile, and
        nothing else has suffered. */
    method InvalidatePostMutationCache(postIds: seq<PostId>, buckets: seq<set<string>>, rounds: seq<Round>)
      requires |buckets| > 0 && Covers(buckets, redis.db.Keys)
      requires AllFit(buckets, rounds) && |rounds| == 2 * |Unique(postIds)| + 3
      modifies redis
      ensures HitsGone(redis.db, old(redis.db), Meanwhile(rounds, |rounds|), set p | p in postIds)
    {
      ghost var before := redis.db;
      var uniquePostIds := Unique(postIds);
      DropExactKeys(uniquePostIds, buckets, rounds);
      DropViewerAware(uniquePostIds, buckets, rounds, before);
      DropLists(uniquePostIds, buckets, rounds, before);
      UniqueFirsts(postIds);
      ghost var posts := set p | p in postIds;
      assert Firsts(uniquePostIds, |uniquePostIds|) == posts;
      forall k ensures LeftKey(HitByMutation(k, posts), redis.db, before, Meanwhile(rounds, |rounds|), k) {
        DroppedIsHit(k, posts);
        assert LeftAt(redis.db, before, Meanwhile(rounds, |rounds|), posts, posts, {"user", "public", "staff"}, k);
      }
    }

    method DropExactKeys(ids: seq<PostId>, buckets: seq<set<string>>, rounds: seq<Round>)
      requires Covers(buckets, redis.db.Keys) && AllFit(buckets, rounds) && |rounds| >= |ids|
      modifies redis
      ensures Covers(buckets, redis.db.Keys)
      ensures Left(redis.db, old(redis.db), Meanwhile(rounds, |ids|), Firsts(ids, |ids|), {}, {})
    {
      ghost var before := redis.db;
      for i := 0 to |ids|
        invariant Covers(buckets, redis.db.Keys)
        invariant Left(redis.db, before, Meanwhile(rounds, i), Firsts(ids, i), {}, {})
      {
        DropExactKey(ids[i], buckets, rounds, i, before, Firsts(ids, i));
      }
    }

    method DropExactKey(p: PostId, ghost buckets: seq<set<string>>, rounds: seq<Round>, n: nat,
                        ghost before: map<string, Value>, ghost done: set<PostId>)
      requires Covers(buckets, redis.db.Keys) && AllFit(buckets, rounds) && n < |rounds|
      requires Left(redis.db, before, Meanwhile(rounds, n), done, {}, {})
      modifies redis
      ensures Covers(buckets, redis.db.Keys)
      ensures Left(redis.db, before, Meanwhile(rounds, n + 1), done + {p}, {}, {})
    {
      ExactKeyDropped(redis.db, before, Meanwhile(rounds, n), done, p, WrittenIn(rounds[n]));
      WrittenCovered(buckets, rounds[n], |rounds[n]|);
      redis.Del(BuildKey("post", [Number(p)]));
      redis.db := redis.db + WrittenIn(rounds[n]);
    }

    method DropViewerAware(ids: seq<PostId>, buckets: seq<set<string>>, rounds: seq<Round>,
                           ghost before: map<string, Value>)
      requires |buckets| > 0 && Covers(buckets, redis.db.Keys) && AllFit(buckets, rounds) && |rounds| >= 2 * |ids|
      requires Left(redis.db, before, Meanwhile(rounds, |ids|), Firsts(ids, |ids|), {}, {})
      modifies redis
      ensures Covers(buckets, redis.db.Keys)
      ensures Left(redis.db, before, Meanwhile(rounds, 2 * |ids|), Firsts(ids, |ids|), Firsts(ids, |ids|), {})
    {
      for i := 0 to |ids|
        invariant Covers(buckets, redis.db.Keys)
        invariant Left(redis.db, before, Meanwhile(rounds, |ids| + i), Firsts(ids, |ids|), Firsts(ids, i), {})
      {
        DropPattern(ids[i], buckets, rounds, |ids| + i, before, Firsts(ids, |ids|), Firsts(ids, i));
      }
    }

    method DropPattern(p: PostId, buckets: seq<set<string>>, rounds: seq<Round>, n: nat,
                       ghost before: map<string, Value>, ghost postIds: set<PostId>, ghost done: set<PostId>)
      requires |buckets| > 0 && Covers(buckets, redis.db.Keys) && AllFit(buckets, rounds) && n < |rounds|
      requires Left(redis.db, before, Meanwhile(rounds, n), postIds, done, {})
      modifies redis
      ensures Covers(buckets, redis.db.Keys)
      ensures Left(redis.db, before, Meanwhile(rounds, n + 1), postIds, done + {p}, {})
    {
      ghost var now := redis.db;
      var _ := redis.DelByPattern(ByIdPattern(p), buckets, rounds[n]);
      StillCovered(ByIdPattern(p), buckets, rounds[n], now, redis.db);
      ViewerAwareDropped(now, redis.db, before, Meanwhile(rounds, n), postIds, done, p, WrittenIn(rounds[n]));
    }

    method DropLists(ids: seq<PostId>, buckets: seq<set<string>>, rounds: seq<Round>,
                     ghost before: map<string, Value>)
      requires |buckets| > 0 && Covers(buckets, redis.db.Keys) && AllFit(buckets, rounds)
      requires |rounds| == 2 * |ids| + 3
      requires Left(redis.db, before, Meanwhile(rounds, 2 * |ids|), Firsts(ids, |ids|), Firsts(ids, |ids|), {})
      modifies redis
      ensures Left(redis.db, before, Meanwhile(rounds, |rounds|), Firsts(ids, |ids|), Firsts(ids, |ids|),
                   {"user", "public", "staff"})
    {
      var n := 2 * |ids|;
      ghost var posts := Firsts(ids, |ids|);
      DropList(posts, buckets, rounds, n, before, {}, "user");
      assert {} + {"user"} == {"user"};
      DropList(posts, buckets, rounds, n + 1, before, {"user"}, "public");
      DropList(posts, buckets, rounds, n + 2, before, {"user"} + {"public"}, "staff");
      assert {"user"} + {"public"} + {"staff"} == {"user", "public", "staff"};
    }

    method DropList(ghost postIds: set<PostId>, buckets: seq<set<string>>, rounds: seq<Round>, n: nat,
                    ghost before: map<string, Value>, ghost done: set<string>, scope: string)
      requires |buckets| > 0 && Covers(buckets, redis.db.Keys) && AllFit(buckets, rounds) && n < |rounds|
      requires Left(redis.db, before, Meanwhile(rounds, n), postIds, postIds, done)
      modifies redis
      ensures Covers(buckets, redis.db.Keys)
      ensures Left(redis.db, before, Meanwhile(rounds, n + 1), postIds, postIds, done + {scope})
    {
      ghost var now := redis.db;
      var _ := redis.DelByPattern(ListPattern(scope), buckets, rounds[n]);
      StillCovered(ListPattern(scope), buckets, rounds[n], now, redis.db);
      ListsDropped(now, redis.db, before, Meanwhile(rounds, n), postIds, done, scope, WrittenIn(rounds[n]));
    }
  }

  lemma DroppedIsHit(k: string, postIds: set<PostId>)
    ensures Dropped(k, postIds, postIds, {"user", "public", "staff"}) <==> HitByMutation(k, postIds)
  {
    if p :| p in postIds && k == BuildKey("post", [Number(p)]) {
      assert HitsPost(k, p);
    }
    if p :| p in postIds && Matches(ByIdPattern(p), k) {
      assert HitsPost(k, p);
    }
  }
}
