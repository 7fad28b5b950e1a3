/** Cached comment lists: what an invalidation drops, and how fresh a served list is. */
module CommentsCache {
  import opened CacheInvalidation
  import opened RedisScan
  import opened Wrappers

  type Time = nat
  type ReadId = nat
  type SweepId = nat

  /** Drops the post's comment lists, of every viewer and query, while others write: afterwards one of them is there
      only if it was written on the way, and no key of another post or of anything else has suffered. */
  method InvalidatePostComments(redis: RedisService, postId: PostId, buckets: seq<set<string>>,
                                writes: seq<map<string, Value>>)
    requires |buckets| == |writes| > 0 && Covers(buckets, redis.db.Keys)
    modifies redis
    ensures forall k ::
              if exists rest :: k == CommentsKey(postId, rest)
              then Holds(redis.db, k) == None || Holds(redis.db, k) == Holds(Written(writes, |writes|), k)
              else Holds(redis.db, k) == Holds(old(redis.db) + Written(writes, |writes|), k)
  {
    ghost var before, written := redis.db, Written(writes, |writes|);
    var _ := redis.DelByPattern(CommentsPattern(postId), buckets, writes);
    forall k
      ensures if exists rest :: k == CommentsKey(postId, rest)
              then Holds(redis.db, k) == None || Holds(redis.db, k) == Holds(written, k)
              else Holds(redis.db, k) == Holds(before + written, k)
    {
      CommentsPatternExact(postId, k);
      assert GoneKey(CommentsPattern(postId), written, before, redis.db, k);
    }
  }

  // ---- How fresh a list is ----

  /** A cached list: the step and the time at which it was read from the database, and the time it was stored. */
  datatype Cached = Cached(readStep: nat, readAt: Time, storedAt: Time)

  datatype Read = Read(postId: PostId, rest: string, step: nat, at: Time)

  /** An invalidation under way: when it began, and how many buckets of the key space its scan has swept. */
  datatype Sweep = Sweep(postId: PostId, begun: nat, swept: nat)

  /** `invalidated` is the step at which the latest completed invalidation of a post began. */
  datatype State = State(cache: map<string, Cached>, pending: map<ReadId, Read>, sweeps: map<SweepId, Sweep>,
                         invalidated: map<PostId, nat>, step: nat, clock: Time)

  /** Which bucket of the key space a key is in. */
  datatype Layout = Layout(bucketOf: string -> nat, count: nat)

  ghost predicate IsLayout(l: Layout) { forall k :: l.bucketOf(k) < l.count }

  datatype Event =
    | Advance(to: Time)
    /** A request misses the cache and reads the list from the database; later it stores what it read. */
    | Miss(id: ReadId, postId: PostId, rest: string)
    | Fill(id: ReadId)
    /** An invalidation sweeps bucket after bucket, and anything may come in between. */
    | BeginSweep(sweep: SweepId, postId: PostId)
    | SweepBucket(sweep: SweepId)
    | EndSweep(sweep: SweepId)
    | FailSweep(sweep: SweepId)

  predicate Enabled(l: Layout, s: State, e: Event) {
    match e
    case Advance(to) => s.clock <= to
    case Miss(id, _, _) => id !in s.pending
    case Fill(id) => id in s.pending
    case BeginSweep(sweep, _) => sweep !in s.sweeps
    case SweepBucket(sweep) => sweep in s.sweeps && s.sweeps[sweep].swept < l.count
    case EndSweep(sweep) => sweep in s.sweeps && s.sweeps[sweep].swept == l.count
    case FailSweep(sweep) => sweep in s.sweeps
  }

  function Latest(invalidated: map<PostId, nat>, sweep: Sweep): nat {
    if sweep.postId in invalidated && invalidated[sweep.postId] > sweep.begun then invalidated[sweep.postId]
    else sweep.begun
  }

  /** Once a bucket is swept, none of its keys matches. */
  function SweptCache(l: Layout, cache: map<string, Cached>, sweep: Sweep): map<string, Cached> {
    map k | k in cache && !(l.bucketOf(k) == sweep.swept && Matches(CommentsPattern(sweep.postId), k)) :: cache[k]
  }

  function Apply(l: Layout, s: State, e: Event): State
    requires Enabled(l, s, e)
  {
    var t := s.(step := s.step + 1);
    match e
    case Advance(to) => t.(clock := to)
    case Miss(id, postId, rest) => t.(pending := s.pending[id := Read(postId, rest, s.step, s.clock)])
    case Fill(id) =>
      var r := s.pending[id];
      t.(cache := s.cache[CommentsKey(r.postId, r.rest) := Cached(r.step, r.at, s.clock)], pending := s.pending - {id})
    case BeginSweep(sweep, postId) => t.(sweeps := s.sweeps[sweep := Sweep(postId, s.step, 0)])
    case SweepBucket(sweep) =>
      var w := s.sweeps[sweep];
      t.(cache := SweptCache(l, s.cache, w), sweeps := s.sweeps[sweep := w.(swept := w.swept + 1)])
    case EndSweep(sweep) =>
      var w := s.sweeps[sweep];
      t.(sweeps := s.sweeps - {sweep}, invalidated := s.invalidated[w.postId := Latest(s.invalidated, w)])
    case FailSweep(sweep) => t.(sweeps := s.sweeps - {sweep})
  }

  const Initial := State(map[], map[], map[], map[], 0, 0)

  ghost predicate IsRun(l: Layout, states: seq<State>, events: seq<Event>) {
    && |states| == |events| + 1
    && states[0] == Initial
    && forall i :: 0 <= i < |events| ==>
         Enabled(l, states[i], events[i]) && states[i + 1] == Apply(l, states[i], events[i])
  }

  lemma ExtendRun(l: Layout, states: seq<State>, events: seq<Event>, e: Event)
    requires IsRun(l, states, events) && Enabled(l, states[|events|], e)
    ensures IsRun(l, states + [Apply(l, states[|events|], e)], events + [e])
  {
  }

  /** What a request gets from the cache. */
  function Served(s: State, postId: PostId, rest: string, ttl: Time): Option<Cached> {
    var key := CommentsKey(postId, rest);
    if key in s.cache && s.clock < s.cache[key].storedAt + ttl then Some(s.cache[key]) else None
  }

  // ---- Age ----

  /** Stores come at most this long after their reads. */
  ghost predicate StoredWithin(l: Layout, states: seq<State>, events: seq<Event>, delay: Time)
    requires IsRun(l, states, events)
  {
    forall i :: 0 <= i < |events| && events[i].Fill? ==> FillDelay(l, states[i], events[i]) <= delay
  }

  function FillDelay(l: Layout, s: State, e: Event): int
    requires Enabled(l, s, e) && e.Fill?
  {
    s.clock - s.pending[e.id].at
  }

  ghost predicate Aged(s: State, delay: Time) {
    && (forall id :: id in s.pending ==> s.pending[id].at <= s.clock)
    && forall k :: k in s.cache ==> s.cache[k].readAt <= s.cache[k].storedAt <= s.clock
                                    && s.cache[k].storedAt <= s.cache[k].readAt + delay
  }

  lemma {:induction false} RunAged(l: Layout, states: seq<State>, events: seq<Event>, n: nat, delay: Time)
    requires IsRun(l, states, events) && n <= |events| && StoredWithin(l, states, events, delay)
    ensures Aged(states[n], delay)
  {
    if n > 0 {
      RunAged(l, states, events, n - 1, delay);
      var s, e := states[n - 1], events[n - 1];
      if e.Fill? {
        assert FillDelay(l, s, e) <= delay;
      }
    }
  }

  /** A served list was read from the database less than one time to live ago, and the delay of its store; with reads
      and stores atomic, less than one time to live. */
  lemma ServedWithinTtl(l: Layout, states: seq<State>, events: seq<Event>, n: nat, postId: PostId, rest: string,
                        ttl: Time, delay: Time)
    requires IsRun(l, states, events) && n <= |events| && StoredWithin(l, states, events, delay)
    requires Served(states[n], postId, rest, ttl).Some?
    ensures states[n].clock < Served(states[n], postId, rest, ttl).value.readAt + ttl + delay
  {
    RunAged(l, states, events, n, delay);
  }

  // ---- Invalidation ----

  /** This sweep is of the post and has passed the key. */
  predicate HasPassed(l: Layout, w: Sweep, postId: PostId, rest: string) {
    w.postId == postId && l.bucketOf(CommentsKey(postId, rest)) < w.swept
  }

  /** A read at this step saw what every invalidation of the post that has passed the key was about. */
  ghost predicate IsCurrent(l: Layout, s: State, postId: PostId, rest: string, readStep: nat) {
    && (postId in s.invalidated ==> s.invalidated[postId] < readStep)
    && forall q :: q in s.sweeps && HasPassed(l, s.sweeps[q], postId, rest) ==> s.sweeps[q].begun < readStep
  }

  /** Every cached list reflects all invalidations that have passed its key, completed or not. */
  ghost predicate AllFresh(l: Layout, s: State) {
    forall postId, rest {:trigger CommentsKey(postId, rest)} :: CommentsKey(postId, rest) in s.cache ==>
      IsCurrent(l, s, postId, rest, s.cache[CommentsKey(postId, rest)].readStep)
  }

  /** The list is stored after an invalidation that began after it was read has been completed, or has passed its
      key. */
  ghost predicate IsOvertaken(l: Layout, s: State, e: Event)
    requires Enabled(l, s, e)
  {
    && e.Fill?
    && var r := s.pending[e.id];
       || (r.postId in s.invalidated && r.step < s.invalidated[r.postId])
       || exists q :: q in s.sweeps && HasPassed(l, s.sweeps[q], r.postId, r.rest) && r.step < s.sweeps[q].begun
  }

  /** Steps are numbered: none is both a read and the beginning of an invalidation. */
  ghost predicate StepsOk(l: Layout, s: State) {
    && (forall p :: p in s.invalidated ==> s.invalidated[p] < s.step)
    && (forall q :: q in s.sweeps ==> s.sweeps[q].begun < s.step && s.sweeps[q].swept <= l.count)
    && (forall id :: id in s.pending ==> s.pending[id].step < s.step)
    && (forall id, p :: id in s.pending && p in s.invalidated ==> s.pending[id].step != s.invalidated[p])
    && (forall id, q :: id in s.pending && q in s.sweeps ==> s.pending[id].step != s.sweeps[q].begun)
    && (forall k :: k in s.cache ==> s.cache[k].readStep < s.step)
  }

  lemma StepsStep(l: Layout, s: State, e: Event)
    requires StepsOk(l, s) && Enabled(l, s, e)
    ensures StepsOk(l, Apply(l, s, e))
  {
  }

  lemma {:induction false} RunSteps(l: Layout, states: seq<State>, events: seq<Event>, n: nat)
    requires IsRun(l, states, events) && n <= |events|
    ensures StepsOk(l, states[n])
  {
    if n > 0 {
      RunSteps(l, states, events, n - 1);
      StepsStep(l, states[n - 1], events[n - 1]);
    }
  }

  lemma KeyFresh(l: Layout, s: State, e: Event, postId: PostId, rest: string)
    requires IsLayout(l) && AllFresh(l, s) && StepsOk(l, s) && Enabled(l, s, e) && !IsOvertaken(l, s, e)
    requires CommentsKey(postId, rest) in Apply(l, s, e).cache
    ensures IsCurrent(l, Apply(l, s, e), postId, rest, Apply(l, s, e).cache[CommentsKey(postId, rest)].readStep)
  {
    var key, t := CommentsKey(postId, rest), Apply(l, s, e);
    if e.Fill? && key == CommentsKey(s.pending[e.id].postId, s.pending[e.id].rest) {
      CommentsKeyTells(postId, rest, s.pending[e.id].postId, s.pending[e.id].rest);
    } else {
      assert key in s.cache && t.cache[key] == s.cache[key];
      if e.SweepBucket? {
        CommentsPatternOtherPosts(s.sweeps[e.sweep].postId, postId, rest);
      }
    }
  }

  /** A step keeps every cached list fresh exactly when it is not a store that an invalidation has overtaken. */
  lemma StepFreshExactly(l: Layout, s: State, e: Event)
    requires IsLayout(l) && AllFresh(l, s) && StepsOk(l, s) && Enabled(l, s, e)
    ensures AllFresh(l, Apply(l, s, e)) <==> !IsOvertaken(l, s, e)
  {
    var t := Apply(l, s, e);
    if IsOvertaken(l, s, e) {
      var r := s.pending[e.id];
      assert t.cache[CommentsKey(r.postId, r.rest)].readStep == r.step;
      assert !IsCurrent(l, t, r.postId, r.rest, r.step);
    } else {
      forall postId, rest | CommentsKey(postId, rest) in t.cache
        ensures IsCurrent(l, t, postId, rest, t.cache[CommentsKey(postId, rest)].readStep)
      {
        KeyFresh(l, s, e, postId, rest);
      }
    }
  }

  /** Served lists reflect every invalidation that has passed their keys in every run whose stores are not overtaken,
      and so in every run that reads and stores at once; and the first store that is overtaken puts a stale list into
      the cache. */
  lemma {:induction false} ServedReflectInvalidations(l: Layout, states: seq<State>, events: seq<Event>, n: nat)
    requires IsLayout(l) && IsRun(l, states, events) && n <= |events|
    requires forall i :: 0 <= i < n - 1 ==> !IsOvertaken(l, states[i], events[i])
    ensures AllFresh(l, states[n]) <==> n == 0 || !IsOvertaken(l, states[n - 1], events[n - 1])
  {
    if n > 0 {
      var j := n - 1;
      ServedReflectInvalidations(l, states, events, j);
      assert j > 0 ==> !IsOvertaken(l, states[j - 1], events[j - 1]);
      RunSteps(l, states, events, j);
      StepFreshExactly(l, states[j], events[j]);
    }
  }

  // ---- What is cached, told from the events ----

  lemma {:induction false} StepNumbers(l: Layout, states: seq<State>, events: seq<Event>, n: nat)
    requires IsRun(l, states, events) && n <= |events|
    ensures states[n].step == n
  {
    if n > 0 {
      StepNumbers(l, states, events, n - 1);
      assert states[n] == Apply(l, states[n - 1], events[n - 1]);
    }
  }

  /** A read under way is that of a miss, with the time at which it happened. */
  lemma {:induction false} PendingAsRead(l: Layout, states: seq<State>, events: seq<Event>, n: nat, id: ReadId)
    requires IsRun(l, states, events) && n <= |events| && id in states[n].pending
    ensures var r := states[n].pending[id];
            r.step < n && events[r.step] == Miss(id, r.postId, r.rest) && r.at == states[r.step].clock
  {
    if n > 0 {
      var j := n - 1;
      assert states[n] == Apply(l, states[j], events[j]);
      StepNumbers(l, states, events, j);
      if id in states[j].pending {
        PendingAsRead(l, states, events, j, id);
      }
    }
  }

  predicate Fills(s: State, e: Event, key: string) {
    && e.Fill? && e.id in s.pending
    && key == CommentsKey(s.pending[e.id].postId, s.pending[e.id].rest)
  }

  /** A sweep of the key's own post passes its bucket. */
  ghost predicate Sweeps(l: Layout, s: State, e: Event, key: string) {
    && e.SweepBucket? && e.sweep in s.sweeps && l.bucketOf(key) == s.sweeps[e.sweep].swept
    && exists rest :: key == CommentsKey(s.sweeps[e.sweep].postId, rest)
  }

  /** Step `i` stored a list under the key, and since then nothing was stored there and no sweep of its post has
      passed. */
  ghost predicate StoredAndKept(l: Layout, states: seq<State>, events: seq<Event>, i: nat, n: nat, key: string)
    requires |states| == |events| + 1 && n <= |events|
  {
    && i < n && Fills(states[i], events[i], key)
    && forall j :: i < j < n ==> !Fills(states[j], events[j], key) && !Sweeps(l, states[j], events[j], key)
  }

  /** In every run a key is cached exactly when some step stored it and it was neither replaced nor swept since; and
      what is cached is what that step's request had read, from when it was stored. */
  lemma {:induction false} CachedExactly(l: Layout, states: seq<State>, events: seq<Event>, n: nat, key: string)
    requires IsRun(l, states, events) && n <= |events|
    ensures key in states[n].cache <==> exists i: nat :: StoredAndKept(l, states, events, i, n, key)
    ensures forall i: nat :: StoredAndKept(l, states, events, i, n, key) ==>
              var r := states[i].pending[events[i].id];
              key in states[n].cache && states[n].cache[key] == Cached(r.step, r.at, states[i].clock)
  {
    if n > 0 {
      var j := n - 1;
      CachedExactly(l, states, events, j, key);
      CacheStep(l, states[j], events[j], key);
      assert states[n] == Apply(l, states[j], events[j]);
      assert Fills(states[j], events[j], key) ==> StoredAndKept(l, states, events, j, n, key);
      forall i: nat | StoredAndKept(l, states, events, i, n, key) && i < j
        ensures StoredAndKept(l, states, events, i, j, key)
      {
      }
      if i: nat :| StoredAndKept(l, states, events, i, j, key)
                   && !Fills(states[j], events[j], key) && !Sweeps(l, states[j], events[j], key) {
        assert StoredAndKept(l, states, events, i, n, key);
      }
    }
  }

  lemma CacheStep(l: Layout, s: State, e: Event, key: string)
    requires Enabled(l, s, e)
    ensures var t := Apply(l, s, e);
            if Fills(s, e, key) then
              key in t.cache
              && t.cache[key] == Cached(s.pending[e.id].step, s.pending[e.id].at, s.clock)
            else if Sweeps(l, s, e, key) then key !in t.cache
            else (key in t.cache <==> key in s.cache) && (key in t.cache ==> t.cache[key] == s.cache[key])
  {
    if e.SweepBucket? {
      CommentsPatternExact(s.sweeps[e.sweep].postId, key);
    }
  }

  /** A served list was read by a miss of its own post and query. */
  lemma ServedAsRead(l: Layout, states: seq<State>, events: seq<Event>, n: nat, postId: PostId, rest: string, ttl: Time)
    requires IsRun(l, states, events) && n <= |events| && Served(states[n], postId, rest, ttl).Some?
    ensures var c := Served(states[n], postId, rest, ttl).value;
            && c.readStep < n && events[c.readStep].Miss? && events[c.readStep].postId == postId
            && events[c.readStep].rest == rest && c.readAt == states[c.readStep].clock
  {
    var key := CommentsKey(postId, rest);
    CachedExactly(l, states, events, n, key);
    var i: nat :| StoredAndKept(l, states, events, i, n, key);
    var r := states[i].pending[events[i].id];
    PendingAsRead(l, states, events, i, events[i].id);
    CommentsKeyTells(postId, rest, r.postId, r.rest);
  }

  lemma {:induction false} SweepAsBegun(l: Layout, states: seq<State>, events: seq<Event>, b: nat, n: nat)
    requires IsRun(l, states, events) && b < n <= |events| && events[b].BeginSweep?
    requires forall i :: b < i <= n ==> events[b].sweep in states[i].sweeps
    ensures var w := states[n].sweeps[events[b].sweep]; w.postId == events[b].postId && w.begun == b
  {
    var j := n - 1;
    assert states[n] == Apply(l, states[j], events[j]);
    if j == b {
      StepNumbers(l, states, events, b);
    } else {
      SweepAsBegun(l, states, events, b, j);
    }
  }

  lemma {:induction false} CompletionRemembered(l: Layout, states: seq<State>, events: seq<Event>, b: nat, d: nat, n: nat)
    requires IsRun(l, states, events) && b < d < n <= |events|
    requires events[b].BeginSweep? && events[d] == EndSweep(events[b].sweep)
    requires forall i :: b < i <= d ==> events[b].sweep in states[i].sweeps
    ensures events[b].postId in states[n].invalidated && b <= states[n].invalidated[events[b].postId]
    decreases n
  {
    var j := n - 1;
    assert states[n] == Apply(l, states[j], events[j]);
    if j == d {
      SweepAsBegun(l, states, events, b, d);
    } else {
      CompletionRemembered(l, states, events, b, d, j);
    }
  }

  /** So in a run without overtaken stores, whatever is served after an invalidation of the post is complete was read
      after that invalidation began. */
  lemma ServedAfterInvalidation(l: Layout, states: seq<State>, events: seq<Event>, b: nat, d: nat, n: nat,
                                postId: PostId, rest: string, ttl: Time)
    requires IsLayout(l) && IsRun(l, states, events) && b < d < n <= |events|
    requires forall i :: 0 <= i < n ==> !IsOvertaken(l, states[i], events[i])
    requires events[b].BeginSweep? && events[b].postId == postId && events[d] == EndSweep(events[b].sweep)
    requires forall i :: b < i <= d ==> events[b].sweep in states[i].sweeps
    requires Served(states[n], postId, rest, ttl).Some?
    ensures b < Served(states[n], postId, rest, ttl).value.readStep < n
  {
    ServedReflectInvalidations(l, states, events, n);
    assert IsCurrent(l, states[n], postId, rest, states[n].cache[CommentsKey(postId, rest)].readStep);
    CompletionRemembered(l, states, events, b, d, n);
    ServedAsRead(l, states, events, n, postId, rest, ttl);
  }

  // ---- A list that survives its invalidation ----

  lemma ReadThenSwept(l: Layout, postId: PostId, rest: string) returns (states: seq<State>, events: seq<Event>)
    requires l.count == 1 && IsLayout(l)
    ensures IsRun(l, states, events)
    ensures states[|events|] == State(map[], map[1 := Read(postId, rest, 0, 0)], map[1 := Sweep(postId, 1, 1)], map[], 3, 0)
  {
    var e1, e2, e3 := Miss(1, postId, rest), BeginSweep(1, postId), SweepBucket(1);
    states, events := [Initial], [];
    ExtendRun(l, states, events, e1);
    states, events := states + [Apply(l, states[|events|], e1)], events + [e1];
    ExtendRun(l, states, events, e2);
    states, events := states + [Apply(l, states[|events|], e2)], events + [e2];
    ExtendRun(l, states, events, e3);
    states, events := states + [Apply(l, states[|events|], e3)], events + [e3];
    assert states[|events|].sweeps == map[1 := Sweep(postId, 1, 1)];
    assert states[|events|].cache == map[];
  }

  /** A request reads the list; an invalidation begins and sweeps the key's bucket; the request stores what it read; the
      invalidation ends. The list read before the invalidation began is served after it is complete. */
  lemma StaleListServed(l: Layout, postId: PostId, rest: string, ttl: Time)
    returns (states: seq<State>, events: seq<Event>)
    requires l.count == 1 && IsLayout(l) && ttl > 0
    ensures IsRun(l, states, events)
    ensures var s := states[|events|];
            && Served(s, postId, rest, ttl) == Some(Cached(0, 0, 0))
            && s.invalidated == map[postId := 1] && s.sweeps == map[]
  {
    states, events := ReadThenSwept(l, postId, rest);
    ExtendRun(l, states, events, Fill(1));
    states, events := states + [Apply(l, states[|events|], Fill(1))], events + [Fill(1)];
    ExtendRun(l, states, events, EndSweep(1));
    states, events := states + [Apply(l, states[|events|], EndSweep(1))], events + [EndSweep(1)];
    assert states[|events|].sweeps == map[];
  }
}
