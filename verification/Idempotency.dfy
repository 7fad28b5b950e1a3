/** The idempotency interceptor as a protocol: any number of requests with one operation key, sharing the response
    entry and the lock entry that Redis keeps for that key. Every Redis command, every return of a handler and every
    passing of time is one step; steps of different requests interleave freely. */
module Idempotency {
  import opened Wrappers
  import opened Json
  import opened StableStringify

  const LOCK_TTL_MS := 30_000
  const WAIT_TIMEOUT_MS := 8_000
  const WAIT_POLL_MS := 150

  type RequestId = nat

  datatype Reply = Reply(status: int, body: Json)

  datatype Outcome =
    | Replayed(reply: Reply)
    | Created(reply: Reply)
    | PayloadConflict
    | StillInProgress
    | Failed
    | Crashed

  /** Where a request stands between two awaits. A request that took the lock remembers when. */
  datatype Phase =
    | Arriving
    | Missed
    | Handling(since: nat)
    | Storing(since: nat, reply: Reply)
    | Unlocking(since: nat, reply: Reply)
    | Releasing(since: nat)
    | Waiting(started: nat, wakeAt: nat)
    | Done(outcome: Outcome)

  datatype Request = Request(payload: Payload, phase: Phase, polls: nat)

  datatype Cached = Cached(hash: Text, reply: Reply, expiresAt: nat)

  /** produced is a history variable: the replies handlers have returned, with the request they ran for. */
  datatype State = State(
    now: nat,
    response: Option<Cached>,
    lock: Option<nat>,
    requests: map<RequestId, Request>,
    produced: set<(RequestId, Reply)>)

  datatype Event =
    | Arrive(id: RequestId, payload: Payload)
    | Tick(to: nat)
    | Lookup(id: RequestId)
    | TryLock(id: RequestId)
    | HandlerReturns(id: RequestId, reply: Reply)
    | HandlerThrows(id: RequestId)
    | Store(id: RequestId)
    | Unlock(id: RequestId)
    | Release(id: RequestId)
    | Poll(id: RequestId)
    | RedisFails(id: RequestId)
    | Crash(id: RequestId)

  const Initial := State(0, None, None, map[], {})

  /** Redis entries disappear when their time is up. */
  predicate ResponseLive(s: State) { s.response.Some? && s.now < s.response.value.expiresAt }

  predicate LockLive(s: State) { s.lock.Some? && s.now < s.lock.value }

  predicate InPhase(s: State, id: RequestId, p: Phase -> bool) {
    id in s.requests && p(s.requests[id].phase)
  }

  predicate Holds(p: Phase) { p.Handling? || p.Storing? || p.Unlocking? || p.Releasing? }

  predicate Enabled(s: State, e: Event) {
    match e
    case Arrive(id, payload) => id !in s.requests && WellFormedPayload(payload)
    case Tick(to) => s.now < to
    case Lookup(id) => InPhase(s, id, (p: Phase) => p.Arriving?)
    case TryLock(id) => InPhase(s, id, (p: Phase) => p.Missed?)
    case HandlerReturns(id, _) => InPhase(s, id, (p: Phase) => p.Handling?)
    case HandlerThrows(id) => InPhase(s, id, (p: Phase) => p.Handling?)
    case Store(id) => InPhase(s, id, (p: Phase) => p.Storing?)
    case Unlock(id) => InPhase(s, id, (p: Phase) => p.Unlocking?)
    case Release(id) => InPhase(s, id, (p: Phase) => p.Releasing?)
    case Poll(id) => InPhase(s, id, (p: Phase) => p.Waiting? && p.wakeAt <= s.now)
    case RedisFails(id) => InPhase(s, id, (p: Phase) => !p.Handling? && !p.Done?)
    case Crash(id) => InPhase(s, id, (p: Phase) => !p.Done?)
  }

  function Enter(s: State, id: RequestId, p: Phase): State
    requires id in s.requests
  {
    s.(requests := s.requests[id := s.requests[id].(phase := p)])
  }

  /** A cached response is replayed to the same payload and refused to any other. */
  function Answer(cached: Cached, payload: Payload): Outcome {
    if cached.hash != PayloadText(payload) then PayloadConflict else Replayed(cached.reply)
  }

  function AfterPoll(s: State, id: RequestId): State
    requires Enabled(s, Poll(id))
  {
    var r := s.requests[id];
    if WAIT_TIMEOUT_MS <= s.now - r.phase.started then Enter(s, id, Done(StillInProgress))
    else
      var looked := s.(requests := s.requests[id := r.(polls := r.polls + 1)]);
      if ResponseLive(s) then Enter(looked, id, Done(Answer(s.response.value, r.payload)))
      else Enter(looked, id, Waiting(r.phase.started, s.now + WAIT_POLL_MS))
  }

  /** A failed store or unlock is caught and the lock deleted once more; any other failure ends the request. */
  function AfterFailure(s: State, id: RequestId): State
    requires Enabled(s, RedisFails(id))
  {
    var p := s.requests[id].phase;
    if p.Storing? || p.Unlocking? then Enter(s, id, Releasing(p.since)) else Enter(s, id, Done(Failed))
  }

  function Apply(ttl: nat, s: State, e: Event): State
    requires Enabled(s, e)
  {
    match e
    case Arrive(id, payload) => s.(requests := s.requests[id := Request(payload, Arriving, 0)])
    case Tick(to) => s.(now := to)
    case Lookup(id) =>
      if ResponseLive(s) then Enter(s, id, Done(Answer(s.response.value, s.requests[id].payload)))
      else Enter(s, id, Missed)
    case TryLock(id) =>
      if LockLive(s) then Enter(s, id, Waiting(s.now, s.now))
      else Enter(s, id, Handling(s.now)).(lock := Some(s.now + LOCK_TTL_MS))
    case HandlerReturns(id, reply) =>
      Enter(s, id, Storing(s.requests[id].phase.since, reply)).(produced := s.produced + {(id, reply)})
    case HandlerThrows(id) => Enter(s, id, Releasing(s.requests[id].phase.since))
    case Store(id) =>
      var r := s.requests[id];
      Enter(s, id, Unlocking(r.phase.since, r.phase.reply)).(
        response := Some(Cached(PayloadText(r.payload), r.phase.reply, s.now + ttl)))
    case Unlock(id) => Enter(s, id, Done(Created(s.requests[id].phase.reply))).(lock := None)
    case Release(id) => Enter(s, id, Done(Failed)).(lock := None)
    case Poll(id) => AfterPoll(s, id)
    case RedisFails(id) => AfterFailure(s, id)
    case Crash(id) => Enter(s, id, Done(Crashed))
  }

  ghost predicate IsRunFrom(ttl: nat, start: State, run: seq<State>, events: seq<Event>) {
    && |run| == |events| + 1
    && run[0] == start
    && forall i :: 0 <= i < |events| ==> Enabled(run[i], events[i]) && run[i + 1] == Apply(ttl, run[i], events[i])
  }

  ghost predicate IsRun(ttl: nat, run: seq<State>, events: seq<Event>) {
    IsRunFrom(ttl, Initial, run, events)
  }

  lemma ExtendRun(ttl: nat, start: State, run: seq<State>, events: seq<Event>, e: Event, next: State)
    requires IsRunFrom(ttl, start, run, events) && Enabled(run[|events|], e)
    requires next == Apply(ttl, run[|events|], e)
    ensures IsRunFrom(ttl, start, run + [next], events + [e])
  {
  }

  ghost predicate Reachable(ttl: nat, s: State) {
    exists run, events :: IsRun(ttl, run, events) && run[|events|] == s
  }

  ghost predicate IsHolder(s: State, id: RequestId) {
    id in s.requests && Holds(s.requests[id].phase)
  }

  // ---- Mutual exclusion ----

  /** Every request that took the lock has been at it for at most d milliseconds. */
  ghost predicate HeldAtMost(s: State, d: nat) {
    forall id :: IsHolder(s, id) ==> s.now - s.requests[id].phase.since <= d
  }

  /** Two requests are between taking the lock and giving it back. */
  ghost predicate Overlap(s: State) {
    exists i, j :: i != j && IsHolder(s, i) && IsHolder(s, j)
  }

  ghost predicate IsHandling(s: State, id: RequestId) {
    id in s.requests && s.requests[id].phase.Handling?
  }

  /** Two handlers run at once. */
  ghost predicate HandlersOverlap(s: State) {
    exists i, j :: i != j && IsHandling(s, i) && IsHandling(s, j)
  }

  ghost predicate Exclusive(s: State) {
    && (forall i, j :: IsHolder(s, i) && IsHolder(s, j) ==> i == j)
    && (forall i :: IsHolder(s, i) ==> s.lock == Some(s.requests[i].phase.since + LOCK_TTL_MS))
  }

  predicate Acquires(s: State, e: Event) { e.TryLock? && !LockLive(s) }

  lemma HolderOrigin(ttl: nat, s: State, e: Event, i: RequestId)
    requires Enabled(s, e) && IsHolder(Apply(ttl, s, e), i)
    ensures var since := Apply(ttl, s, e).requests[i].phase.since;
            if Acquires(s, e) && e.id == i then since == s.now
            else IsHolder(s, i) && s.requests[i].phase.since == since && !((e.Unlock? || e.Release?) && e.id == i)
  {
  }

  lemma LockStep(ttl: nat, s: State, e: Event)
    requires Enabled(s, e)
    ensures var lock := Apply(ttl, s, e).lock;
            if Acquires(s, e) then lock == Some(s.now + LOCK_TTL_MS)
            else if e.Unlock? || e.Release? then IsHolder(s, e.id) && lock == None
            else lock == s.lock
  {
  }

  lemma ExclusiveStep(ttl: nat, s: State, e: Event)
    requires Enabled(s, e) && Exclusive(s)
    requires forall id :: IsHolder(s, id) ==> s.now - s.requests[id].phase.since < LOCK_TTL_MS
    ensures Exclusive(Apply(ttl, s, e))
  {
    var t := Apply(ttl, s, e);
    LockStep(ttl, s, e);
    forall i | IsHolder(t, i)
      ensures if Acquires(s, e) then i == e.id && t.requests[i].phase.since == s.now
              else IsHolder(s, i) && s.requests[i].phase.since == t.requests[i].phase.since
                   && !((e.Unlock? || e.Release?) && i == e.id)
    {
      HolderOrigin(ttl, s, e, i);
    }
  }

  lemma {:induction false} ExclusiveRun(ttl: nat, run: seq<State>, events: seq<Event>, d: nat, n: nat)
    requires IsRun(ttl, run, events) && n <= |events| && d < LOCK_TTL_MS
    requires forall i :: 0 <= i <= |events| ==> HeldAtMost(run[i], d)
    ensures Exclusive(run[n])
  {
    if n > 0 {
      ExclusiveRun(ttl, run, events, d, n - 1);
      ExclusiveStep(ttl, run[n - 1], events[n - 1]);
    }
  }

  /** Two requests with the same payload at time 0. */
  ghost function Pair(payload: Payload, response: Option<Cached>, lock: Option<nat>, one: Phase, two: Phase,
                      produced: set<(RequestId, Reply)>): State
  {
    State(0, response, lock, map[1 := Request(payload, one, 0), 2 := Request(payload, two, 0)], produced)
  }

  /** Extends a run in which no time passes by one step that leads to a state of the pair. */
  lemma ExtendPairRun(ttl: nat, payload: Payload, run: seq<State>, events: seq<Event>, e: Event, next: State)
    returns (run': seq<State>, events': seq<Event>)
    requires IsRun(ttl, run, events) && forall i :: 0 <= i <= |events| ==> HeldAtMost(run[i], 0)
    requires Enabled(run[|events|], e) && next == Apply(ttl, run[|events|], e) && next.now == 0
    ensures IsRun(ttl, run', events') && forall i :: 0 <= i <= |events'| ==> HeldAtMost(run'[i], 0)
    ensures run'[|events'|] == next
  {
    ExtendRun(ttl, Initial, run, events, e, next);
    run', events' := run + [next], events + [e];
  }

  lemma EnterPair(payload: Payload, response: Option<Cached>, lock: Option<nat>, one: Phase, two: Phase,
                  produced: set<(RequestId, Reply)>, p: Phase)
    ensures Enter(Pair(payload, response, lock, one, two, produced), 1, p)
            == Pair(payload, response, lock, p, two, produced)
    ensures Enter(Pair(payload, response, lock, one, two, produced), 2, p)
            == Pair(payload, response, lock, one, p, produced)
  {
  }

  lemma BothMiss(ttl: nat, payload: Payload)
    returns (run: seq<State>, events: seq<Event>)
    requires WellFormedPayload(payload)
    ensures IsRun(ttl, run, events) && forall i :: 0 <= i <= |events| ==> HeldAtMost(run[i], 0)
    ensures run[|events|] == Pair(payload, None, None, Missed, Missed, {})
  {
    var s1 := State(0, None, None, map[1 := Request(payload, Arriving, 0)], {});
    run, events := ExtendPairRun(ttl, payload, [Initial], [], Arrive(1, payload), s1);
    var s2 := Pair(payload, None, None, Arriving, Arriving, {});
    run, events := ExtendPairRun(ttl, payload, run, events, Arrive(2, payload), s2);
    EnterPair(payload, None, None, Arriving, Arriving, {}, Missed);
    run, events := ExtendPairRun(ttl, payload, run, events, Lookup(1), Pair(payload, None, None, Missed, Arriving, {}));
    EnterPair(payload, None, None, Missed, Arriving, {}, Missed);
    run, events := ExtendPairRun(ttl, payload, run, events, Lookup(2), Pair(payload, None, None, Missed, Missed, {}));
  }

  /** A run of two requests in which the second takes the lock the moment it expires under the first. */
  lemma OverstayingOverlaps(ttl: nat, payload: Payload)
    returns (run: seq<State>, events: seq<Event>)
    requires WellFormedPayload(payload)
    ensures IsRun(ttl, run, events) && HandlersOverlap(run[|events|])
    ensures forall i :: 0 <= i <= |events| ==> HeldAtMost(run[i], 30_000)
  {
    var lock := Some(LOCK_TTL_MS);
    run, events := BothMiss(ttl, payload);
    EnterPair(payload, None, None, Missed, Missed, {}, Handling(0));
    run, events := ExtendPairRun(ttl, payload, run, events, TryLock(1),
                                 Pair(payload, None, lock, Handling(0), Missed, {}));
    var expired := run[|events|].(now := LOCK_TTL_MS);
    ExtendRun(ttl, Initial, run, events, Tick(LOCK_TTL_MS), expired);
    var overlapping := Apply(ttl, expired, TryLock(2));
    ExtendRun(ttl, Initial, run + [expired], events + [Tick(LOCK_TTL_MS)], TryLock(2), overlapping);
    run, events := run + [expired] + [overlapping], events + [Tick(LOCK_TTL_MS)] + [TryLock(2)];
    assert IsHandling(overlapping, 1) && IsHandling(overlapping, 2);
  }

  /** A run whose requests hold the lock for at most d milliseconds. */
  ghost predicate IsBriefRun(ttl: nat, run: seq<State>, events: seq<Event>, d: nat) {
    IsRun(ttl, run, events) && forall i :: 0 <= i <= |events| ==> HeldAtMost(run[i], d)
  }

  /** The lock has no owner token. Two handlers can run at once in a run whose requests hold the lock for at most d
      milliseconds exactly when d reaches the lock's time to live; below that not even a handler and a request that is
      storing, unlocking or releasing come together. */
  lemma OverlapThreshold(ttl: nat, payload: Payload, d: nat)
    requires WellFormedPayload(payload)
    ensures d >= 30_000 <==>
            exists run, events, i :: IsBriefRun(ttl, run, events, d) && 0 <= i <= |events| && HandlersOverlap(run[i])
    ensures d < 30_000 ==>
              forall run, events, i :: IsBriefRun(ttl, run, events, d) && 0 <= i <= |events| ==> !Overlap(run[i])
  {
    if d >= LOCK_TTL_MS {
      var run, events := OverstayingOverlaps(ttl, payload);
      assert IsBriefRun(ttl, run, events, d) && HandlersOverlap(run[|events|]);
    } else {
      forall run, events, i | IsBriefRun(ttl, run, events, d) && 0 <= i <= |events|
        ensures !Overlap(run[i]) && !HandlersOverlap(run[i])
      {
        ExclusiveRun(ttl, run, events, d, i);
        forall id | IsHandling(run[i], id) ensures IsHolder(run[i], id) {
        }
      }
    }
  }

  // ---- The lock comes back ----

  /** A request goes away without giving the lock back: it crashes, or Redis fails while it releases. */
  predicate Abandons(s: State, e: Event) {
    || (e.Crash? && e.id in s.requests && Holds(s.requests[e.id].phase))
    || (e.RedisFails? && e.id in s.requests && s.requests[e.id].phase.Releasing?)
  }

  /** The lock entry is there only while some request is at it. */
  ghost predicate LockIsHeld(s: State) { s.lock.Some? ==> exists id :: IsHolder(s, id) }

  lemma HolderStays(ttl: nat, s: State, e: Event, id: RequestId)
    requires Enabled(s, e) && IsHolder(s, id) && !Abandons(s, e)
    ensures IsHolder(Apply(ttl, s, e), id) || ((e.Unlock? || e.Release?) && e.id == id)
  {
  }

  lemma AbandonedStays(ttl: nat, s: State, e: Event, id: RequestId)
    requires Enabled(s, e) && Abandons(s, e) && IsHolder(Apply(ttl, s, e), id)
    ensures IsHolder(s, id) && id != e.id && IsHolder(s, e.id)
  {
  }

  lemma LockIsHeldStep(ttl: nat, s: State, e: Event)
    requires Enabled(s, e) && Exclusive(s) && LockIsHeld(s)
    ensures LockIsHeld(Apply(ttl, s, e)) <==> !Abandons(s, e)
  {
    var t := Apply(ttl, s, e);
    LockStep(ttl, s, e);
    if Abandons(s, e) {
      assert IsHolder(s, e.id) && t.lock.Some?;
      forall id ensures !IsHolder(t, id) {
        if IsHolder(t, id) {
          AbandonedStays(ttl, s, e, id);
        }
      }
    } else if Acquires(s, e) {
      assert IsHolder(t, e.id);
    } else if t.lock.Some? {
      var id :| IsHolder(s, id);
      HolderStays(ttl, s, e, id);
    }
  }

  /** In every run whose requests are at the lock for less than its time to live, handlers that throw and stores and
      unlocks that fail included: the lock entry exists only while some request is at it, until the first request that
      goes away without giving it back; and that one leaves it behind. */
  lemma {:induction false} LockIsHeldExactly(ttl: nat, run: seq<State>, events: seq<Event>, d: nat, n: nat)
    requires IsBriefRun(ttl, run, events, d) && n <= |events| && d < 30_000
    requires forall i :: 0 <= i < n - 1 ==> !Abandons(run[i], events[i])
    ensures LockIsHeld(run[n]) <==> n == 0 || !Abandons(run[n - 1], events[n - 1])
  {
    if n > 0 {
      var j := n - 1;
      LockIsHeldExactly(ttl, run, events, d, j);
      assert j > 0 ==> !Abandons(run[j - 1], events[j - 1]);
      ExclusiveRun(ttl, run, events, d, j);
      LockIsHeldStep(ttl, run[j], events[j]);
    }
  }

  /** So a request that tries the lock gets to its handler exactly when nobody is at it, and else waits. */
  lemma FreeLockIsTaken(ttl: nat, run: seq<State>, events: seq<Event>, d: nat, n: nat)
    requires IsBriefRun(ttl, run, events, d) && n < |events| && d < 30_000 && events[n].TryLock?
    requires forall i :: 0 <= i < n ==> !Abandons(run[i], events[i])
    ensures var p := run[n + 1].requests[events[n].id].phase;
            if exists id :: IsHolder(run[n], id) then p == Waiting(run[n].now, run[n].now) else p == Handling(run[n].now)
  {
    assert n > 0 ==> !Abandons(run[n - 1], events[n - 1]);
    LockIsHeldExactly(ttl, run, events, d, n);
    ExclusiveRun(ttl, run, events, d, n);
    assert run[n + 1] == Apply(ttl, run[n], events[n]);
    if id :| IsHolder(run[n], id) {
      assert HeldAtMost(run[n], d);
    }
  }

  lemma {:induction false} LockExpires(ttl: nat, run: seq<State>, events: seq<Event>, n: nat)
    requires IsRun(ttl, run, events) && n <= |events|
    ensures run[n].lock.Some? ==>
              exists k :: 0 <= k < n && Acquires(run[k], events[k]) && run[n].lock.value == run[k].now + 30_000
  {
    if n > 0 {
      var j := n - 1;
      LockExpires(ttl, run, events, j);
      LockStep(ttl, run[j], events[j]);
      assert run[n] == Apply(ttl, run[j], events[j]);
      if run[n].lock.Some? && Acquires(run[j], events[j]) {
        assert run[n].lock.value == run[j].now + LOCK_TTL_MS;
      }
    }
  }

  /** And in every run at all, even after crashes: once nobody has taken the lock for its time to live, the next
      request to try it gets to its handler. */
  lemma AbandonedLockExpires(ttl: nat, run: seq<State>, events: seq<Event>, n: nat)
    requires IsRun(ttl, run, events) && n < |events| && events[n].TryLock?
    requires forall k :: 0 <= k < n && Acquires(run[k], events[k]) ==> run[k].now + 30_000 <= run[n].now
    ensures run[n + 1].requests[events[n].id].phase == Handling(run[n].now)
  {
    LockExpires(ttl, run, events, n);
    assert run[n + 1] == Apply(ttl, run[n], events[n]);
  }

  // ---- What a later request gets ----

  /** The response stored at `k` is there, with its expiry, until another is stored. */
  lemma {:induction false} StoredStays(ttl: nat, run: seq<State>, events: seq<Event>, k: nat, m: nat)
    requires IsRun(ttl, run, events) && k < m <= |events| && events[k].Store?
    requires forall i :: k < i < m ==> !events[i].Store?
    ensures var r := run[k].requests[events[k].id];
            r.phase.Storing?
            && run[m].response == Some(Cached(PayloadText(r.payload), r.phase.reply, run[k].now + ttl))
    decreases m
  {
    var j := m - 1;
    assert run[j + 1] == Apply(ttl, run[j], events[j]);
    if j > k {
      StoredStays(ttl, run, events, k, j);
      ResponseUnchanged(ttl, run[j], events[j]);
    }
  }

  lemma {:induction false} PayloadsRun(ttl: nat, run: seq<State>, events: seq<Event>, n: nat, id: RequestId)
    requires IsRun(ttl, run, events) && n <= |events| && id in run[n].requests
    ensures WellFormedPayload(run[n].requests[id].payload)
  {
    SoundRun(ttl, run, events, n);
  }

  /** A request that looks up while the latest stored response lives gets that very reply, if its payload is the one the
      response is for up to member order, and else a conflict; after its time to live it finds nothing. */
  lemma LookupExactly(ttl: nat, run: seq<State>, events: seq<Event>, k: nat, m: nat)
    requires IsRun(ttl, run, events) && k < m < |events| && events[k].Store? && events[m].Lookup?
    requires forall i :: k < i < m ==> !events[i].Store?
    ensures var stored, asking := run[k].requests[events[k].id], run[m].requests[events[m].id];
            run[m + 1].requests[events[m].id].phase ==
              if run[k].now + ttl <= run[m].now then Missed
              else if SamePayload(stored.payload, asking.payload) then Done(Replayed(stored.phase.reply))
              else Done(PayloadConflict)
  {
    StoredStays(ttl, run, events, k, m);
    PayloadsRun(ttl, run, events, k, events[k].id);
    PayloadsRun(ttl, run, events, m, events[m].id);
    PayloadTextExact(run[k].requests[events[k].id].payload, run[m].requests[events[m].id].payload);
    assert run[m + 1] == Apply(ttl, run[m], events[m]);
  }

  predicate HasStored(p: Phase, reply: Reply) {
    || (p.Unlocking? && p.reply == reply)
    || (p.Done? && p.outcome == Created(reply))
  }

  /** A request that ends as created has stored its reply for later ones. */
  lemma {:induction false} CreatedWasStored(ttl: nat, run: seq<State>, events: seq<Event>, n: nat, id: RequestId,
                                            reply: Reply)
    requires IsRun(ttl, run, events) && n <= |events|
    requires id in run[n].requests && HasStored(run[n].requests[id].phase, reply)
    ensures exists k :: 0 <= k < n && events[k] == Store(id) && run[k].requests[id].phase.Storing?
                        && run[k].requests[id].phase.reply == reply
  {
    if n > 0 {
      var j := n - 1;
      assert run[j + 1] == Apply(ttl, run[j], events[j]) && Enabled(run[j], events[j]);
      if id in run[j].requests && HasStored(run[j].requests[id].phase, reply) {
        CreatedWasStored(ttl, run, events, j, id, reply);
      } else {
        assert events[j] == Store(id);
      }
    }
  }

  /** A waiting request remembers when it was turned away from the lock. */
  lemma {:induction false} WaitingSince(ttl: nat, run: seq<State>, events: seq<Event>, k: nat, m: nat, id: RequestId)
    requires IsRun(ttl, run, events) && k < m <= |events| && events[k] == TryLock(id)
    requires id in run[m].requests && run[m].requests[id].phase.Waiting?
    ensures run[m].requests[id].phase.started == run[k].now
    decreases m
  {
    var j := m - 1;
    assert run[j + 1] == Apply(ttl, run[j], events[j]) && Enabled(run[j], events[j]);
    if j > k {
      StillWaiting(ttl, run, events, k, j, id);
      WaitingSince(ttl, run, events, k, j, id);
    }
  }

  /** It has been waiting ever since. */
  lemma {:induction false} StillWaiting(ttl: nat, run: seq<State>, events: seq<Event>, k: nat, j: nat, id: RequestId)
    requires IsRun(ttl, run, events) && k < j < |events| && events[k] == TryLock(id)
    requires id in run[j + 1].requests && run[j + 1].requests[id].phase.Waiting?
    ensures id in run[j].requests && run[j].requests[id].phase.Waiting?
    ensures run[j].requests[id].phase.started == run[j + 1].requests[id].phase.started
  {
    TriedBefore(ttl, run, events, k, j, id);
    assert run[j + 1] == Apply(ttl, run[j], events[j]) && Enabled(run[j], events[j]);
  }

  /** A request tries the lock once. */
  lemma {:induction false} TriedBefore(ttl: nat, run: seq<State>, events: seq<Event>, k: nat, j: nat, id: RequestId)
    requires IsRun(ttl, run, events) && k < j <= |events| && events[k] == TryLock(id)
    ensures id in run[j].requests && !run[j].requests[id].phase.Arriving? && !run[j].requests[id].phase.Missed?
    decreases j
  {
    var i := j - 1;
    assert run[i + 1] == Apply(ttl, run[i], events[i]) && Enabled(run[i], events[i]);
    if i > k {
      TriedBefore(ttl, run, events, k, i, id);
    }
  }

  /** A waiting request gives up at a poll exactly when it was turned away from the lock 8 seconds ago or more; before
      that it takes the response if it lives, by the same rule, and else waits on for 150 ms. */
  lemma PollExactly(ttl: nat, run: seq<State>, events: seq<Event>, k: nat, m: nat)
    requires IsRun(ttl, run, events) && k < m < |events| && events[m].Poll? && events[k] == TryLock(events[m].id)
    ensures var p := run[m + 1].requests[events[m].id].phase;
            if run[k].now + 8000 <= run[m].now then p == Done(StillInProgress)
            else if !ResponseLive(run[m]) then p == Waiting(run[k].now, run[m].now + 150)
            else
              var cached, asking := run[m].response.value, run[m].requests[events[m].id];
              p == Done(if cached.hash == PayloadText(asking.payload) then Replayed(cached.reply) else PayloadConflict)
  {
    assert Enabled(run[m], events[m]) && run[m + 1] == Apply(ttl, run[m], events[m]);
    WaitingSince(ttl, run, events, k, m, events[m].id);
  }

  // ---- What a replay means ----

  /** Request w's handler returned this reply, for a payload with this text. */
  ghost predicate Produced(s: State, w: RequestId, reply: Reply, hash: Text) {
    && (w, reply) in s.produced
    && w in s.requests
    && PayloadText(s.requests[w].payload) == hash
  }

  /** Some handler returned this reply for a payload with this text. */
  ghost predicate Known(s: State, reply: Reply, hash: Text) {
    exists w :: Produced(s, w, reply, hash)
  }

  /** Some handler returned a reply for a payload with a different text. */
  ghost predicate OtherKnown(s: State, hash: Text) {
    exists w, reply, other :: Produced(s, w, reply, other) && other != hash
  }

  ghost predicate PhaseSound(s: State, id: RequestId, p: Phase, hash: Text) {
    match p
    case Storing(_, reply) => Produced(s, id, reply, hash)
    case Unlocking(_, reply) => Produced(s, id, reply, hash)
    case Done(Created(reply)) => Produced(s, id, reply, hash)
    case Done(Replayed(reply)) => Known(s, reply, hash)
    case Done(PayloadConflict) => OtherKnown(s, hash)
    case _ => true
  }

  ghost predicate OutcomeSound(s: State, id: RequestId)
    requires id in s.requests
  {
    PhaseSound(s, id, s.requests[id].phase, PayloadText(s.requests[id].payload))
  }

  ghost predicate Sound(s: State) {
    && (forall id :: id in s.requests ==> WellFormedPayload(s.requests[id].payload))
    && (forall id {:trigger OutcomeSound(s, id)} :: id in s.requests ==> OutcomeSound(s, id))
    && (s.response.Some? ==> Known(s, s.response.value.reply, s.response.value.hash))
  }

  lemma RequestKept(ttl: nat, s: State, e: Event, id: RequestId)
    requires Enabled(s, e) && id in s.requests
    ensures id in Apply(ttl, s, e).requests && Apply(ttl, s, e).requests[id].payload == s.requests[id].payload
    ensures e.Tick? || e.id != id ==> Apply(ttl, s, e).requests[id] == s.requests[id]
  {
  }

  lemma ProducedGrows(ttl: nat, s: State, e: Event)
    requires Enabled(s, e)
    ensures s.produced <= Apply(ttl, s, e).produced
  {
  }

  lemma ProducedKept(ttl: nat, s: State, e: Event, w: RequestId, reply: Reply, hash: Text)
    requires Enabled(s, e) && Produced(s, w, reply, hash)
    ensures Produced(Apply(ttl, s, e), w, reply, hash)
  {
    RequestKept(ttl, s, e, w);
    ProducedGrows(ttl, s, e);
  }

  lemma PhaseSoundKept(ttl: nat, s: State, e: Event, id: RequestId, p: Phase, hash: Text)
    requires Enabled(s, e) && PhaseSound(s, id, p, hash)
    ensures PhaseSound(Apply(ttl, s, e), id, p, hash)
  {
    forall w, reply, hash | Produced(s, w, reply, hash) ensures Produced(Apply(ttl, s, e), w, reply, hash) {
      ProducedKept(ttl, s, e, w, reply, hash);
    }
  }

  lemma AnswerSound(s: State, id: RequestId, payload: Payload)
    requires Sound(s) && s.response.Some?
    ensures PhaseSound(s, id, Done(Answer(s.response.value, payload)), PayloadText(payload))
  {
    var cached := s.response.value;
    var w :| Produced(s, w, cached.reply, cached.hash);
  }

  /** The phase a request moves to is sound already in the state it leaves, except for a reply just produced. */
  lemma NextPhaseSound(ttl: nat, s: State, e: Event, id: RequestId)
    requires Enabled(s, e) && Sound(s) && id in s.requests && !e.HandlerReturns?
    ensures PhaseSound(s, id, Apply(ttl, s, e).requests[id].phase, PayloadText(s.requests[id].payload))
  {
    assert OutcomeSound(s, id);
    if e.Tick? || e.id != id {
      RequestKept(ttl, s, e, id);
    } else if (e.Lookup? || e.Poll?) && ResponseLive(s) {
      AnswerSound(s, id, s.requests[id].payload);
    } else {
    }
  }

  lemma HandlerReturnSound(ttl: nat, s: State, id: RequestId, reply: Reply)
    requires Enabled(s, HandlerReturns(id, reply))
    ensures OutcomeSound(Apply(ttl, s, HandlerReturns(id, reply)), id)
  {
    var t := Apply(ttl, s, HandlerReturns(id, reply));
    assert Produced(t, id, reply, PayloadText(t.requests[id].payload));
  }

  lemma OutcomeSoundStep(ttl: nat, s: State, e: Event, id: RequestId)
    requires Enabled(s, e) && Sound(s) && id in s.requests
    ensures id in Apply(ttl, s, e).requests && OutcomeSound(Apply(ttl, s, e), id)
  {
    RequestKept(ttl, s, e, id);
    var next := Apply(ttl, s, e).requests[id];
    var hash := PayloadText(s.requests[id].payload);
    if e.HandlerReturns? && e.id == id {
      HandlerReturnSound(ttl, s, id, e.reply);
    } else {
      if e.HandlerReturns? {
        assert OutcomeSound(s, id);
      } else {
        NextPhaseSound(ttl, s, e, id);
      }
      PhaseSoundKept(ttl, s, e, id, next.phase, hash);
    }
  }

  lemma ArrivalSound(ttl: nat, s: State, e: Event, id: RequestId)
    requires Enabled(s, e) && id !in s.requests && id in Apply(ttl, s, e).requests
    ensures OutcomeSound(Apply(ttl, s, e), id)
  {
  }

  lemma StoredSound(ttl: nat, s: State, id: RequestId)
    requires Enabled(s, Store(id)) && OutcomeSound(s, id)
    ensures var t := Apply(ttl, s, Store(id)); Known(t, t.response.value.reply, t.response.value.hash)
  {
    var r := s.requests[id];
    ProducedKept(ttl, s, Store(id), id, r.phase.reply, PayloadText(r.payload));
  }

  lemma ResponseUnchanged(ttl: nat, s: State, e: Event)
    requires Enabled(s, e) && !e.Store?
    ensures Apply(ttl, s, e).response == s.response
  {
  }

  lemma KnownKept(ttl: nat, s: State, e: Event, reply: Reply, hash: Text)
    requires Enabled(s, e) && Known(s, reply, hash)
    ensures Known(Apply(ttl, s, e), reply, hash)
  {
    var w :| Produced(s, w, reply, hash);
    ProducedKept(ttl, s, e, w, reply, hash);
  }

  lemma ResponseSoundStep(ttl: nat, s: State, e: Event)
    requires Enabled(s, e) && Sound(s) && Apply(ttl, s, e).response.Some?
    ensures var r := Apply(ttl, s, e).response.value; Known(Apply(ttl, s, e), r.reply, r.hash)
  {
    if e.Store? {
      assert OutcomeSound(s, e.id);
      StoredSound(ttl, s, e.id);
    } else {
      ResponseUnchanged(ttl, s, e);
      KnownKept(ttl, s, e, s.response.value.reply, s.response.value.hash);
    }
  }

  lemma PayloadsWellFormedStep(ttl: nat, s: State, e: Event, id: RequestId)
    requires Enabled(s, e) && Sound(s) && id in Apply(ttl, s, e).requests
    ensures WellFormedPayload(Apply(ttl, s, e).requests[id].payload)
  {
  }

  lemma SoundStep(ttl: nat, s: State, e: Event)
    requires Enabled(s, e) && Sound(s)
    ensures Sound(Apply(ttl, s, e))
  {
    var t := Apply(ttl, s, e);
    forall id | id in t.requests ensures WellFormedPayload(t.requests[id].payload) && OutcomeSound(t, id) {
      PayloadsWellFormedStep(ttl, s, e, id);
      if id in s.requests {
        OutcomeSoundStep(ttl, s, e, id);
      } else {
        ArrivalSound(ttl, s, e, id);
      }
    }
    if t.response.Some? {
      ResponseSoundStep(ttl, s, e);
    }
  }

  lemma {:induction false} SoundRun(ttl: nat, run: seq<State>, events: seq<Event>, n: nat)
    requires IsRun(ttl, run, events) && n <= |events|
    ensures Sound(run[n])
  {
    if n > 0 {
      SoundRun(ttl, run, events, n - 1);
      SoundStep(ttl, run[n - 1], events[n - 1]);
    }
  }

  /** A handler has returned this reply for an equal payload; one has returned a reply for another. */
  ghost predicate AnsweredSame(s: State, reply: Reply, payload: Payload) {
    exists w :: (w, reply) in s.produced && w in s.requests && SamePayload(s.requests[w].payload, payload)
  }

  ghost predicate AnsweredOther(s: State, payload: Payload) {
    exists w, reply ::
      (w, reply) in s.produced && w in s.requests && !SamePayload(s.requests[w].payload, payload)
  }

  lemma OutcomeExplained(s: State, id: RequestId)
    requires Sound(s) && id in s.requests
    ensures var r := s.requests[id];
            && (r.phase.Done? && r.phase.outcome.Replayed? ==> AnsweredSame(s, r.phase.outcome.reply, r.payload))
            && (r.phase == Done(PayloadConflict) ==> AnsweredOther(s, r.payload))
            && (r.phase.Done? && r.phase.outcome.Created? ==> (id, r.phase.outcome.reply) in s.produced)
  {
    assert OutcomeSound(s, id);
    var r := s.requests[id];
    if r.phase.Done? && r.phase.outcome.Replayed? {
      KnownSame(s, r.phase.outcome.reply, r.payload);
    } else if r.phase == Done(PayloadConflict) {
      OtherKnownDiffers(s, r.payload);
    }
  }

  /** In every run, with no assumption on time: a replayed reply is one that a handler returned for a payload equal
      to the replayed request's up to member order, and a request is refused as a conflict only after a handler
      returned a reply for a different payload. A request that ends as created returns the reply of its own handler. */
  lemma ReplaySound(ttl: nat, run: seq<State>, events: seq<Event>, n: nat, id: RequestId)
    requires IsRun(ttl, run, events) && n <= |events| && id in run[n].requests
    ensures var r := run[n].requests[id];
            && (r.phase.Done? && r.phase.outcome.Replayed? ==> AnsweredSame(run[n], r.phase.outcome.reply, r.payload))
            && (r.phase == Done(PayloadConflict) ==> AnsweredOther(run[n], r.payload))
            && (r.phase.Done? && r.phase.outcome.Created? ==> (id, r.phase.outcome.reply) in run[n].produced)
  {
    SoundRun(ttl, run, events, n);
    OutcomeExplained(run[n], id);
  }

  /** A request that ends as created returns the reply of its own handler. */
  lemma CreatedIsOwn(ttl: nat, run: seq<State>, events: seq<Event>, n: nat, id: RequestId, reply: Reply)
    requires IsRun(ttl, run, events) && n <= |events| && id in run[n].requests
    requires run[n].requests[id].phase == Done(Created(reply))
    ensures (id, reply) in run[n].produced
  {
    SoundRun(ttl, run, events, n);
    assert OutcomeSound(run[n], id);
  }

  lemma KnownSame(s: State, reply: Reply, payload: Payload)
    requires Sound(s) && WellFormedPayload(payload) && Known(s, reply, PayloadText(payload))
    ensures AnsweredSame(s, reply, payload)
  {
    var w :| Produced(s, w, reply, PayloadText(payload));
    PayloadTextExact(s.requests[w].payload, payload);
  }

  lemma OtherKnownDiffers(s: State, payload: Payload)
    requires Sound(s) && WellFormedPayload(payload) && OtherKnown(s, PayloadText(payload))
    ensures AnsweredOther(s, payload)
  {
    var w, reply, other :| Produced(s, w, reply, other) && other != PayloadText(payload);
    PayloadTextExact(s.requests[w].payload, payload);
    assert (w, reply) in s.produced;
  }

  // ---- How often a handler runs ----

  ghost predicate HasMissed(s: State, id: RequestId) {
    id in s.requests && s.requests[id].phase.Missed?
  }

  /** A stored response never outlives the time to live of a response stored now. */
  ghost predicate ExpiryBounded(ttl: nat, s: State) {
    s.response.Some? ==> s.response.value.expiresAt <= s.now + ttl
  }

  lemma {:induction false} ExpiryBoundedRun(ttl: nat, run: seq<State>, events: seq<Event>, n: nat)
    requires IsRun(ttl, run, events) && n <= |events|
    ensures ExpiryBounded(ttl, run[n])
  {
    if n > 0 {
      ExpiryBoundedRun(ttl, run, events, n - 1);
      assert run[n] == Apply(ttl, run[n - 1], events[n - 1]);
    }
  }

  /** While the response found in start lives, only requests already past their lookup can come to hold the lock. */
  ghost predicate Confined(ttl: nat, start: State, s: State)
    requires start.response.Some?
  {
    && start.now <= s.now
    && s.response.Some? && start.response.value.expiresAt <= s.response.value.expiresAt
    && (forall id :: IsHolder(s, id) ==> IsHolder(start, id) || HasMissed(start, id))
    && (forall id :: HasMissed(s, id) ==> HasMissed(start, id))
  }

  lemma ConfinedStep(ttl: nat, start: State, s: State, e: Event)
    requires Enabled(s, e) && ResponseLive(start) && ExpiryBounded(ttl, start)
    requires Confined(ttl, start, s) && s.now < start.response.value.expiresAt
    ensures Confined(ttl, start, Apply(ttl, s, e))
  {
    var t := Apply(ttl, s, e);
    forall id | IsHolder(t, id) ensures IsHolder(s, id) || HasMissed(s, id) {
    }
    forall id | HasMissed(t, id) ensures HasMissed(s, id) {
    }
  }

  lemma {:induction false} ConfinedRun(ttl: nat, start: State, run: seq<State>, events: seq<Event>, n: nat)
    requires IsRunFrom(ttl, start, run, events) && n <= |events|
    requires ResponseLive(start) && ExpiryBounded(ttl, start)
    requires forall i :: 0 <= i <= |events| ==> run[i].now < start.response.value.expiresAt
    ensures Confined(ttl, start, run[n])
  {
    if n > 0 {
      ConfinedRun(ttl, start, run, events, n - 1);
      ConfinedStep(ttl, start, run[n - 1], events[n - 1]);
    }
  }

  /** A request that has not done its lookup when a response is live never runs the handler before that response
      expires, whatever the others do. */
  lemma LateRequestNeverRuns(ttl: nat, start: State, run: seq<State>, events: seq<Event>, n: nat, id: RequestId)
    requires Reachable(ttl, start) && ResponseLive(start)
    requires IsRunFrom(ttl, start, run, events) && n <= |events|
    requires forall i :: 0 <= i <= |events| ==> run[i].now < start.response.value.expiresAt
    requires id in start.requests ==> start.requests[id].phase.Arriving?
    ensures !IsHolder(run[n], id) && ResponseLive(run[n])
  {
    var run0, events0 :| IsRun(ttl, run0, events0) && run0[|events0|] == start;
    ExpiryBoundedRun(ttl, run0, events0, |events0|);
    ConfinedRun(ttl, start, run, events, n);
  }

  /** The handler runs again for request id before the response stored in start expires. */
  ghost predicate RunsAgain(ttl: nat, start: State, run: seq<State>, events: seq<Event>, n: nat, id: RequestId)
    requires start.response.Some?
  {
    && IsRunFrom(ttl, start, run, events) && n <= |events|
    && (forall i :: 0 <= i <= |events| ==> run[i].now < start.response.value.expiresAt)
    && IsHolder(run[n], id) && !IsHolder(start, id)
  }

  /** The response is not looked up again once the lock is taken. When a response has just been stored, the handler
      can run again during its lifetime exactly when some request has already missed it and not yet tried the lock. */
  lemma RunsAgainExactly(ttl: nat, start: State, storer: RequestId)
    requires Reachable(ttl, start) && ResponseLive(start)
    requires storer in start.requests && start.requests[storer].phase.Unlocking?
    ensures (exists run, events, n, id :: RunsAgain(ttl, start, run, events, n, id))
            <==> (exists id :: HasMissed(start, id))
  {
    if id :| HasMissed(start, id) {
      var s1 := Apply(ttl, start, Unlock(storer));
      var s2 := Apply(ttl, s1, TryLock(id));
      assert RunsAgain(ttl, start, [start, s1, s2], [Unlock(storer), TryLock(id)], 2, id);
    }
    var run0, events0 :| IsRun(ttl, run0, events0) && run0[|events0|] == start;
    ExpiryBoundedRun(ttl, run0, events0, |events0|);
    forall run, events, n, id | RunsAgain(ttl, start, run, events, n, id) ensures HasMissed(start, id) {
      ConfinedRun(ttl, start, run, events, n);
    }
  }

  lemma FirstHandles(ttl: nat, payload: Payload, first: Reply)
    returns (run: seq<State>, events: seq<Event>)
    requires WellFormedPayload(payload)
    ensures IsRun(ttl, run, events) && forall i :: 0 <= i <= |events| ==> HeldAtMost(run[i], 0)
    ensures run[|events|] == Pair(payload, None, Some(LOCK_TTL_MS), Storing(0, first), Missed, {(1, first)})
  {
    var lock := Some(LOCK_TTL_MS);
    run, events := BothMiss(ttl, payload);
    EnterPair(payload, None, None, Missed, Missed, {}, Handling(0));
    run, events := ExtendPairRun(ttl, payload, run, events, TryLock(1),
                                 Pair(payload, None, lock, Handling(0), Missed, {}));
    EnterPair(payload, None, lock, Handling(0), Missed, {}, Storing(0, first));
    run, events := ExtendPairRun(ttl, payload, run, events, HandlerReturns(1, first),
                                 Pair(payload, None, lock, Storing(0, first), Missed, {(1, first)}));
  }

  /** The first of the two requests runs to its end while the second stands between its lookup and the lock. */
  lemma FirstRunsAlone(ttl: nat, payload: Payload, first: Reply)
    returns (run: seq<State>, events: seq<Event>)
    requires WellFormedPayload(payload)
    ensures IsRun(ttl, run, events) && forall i :: 0 <= i <= |events| ==> HeldAtMost(run[i], 0)
    ensures run[|events|] == Pair(payload, Some(Cached(PayloadText(payload), first, ttl)), None,
                                  Done(Created(first)), Missed, {(1, first)})
  {
    var cached := Some(Cached(PayloadText(payload), first, ttl));
    var lock := Some(LOCK_TTL_MS);
    run, events := FirstHandles(ttl, payload, first);
    EnterPair(payload, None, lock, Storing(0, first), Missed, {(1, first)}, Unlocking(0, first));
    run, events := ExtendPairRun(ttl, payload, run, events, Store(1),
                                 Pair(payload, cached, lock, Unlocking(0, first), Missed, {(1, first)}));
    EnterPair(payload, cached, lock, Unlocking(0, first), Missed, {(1, first)}, Done(Created(first)));
    run, events := ExtendPairRun(ttl, payload, run, events, Unlock(1),
                                 Pair(payload, cached, None, Done(Created(first)), Missed, {(1, first)}));
  }

  /** So the handler is not run at most once per key: here two requests with one payload both run it, one after the
      other and well within the lock's time to live. */
  lemma HandlerRunsTwice(ttl: nat, payload: Payload, first: Reply, second: Reply)
    returns (run: seq<State>, events: seq<Event>)
    requires WellFormedPayload(payload)
    ensures IsRun(ttl, run, events)
    ensures forall i :: 0 <= i <= |events| ==> HeldAtMost(run[i], 0)
    ensures run[|events|].produced == {(1, first), (2, second)}
  {
    var cached := Some(Cached(PayloadText(payload), first, ttl));
    var lock := Some(LOCK_TTL_MS);
    var done := Done(Created(first));
    run, events := FirstRunsAlone(ttl, payload, first);
    EnterPair(payload, cached, None, done, Missed, {(1, first)}, Handling(0));
    run, events := ExtendPairRun(ttl, payload, run, events, TryLock(2),
                                 Pair(payload, cached, lock, done, Handling(0), {(1, first)}));
    EnterPair(payload, cached, lock, done, Handling(0), {(1, first)}, Storing(0, second));
    run, events := ExtendPairRun(ttl, payload, run, events, HandlerReturns(2, second),
                                 Pair(payload, cached, lock, done, Storing(0, second), {(1, first), (2, second)}));
  }

  // ---- Waiting ----

  /** A waiter sleeps at least one poll interval between lookups and stops looking after the timeout. */
  ghost predicate PollsBounded(r: Request) {
    && WAIT_POLL_MS * r.polls < WAIT_TIMEOUT_MS + WAIT_POLL_MS
    && (r.phase.Waiting? ==> r.phase.started + WAIT_POLL_MS * r.polls <= r.phase.wakeAt)
    && (!r.phase.Waiting? && !r.phase.Done? ==> r.polls == 0)
  }

  ghost predicate AllPollsBounded(s: State) {
    forall id :: id in s.requests ==> PollsBounded(s.requests[id])
  }

  lemma PollsBoundedStep(ttl: nat, s: State, e: Event, id: RequestId)
    requires Enabled(s, e) && AllPollsBounded(s) && id in Apply(ttl, s, e).requests
    ensures PollsBounded(Apply(ttl, s, e).requests[id])
  {
    if id in s.requests && (e.Tick? || e.id != id) {
      RequestKept(ttl, s, e, id);
    }
  }

  lemma {:induction false} PollsBoundedRun(ttl: nat, run: seq<State>, events: seq<Event>, n: nat)
    requires IsRun(ttl, run, events) && n <= |events|
    ensures AllPollsBounded(run[n])
  {
    if n > 0 {
      PollsBoundedRun(ttl, run, events, n - 1);
      forall id | id in run[n].requests ensures PollsBounded(run[n].requests[id]) {
        PollsBoundedStep(ttl, run[n - 1], events[n - 1], id);
      }
    }
  }

  /** A waiter makes at most 54 lookups. */
  lemma WaiterLookups(ttl: nat, run: seq<State>, events: seq<Event>, n: nat, id: RequestId)
    requires IsRun(ttl, run, events) && n <= |events| && id in run[n].requests
    ensures run[n].requests[id].polls <= 54
  {
    PollsBoundedRun(ttl, run, events, n);
    assert PollsBounded(run[n].requests[id]);
  }

  /** The waiting loop by itself: clock gives the time of each loop test and of each wake-up, answers the reply to
      each lookup. The loop returns the first response found before the timeout, and gives up only after it. */
  method WaitForResponse<T>(clock: nat -> nat, answers: nat -> Option<T>) returns (found: Option<T>, lookups: nat)
    requires forall i: nat :: clock(i) + 150 <= clock(i + 1)
    ensures lookups <= 54
    ensures found.Some? ==> && lookups > 0 && found == answers(lookups - 1)
                            && clock(lookups - 1) - clock(0) < 8_000
                            && forall i :: 0 <= i < lookups - 1 ==> answers(i).None?
    ensures found.None? ==> && clock(lookups) - clock(0) >= 8_000
                            && forall i :: 0 <= i < lookups ==> answers(i).None?
  {
    var started := clock(0);
    lookups := 0;
    while clock(lookups) - started < WAIT_TIMEOUT_MS
      invariant forall i :: 0 <= i < lookups ==> answers(i).None?
      invariant started + WAIT_POLL_MS * lookups <= clock(lookups)
      invariant WAIT_POLL_MS * lookups < WAIT_TIMEOUT_MS + WAIT_POLL_MS
      decreases WAIT_TIMEOUT_MS - (clock(lookups) - started)
    {
      var cached := answers(lookups);
      lookups := lookups + 1;
      if cached.Some? {
        return cached, lookups;
      }
      assert clock(lookups - 1) + WAIT_POLL_MS <= clock(lookups - 1 + 1);
    }
    return None, lookups;
  }
}
