/** The Redis commands the throttler sends, on a counter that may carry an expiry time. */
module RedisCounter {
  import opened Wrappers

  datatype Counter = Counter(value: nat, expiresAt: Option<nat>)

  predicate Live(c: Option<Counter>, now: nat) {
    c.Some? && (c.value.expiresAt.None? || now < c.value.expiresAt.value)
  }

  /** INCR: a missing or expired key starts at 1 without an expiry. */
  function Incr(c: Option<Counter>, now: nat): Counter {
    if Live(c, now) then c.value.(value := c.value.value + 1) else Counter(1, None)
  }

  /** PEXPIRE: no effect on a missing key; a non-positive time deletes the key. */
  function Pexpire(c: Option<Counter>, now: nat, ttl: int): Option<Counter> {
    if !Live(c, now) then c
    else if ttl <= 0 then None
    else Some(c.value.(expiresAt := Some(now + ttl)))
  }

  /** PTTL: -2 for a missing key, -1 for a key without expiry. */
  function Pttl(c: Option<Counter>, now: nat): int {
    if !Live(c, now) then -2
    else if c.value.expiresAt.None? then -1
    else c.value.expiresAt.value - now
  }
}

/** What both paths of the throttler share. */
module ThrottlerCommon {

  datatype Record = Record(totalHits: int, timeToExpire: nat, isBlocked: bool, timeToBlockExpire: nat)

  function ResolveBlockDuration(blockDuration: int, ttl: int): (ms: int)
    ensures ms > 0
  {
    if blockDuration > 0 then blockDuration else if ttl > 0 then ttl else 1000
  }

  /** Math.ceil(ms / 1000), and 0 for nothing left: the fewest whole seconds that cover the time. */
  function ToSeconds(ms: int): (s: nat)
    ensures ms <= 1000 * s && (s > 0 ==> 1000 * (s - 1) < ms)
  {
    if ms <= 0 then 0 else (ms + 999) / 1000
  }

  function HitKey(throttler: string, key: string): string { "throttle:" + throttler + ":hits:" + key }

  function BlockKey(throttler: string, key: string): string { "throttle:" + throttler + ":block:" + key }

  lemma {:induction false} ColonFreePrefix(a: string, b: string, x: string, y: string)
    requires ':' !in a && ':' !in b && a + ":" + x == b + ":" + y
    ensures a == b && x == y
  {
    var l, r := a + ":" + x, b + ":" + y;
    assert l[0] == r[0];
    if a != [] && b != [] {
      assert l[1..] == a[1..] + ":" + x && r[1..] == b[1..] + ":" + y;
      ColonFreePrefix(a[1..], b[1..], x, y);
      assert a == [a[0]] + a[1..] && b == [b[0]] + b[1..];
    } else {
      assert l[1..] == x && r[1..] == y;
    }
  }

  /** Throttler names have no colon, so each throttler and client gets two Redis keys of its own. */
  lemma KeysSeparate(t: string, k: string, t': string, k': string)
    requires ':' !in t && ':' !in t'
    ensures HitKey(t, k) == HitKey(t', k') ==> t == t' && k == k'
    ensures BlockKey(t, k) == BlockKey(t', k') ==> t == t' && k == k'
    ensures HitKey(t, k) != BlockKey(t', k')
  {
    SplitKey(t, "hits", k);
    SplitKey(t', "hits", k');
    SplitKey(t, "block", k);
    SplitKey(t', "block", k');
    if HitKey(t, k) == HitKey(t', k') {
      ColonFreePrefix(t, t', "hits:" + k, "hits:" + k');
      assert ("hits:" + k)[5..] == k && ("hits:" + k')[5..] == k';
    }
    if BlockKey(t, k) == BlockKey(t', k') {
      ColonFreePrefix(t, t', "block:" + k, "block:" + k');
      assert ("block:" + k)[6..] == k && ("block:" + k')[6..] == k';
    }
    if HitKey(t, k) == BlockKey(t', k') {
      assert ("hits:" + k)[0] != ("block:" + k')[0];
      ColonFreePrefix(t, t', "hits:" + k, "block:" + k');
    }
  }

  lemma SplitKey(t: string, kind: string, k: string)
    ensures ("throttle:" + t + ":" + kind + ":" + k)[9..] == t + ":" + (kind + ":" + k)
    ensures kind == "hits" ==> HitKey(t, k)[9..] == t + ":" + ("hits:" + k)
    ensures kind == "block" ==> BlockKey(t, k)[9..] == t + ":" + ("block:" + k)
  {
  }
}

/** The Redis path under concurrency: any number of calls for one throttler and client, each sending its commands one
    at a time, interleaved with the commands of the others and with the passing of time. */
module RedisThrottler {
  import opened Wrappers
  import opened RedisCounter
  import opened ThrottlerCommon

  type CallId = nat

  datatype Config = Config(ttl: int, limit: int, blockDuration: int)

  /** The reply to a call's INCR, and the lifetime of the hit key it counted in (lifetimes are numbered from 1). */
  datatype Ticket = NoTicket | Ticket(lifetime: nat, hits: nat)

  datatype Phase =
    | ReadBlock
    | BlockedGet(blockTtl: int)
    | BlockedTtl(blockTtl: int, hits: int)
    | Increment
    | Expire
    | ReadTtl
    | Repair
    | Block(hitTtl: int)
    | Done(record: Record)

  /** A call that crashes or loses its connection keeps its phase but takes no further step. */
  datatype Call = Call(phase: Phase, ticket: Ticket, alive: bool)

  /** lifetime and issued are history variables: the number of the current lifetime and the tickets given in it. */
  datatype State = State(
    now: nat,
    hits: Option<Counter>,
    block: Option<nat>,
    calls: map<CallId, Call>,
    lifetime: nat,
    issued: nat)

  datatype Event =
    | Arrive(id: CallId)
    | Step(id: CallId)
    | Abandon(id: CallId)
    | Tick(to: nat)

  const Initial := State(0, None, None, map[], 0, 0)

  predicate Enabled(s: State, e: Event) {
    match e
    case Arrive(id) => id !in s.calls
    case Step(id) => id in s.calls && s.calls[id].alive && !s.calls[id].phase.Done?
    case Abandon(id) => id in s.calls && s.calls[id].alive
    case Tick(to) => s.now < to
  }

  function Enter(s: State, id: CallId, p: Phase): State
    requires id in s.calls
  {
    s.(calls := s.calls[id := s.calls[id].(phase := p)])
  }

  /** PTTL on the block key, which never exists without an expiry. */
  function BlockTtl(s: State): int {
    if s.block.Some? && s.now < s.block.value then s.block.value - s.now else -2
  }

  /** The synchronous part after the hit key's time to live is known. */
  function Decide(cfg: Config, hits: nat, hitTtl: int): Phase {
    if hits > cfg.limit then Block(hitTtl) else Done(Record(hits, ToSeconds(hitTtl), false, 0))
  }

  function TicketHits(t: Ticket): nat {
    if t.Ticket? then t.hits else 0
  }

  /** INCR, with the ticket it hands out. */
  function IncrementStep(s: State, id: CallId): State
    requires id in s.calls
  {
    var counter := Incr(s.hits, s.now);
    var lifetime := if Live(s.hits, s.now) then s.lifetime else s.lifetime + 1;
    var issued := if Live(s.hits, s.now) then s.issued + 1 else 1;
    var next := if counter.value == 1 then Expire else ReadTtl;
    s.(hits := Some(counter), lifetime := lifetime, issued := issued,
       calls := s.calls[id := s.calls[id].(phase := next, ticket := Ticket(lifetime, counter.value))])
  }

  /** The next command of a call. */
  function CallStep(cfg: Config, s: State, id: CallId): State
    requires Enabled(s, Step(id))
  {
    var call := s.calls[id];
    match call.phase
    case ReadBlock => Enter(s, id, if BlockTtl(s) > 0 then BlockedGet(BlockTtl(s)) else Increment)
    case BlockedGet(blockTtl) =>
      var hits := if Live(s.hits, s.now) && s.hits.value.value != 0 then s.hits.value.value else cfg.limit + 1;
      Enter(s, id, BlockedTtl(blockTtl, hits))
    case BlockedTtl(blockTtl, hits) =>
      Enter(s, id, Done(Record(hits, ToSeconds(Pttl(s.hits, s.now)), true, ToSeconds(blockTtl))))
    case Increment => IncrementStep(s, id)
    case Expire => Enter(s, id, ReadTtl).(hits := Pexpire(s.hits, s.now, cfg.ttl))
    case ReadTtl =>
      var hitTtl := Pttl(s.hits, s.now);
      Enter(s, id, if hitTtl < 0 then Repair else Decide(cfg, TicketHits(call.ticket), hitTtl))
    case Repair =>
      Enter(s, id, Decide(cfg, TicketHits(call.ticket), cfg.ttl)).(hits := Pexpire(s.hits, s.now, cfg.ttl))
    case Block(hitTtl) =>
      var blockMs := ResolveBlockDuration(cfg.blockDuration, cfg.ttl);
      Enter(s, id, Done(Record(TicketHits(call.ticket), ToSeconds(hitTtl), true, ToSeconds(blockMs)))).(
        block := Some(s.now + blockMs))
    case Done(_) => s
  }

  function Apply(cfg: Config, s: State, e: Event): State
    requires Enabled(s, e)
  {
    match e
    case Arrive(id) => s.(calls := s.calls[id := Call(ReadBlock, NoTicket, true)])
    case Step(id) => CallStep(cfg, s, id)
    case Abandon(id) => s.(calls := s.calls[id := s.calls[id].(alive := false)])
    case Tick(to) => s.(now := to)
  }

  ghost predicate IsRun(cfg: Config, run: seq<State>, events: seq<Event>) {
    && |run| == |events| + 1
    && run[0] == Initial
    && forall i :: 0 <= i < |events| ==> Enabled(run[i], events[i]) && run[i + 1] == Apply(cfg, run[i], events[i])
  }

  // ---- Tickets ----

  predicate HasTicket(s: State, id: CallId) {
    id in s.calls && s.calls[id].ticket.Ticket?
  }

  /** A call let through: it finished and was not blocked. */
  predicate LetThrough(s: State, id: CallId) {
    id in s.calls && s.calls[id].phase.Done? && !s.calls[id].phase.record.isBlocked
  }

  ghost predicate TicketValid(s: State, id: CallId)
    requires HasTicket(s, id)
  {
    var t := s.calls[id].ticket;
    1 <= t.hits && t.lifetime <= s.lifetime && (t.lifetime == s.lifetime ==> t.hits <= s.issued)
  }

  ghost predicate TicketsValid(s: State) {
    && (s.hits.Some? ==> s.hits.value.value == s.issued)
    && (forall id :: HasTicket(s, id) ==> TicketValid(s, id))
    && (forall i, j :: HasTicket(s, i) && HasTicket(s, j) && s.calls[i].ticket == s.calls[j].ticket ==> i == j)
  }

  predicate Increments(s: State, e: Event) {
    e.Step? && e.id in s.calls && s.calls[e.id].phase.Increment?
  }

  /** Only INCR gives out tickets and starts lifetimes; other commands leave the counter's value alone. */
  lemma OtherStepsKeepTickets(cfg: Config, s: State, e: Event)
    requires Enabled(s, e) && !Increments(s, e)
    ensures var t := Apply(cfg, s, e);
            && t.lifetime == s.lifetime && t.issued == s.issued
            && (t.hits.Some? ==> s.hits.Some? && t.hits.value.value == s.hits.value.value)
            && (forall id :: HasTicket(t, id) <==> HasTicket(s, id))
            && (forall id :: HasTicket(s, id) ==> t.calls[id].ticket == s.calls[id].ticket)
  {
  }

  lemma TicketsValidStep(cfg: Config, s: State, e: Event)
    requires Enabled(s, e) && TicketsValid(s)
    ensures TicketsValid(Apply(cfg, s, e))
  {
    var t := Apply(cfg, s, e);
    if Increments(s, e) {
      assert t == IncrementStep(s, e.id);
      forall id | HasTicket(t, id) ensures TicketValid(t, id) {
        if id != e.id { assert TicketValid(s, id); }
      }
      forall i | HasTicket(t, i) && i != e.id ensures t.calls[i].ticket != t.calls[e.id].ticket {
        assert TicketValid(s, i);
      }
    } else {
      OtherStepsKeepTickets(cfg, s, e);
      forall id | HasTicket(t, id) ensures TicketValid(t, id) {
        assert TicketValid(s, id);
      }
    }
  }

  ghost predicate CallConsistent(cfg: Config, s: State, id: CallId)
    requires id in s.calls
  {
    var call := s.calls[id];
    && (call.phase.Expire? || call.phase.ReadTtl? || call.phase.Repair? || call.phase.Block? ==> call.ticket.Ticket?)
    && (LetThrough(s, id) ==> call.ticket.Ticket? && call.ticket.hits <= cfg.limit)
  }

  lemma CallConsistentStep(cfg: Config, s: State, e: Event, id: CallId)
    requires Enabled(s, e) && id in Apply(cfg, s, e).calls
    requires id in s.calls ==> CallConsistent(cfg, s, id)
    ensures CallConsistent(cfg, Apply(cfg, s, e), id)
  {
  }

  lemma {:induction false} TicketsRun(cfg: Config, run: seq<State>, events: seq<Event>, n: nat)
    requires IsRun(cfg, run, events) && n <= |events|
    ensures TicketsValid(run[n])
    ensures forall id :: id in run[n].calls ==> CallConsistent(cfg, run[n], id)
  {
    if n > 0 {
      TicketsRun(cfg, run, events, n - 1);
      TicketsValidStep(cfg, run[n - 1], events[n - 1]);
      forall id | id in run[n].calls ensures CallConsistent(cfg, run[n], id) {
        CallConsistentStep(cfg, run[n - 1], events[n - 1], id);
      }
    }
  }

  /** The calls that were let through with a ticket of the given lifetime. */
  ghost function LetThroughIn(s: State, lifetime: nat): set<CallId> {
    set id | id in s.calls && LetThrough(s, id) && s.calls[id].ticket.Ticket? && s.calls[id].ticket.lifetime == lifetime
  }

  /** Calls with different numbers between 1 and n are at most n. */
  lemma {:induction false} DistinctNumbersBounded(ids: set<CallId>, number: map<CallId, nat>, n: nat)
    requires forall id :: id in ids ==> id in number && 1 <= number[id] <= n
    requires forall i, j :: i in ids && j in ids && number[i] == number[j] ==> i == j
    ensures |ids| <= n
    decreases n
  {
    if id :| id in ids && number[id] == n {
      DistinctNumbersBounded(ids - {id}, number, n - 1);
    } else if n > 0 {
      DistinctNumbersBounded(ids, number, n - 1);
    } else {
      assert ids == {};
    }
  }

  /** In every interleaving, one lifetime of the hit key lets at most limit calls through. */
  lemma LimitPerLifetime(cfg: Config, run: seq<State>, events: seq<Event>, n: nat, lifetime: nat)
    requires IsRun(cfg, run, events) && n <= |events|
    ensures |LetThroughIn(run[n], lifetime)| <= if cfg.limit > 0 then cfg.limit else 0
    ensures forall id :: LetThrough(run[n], id) ==> exists g :: id in LetThroughIn(run[n], g)
  {
    TicketsRun(cfg, run, events, n);
    var s := run[n];
    var ids := LetThroughIn(s, lifetime);
    var number := map id | id in ids :: s.calls[id].ticket.hits;
    forall id | id in ids ensures 1 <= number[id] <= cfg.limit {
      assert CallConsistent(cfg, s, id) && HasTicket(s, id) && TicketValid(s, id);
    }
    forall i, j | i in ids && j in ids && number[i] == number[j] ensures i == j {
      assert HasTicket(s, i) && HasTicket(s, j) && s.calls[i].ticket == s.calls[j].ticket;
    }
    DistinctNumbersBounded(ids, number, if cfg.limit > 0 then cfg.limit else 0);
    forall id | LetThrough(s, id) ensures exists g :: id in LetThroughIn(s, g) {
      assert CallConsistent(cfg, s, id);
      assert id in LetThroughIn(s, s.calls[id].ticket.lifetime);
    }
  }

  // ---- Who is let through ----

  /** The holder of a ticket has counted, and no call that has not may be let through: what a call that is done
      reports. */
  ghost predicate Verdict(cfg: Config, call: Call) {
    && (call.phase.ReadBlock? || call.phase.BlockedGet? || call.phase.BlockedTtl? || call.phase.Increment?
        ==> call.ticket.NoTicket?)
    && (call.phase.Expire? || call.phase.ReadTtl? || call.phase.Repair? ==> call.ticket.Ticket?)
    && (call.phase.Block? ==> call.ticket.Ticket? && call.ticket.hits > cfg.limit)
    && (call.phase.Done? ==>
          if call.ticket.Ticket? then
            && call.phase.record.totalHits == call.ticket.hits
            && (call.phase.record.isBlocked <==> call.ticket.hits > cfg.limit)
          else call.phase.record.isBlocked)
  }

  /** The tickets of the current lifetime are numbered without a gap. */
  ghost predicate NoGap(s: State) {
    forall n {:trigger Issued(s, n)} :: 1 <= n <= s.issued ==> Issued(s, n)
  }

  ghost predicate Issued(s: State, n: nat) {
    exists id :: HasTicket(s, id) && s.calls[id].ticket == Ticket(s.lifetime, n)
  }

  lemma NoGapStep(cfg: Config, s: State, e: Event)
    requires Enabled(s, e) && TicketsValid(s) && NoGap(s)
    requires forall id :: id in s.calls ==> Verdict(cfg, s.calls[id])
    ensures NoGap(Apply(cfg, s, e))
  {
    var t := Apply(cfg, s, e);
    if Increments(s, e) {
      assert t == IncrementStep(s, e.id);
      IncrementGoesOn(cfg, s, e.id);
    } else {
      OtherStepsKeepTickets(cfg, s, e);
      forall n | 1 <= n <= t.issued ensures Issued(t, n) {
        assert Issued(s, n);
        var id :| HasTicket(s, id) && s.calls[id].ticket == Ticket(s.lifetime, n);
        assert HasTicket(t, id);
      }
    }
  }

  lemma {:induction false} NoGapRun(cfg: Config, run: seq<State>, events: seq<Event>, n: nat)
    requires IsRun(cfg, run, events) && n <= |events|
    ensures NoGap(run[n]) && forall id :: id in run[n].calls ==> Verdict(cfg, run[n].calls[id])
  {
    if n > 0 {
      NoGapRun(cfg, run, events, n - 1);
      TicketsRun(cfg, run, events, n - 1);
      NoGapStep(cfg, run[n - 1], events[n - 1]);
      forall id | id in run[n].calls ensures Verdict(cfg, run[n].calls[id]) {
        VerdictStep(cfg, run[n - 1], events[n - 1], id);
      }
    }
  }

  lemma VerdictStep(cfg: Config, s: State, e: Event, id: CallId)
    requires Enabled(s, e) && id in Apply(cfg, s, e).calls
    requires id in s.calls ==> Verdict(cfg, s.calls[id])
    ensures Verdict(cfg, Apply(cfg, s, e).calls[id])
  {
  }

  /** The ticket given by INCR is the next number of its lifetime, or the first of a new one. */
  lemma IncrementGoesOn(cfg: Config, s: State, id: CallId)
    requires Enabled(s, Step(id)) && s.calls[id].phase.Increment? && TicketsValid(s) && NoGap(s)
    requires s.calls[id].ticket.NoTicket?
    ensures NoGap(IncrementStep(s, id))
  {
    var t := IncrementStep(s, id);
    forall n | 1 <= n <= t.issued ensures Issued(t, n) {
      if n == t.issued {
        assert HasTicket(t, id) && t.calls[id].ticket == Ticket(t.lifetime, n);
      } else {
        assert Issued(s, n);
        var other :| HasTicket(s, other) && s.calls[other].ticket == Ticket(s.lifetime, n);
        assert HasTicket(t, other);
      }
    }
  }

  /** In every interleaving: a call that is done was let through exactly when it has counted and its ticket is within
      the limit; a counted call reports its ticket; and the tickets of the lifetime are numbered from 1 without a gap,
      each for one call. So the first calls up to the limit pass, and no others. */
  lemma LetThroughExactly(cfg: Config, run: seq<State>, events: seq<Event>, n: nat, id: CallId)
    requires IsRun(cfg, run, events) && n <= |events| && id in run[n].calls && run[n].calls[id].phase.Done?
    ensures var call := run[n].calls[id];
            && (!call.phase.record.isBlocked <==> call.ticket.Ticket? && call.ticket.hits <= cfg.limit)
            && (call.ticket.Ticket? ==> call.phase.record.totalHits == call.ticket.hits)
    ensures forall k: nat :: 1 <= k <= run[n].issued ==>
              exists i :: HasTicket(run[n], i) && run[n].calls[i].ticket == Ticket(run[n].lifetime, k)
                          && forall j :: HasTicket(run[n], j) && run[n].calls[j].ticket == run[n].calls[i].ticket ==> j == i
  {
    NoGapRun(cfg, run, events, n);
    TicketsRun(cfg, run, events, n);
    forall k: nat | 1 <= k <= run[n].issued
      ensures exists i :: HasTicket(run[n], i) && run[n].calls[i].ticket == Ticket(run[n].lifetime, k)
                          && forall j :: HasTicket(run[n], j) && run[n].calls[j].ticket == run[n].calls[i].ticket ==> j == i
    {
      assert Issued(run[n], k);
    }
  }

  // ---- How long a block lasts ----

  /** This step blocks the client. */
  predicate Blocks(s: State, e: Event) { e.Step? && e.id in s.calls && s.calls[e.id].phase.Block? }

  /** The configured block time if there is one, else the window, else a second. */
  ghost predicate IsBlockTime(cfg: Config, d: int) {
    && (cfg.blockDuration > 0 ==> d == cfg.blockDuration)
    && (cfg.blockDuration <= 0 && cfg.ttl > 0 ==> d == cfg.ttl)
    && (cfg.blockDuration <= 0 && cfg.ttl <= 0 ==> d == 1000)
  }

  lemma {:induction false} BlockRun(cfg: Config, run: seq<State>, events: seq<Event>, m: nat, d: int)
    requires IsRun(cfg, run, events) && m <= |events| && IsBlockTime(cfg, d)
    ensures run[m].block.Some? ==>
              exists n :: 0 <= n < m && Blocks(run[n], events[n]) && run[m].block.value == run[n].now + d
    ensures forall n :: 0 <= n < m && Blocks(run[n], events[n]) ==>
              run[m].block.Some? && run[n].now + d <= run[m].block.value
    ensures run[m].block.Some? ==> run[m].block.value <= run[m].now + d
  {
    if m > 0 {
      BlockRun(cfg, run, events, m - 1, d);
      assert run[m] == Apply(cfg, run[m - 1], events[m - 1]);
    }
  }

  /** In every interleaving: a call that looks for a block goes on to count exactly when every block written so far was
      written at least its length ago. */
  lemma BlockLastsExactly(cfg: Config, run: seq<State>, events: seq<Event>, m: nat, d: int)
    requires IsRun(cfg, run, events) && m < |events| && IsBlockTime(cfg, d)
    requires events[m].Step? && run[m].calls[events[m].id].phase.ReadBlock?
    ensures var p := run[m + 1].calls[events[m].id].phase;
            && (p.Increment? <==> forall n :: 0 <= n < m && Blocks(run[n], events[n]) ==> run[n].now + d <= run[m].now)
            && (!p.Increment? ==> p.BlockedGet?)
  {
    BlockRun(cfg, run, events, m, d);
    assert run[m + 1] == Apply(cfg, run[m], events[m]);
  }

  /** A call that exceeds the limit blocks the client from now for that long, and says so in whole seconds. */
  lemma ExceedingBlocks(cfg: Config, run: seq<State>, events: seq<Event>, m: nat, d: int)
    requires IsRun(cfg, run, events) && m < |events| && IsBlockTime(cfg, d) && Blocks(run[m], events[m])
    ensures run[m + 1].block == Some(run[m].now + d)
    ensures var p := run[m + 1].calls[events[m].id].phase;
            && p.Done? && p.record.isBlocked
            && 1000 * (p.record.timeToBlockExpire - 1) < d <= 1000 * p.record.timeToBlockExpire
  {
    assert run[m + 1] == Apply(cfg, run[m], events[m]);
  }

  // ---- Expiry ----

  predicate Unexpiring(s: State) {
    s.hits.Some? && s.hits.value.expiresAt.None?
  }

  /** A call of the current lifetime that has not got past reading or repairing the key's time to live. */
  predicate BeforeExpiryKnown(s: State, id: CallId)
    requires HasTicket(s, id)
  {
    var p := s.calls[id].phase;
    || (p.Expire? && s.calls[id].ticket.hits == 1)
    || (p.ReadTtl? && s.calls[id].ticket.hits > 1)
    || p.Repair?
  }

  ghost predicate ExpiryOwed(s: State) {
    Unexpiring(s) ==>
      && (exists id :: HasTicket(s, id) && s.calls[id].ticket == Ticket(s.lifetime, 1) && s.calls[id].phase.Expire?)
      && (forall id :: HasTicket(s, id) && s.calls[id].ticket.lifetime == s.lifetime ==> BeforeExpiryKnown(s, id))
  }

  /** A key without expiry is live, so a command that sets its expiry ends the debt. */
  lemma ExpiryOwedStep(cfg: Config, s: State, e: Event)
    requires Enabled(s, e) && TicketsValid(s) && ExpiryOwed(s)
    ensures ExpiryOwed(Apply(cfg, s, e))
  {
    var t := Apply(cfg, s, e);
    if Unexpiring(t) {
      if Increments(s, e) {
        assert t == IncrementStep(s, e.id);
        if Live(s.hits, s.now) {
          var id :| HasTicket(s, id) && s.calls[id].ticket == Ticket(s.lifetime, 1) && s.calls[id].phase.Expire?;
          assert HasTicket(t, id) && t.calls[id] == s.calls[id];
        } else {
          assert HasTicket(t, e.id) && t.calls[e.id].ticket == Ticket(t.lifetime, 1);
          forall id | HasTicket(t, id) && id != e.id ensures t.calls[id].ticket.lifetime != t.lifetime {
            assert TicketValid(s, id);
          }
        }
      } else {
        OtherStepsKeepTickets(cfg, s, e);
        StillUnexpiring(cfg, s, e);
        var id :| HasTicket(s, id) && s.calls[id].ticket == Ticket(s.lifetime, 1) && s.calls[id].phase.Expire?;
        assert HasTicket(t, id) && t.calls[id].phase.Expire?;
      }
    }
  }

  lemma StillUnexpiring(cfg: Config, s: State, e: Event)
    requires Enabled(s, e) && !Increments(s, e) && Unexpiring(Apply(cfg, s, e))
    ensures Unexpiring(s)
    ensures forall id :: HasTicket(s, id) && s.calls[id].phase.Expire? ==> Apply(cfg, s, e).calls[id].phase.Expire?
    ensures forall id :: HasTicket(s, id) && s.calls[id].phase.Repair? ==> Apply(cfg, s, e).calls[id].phase.Repair?
    ensures forall id :: HasTicket(s, id) && s.calls[id].phase.ReadTtl? ==>
              Apply(cfg, s, e).calls[id].phase.ReadTtl? || Apply(cfg, s, e).calls[id].phase.Repair?
  {
  }

  lemma {:induction false} ExpiryOwedRun(cfg: Config, run: seq<State>, events: seq<Event>, n: nat)
    requires IsRun(cfg, run, events) && n <= |events|
    ensures ExpiryOwed(run[n])
  {
    if n > 0 {
      ExpiryOwedRun(cfg, run, events, n - 1);
      TicketsRun(cfg, run, events, n - 1);
      ExpiryOwedStep(cfg, run[n - 1], events[n - 1]);
    }
  }

  /** In every interleaving: a hit key without expiry has its creator still before PEXPIRE (or crashed there), and no
      call counted in that lifetime has finished or reached the block; so the first one to get that far has repaired
      the key. */
  lemma UnexpiringKeyOwed(cfg: Config, run: seq<State>, events: seq<Event>, n: nat)
    requires IsRun(cfg, run, events) && n <= |events| && Unexpiring(run[n])
    ensures exists id :: HasTicket(run[n], id) && run[n].calls[id].ticket == Ticket(run[n].lifetime, 1)
                         && run[n].calls[id].phase.Expire?
    ensures forall id :: HasTicket(run[n], id) && run[n].calls[id].ticket.lifetime == run[n].lifetime
                         ==> !run[n].calls[id].phase.Done? && !run[n].calls[id].phase.Block?
  {
    ExpiryOwedRun(cfg, run, events, n);
  }
}
