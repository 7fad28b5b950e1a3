/** Login sessions: the id chosen, the clean-up of the least recently used devices, and the upsert. */
module Sessions {
  import opened Wrappers

  type UserId = nat
  type DeviceId = nat
  type SessionId = nat
  type LoginId = nat
  type Time = nat

  const MAX_DEVICES := 5

  /** `token` names the login whose refresh token the stored hash belongs to. Hashes of different tokens never
      compare. */
  datatype Row = Row(deviceId: DeviceId, token: LoginId, lastUsedAt: Option<Time>, createdAt: Time, expiresAt: Time)

  type Rows = map<SessionId, Row>

  function LastUse(r: Row): (t: Time)
    ensures r.lastUsedAt == Some(t) || (r.lastUsedAt == None && t == r.createdAt)
  {
    if r.lastUsedAt.Some? then r.lastUsedAt.value else r.createdAt
  }

  /** One row for each device of the user: the unique key. */
  ghost predicate UniqueDevices(rows: Rows) {
    forall a, b :: a in rows && b in rows && rows[a].deviceId == rows[b].deviceId ==> a == b
  }

  function OthersOf(rows: Rows, deviceId: DeviceId): set<SessionId> {
    set id | id in rows && rows[id].deviceId != deviceId
  }

  function Excess(rows: Rows): nat { if |rows| > MAX_DEVICES then |rows| - MAX_DEVICES else 0 }

  /** What a clean-up may delete: as many as there are too many, never the current device, and least recently used. */
  ghost predicate IsCleanup(rows: Rows, deviceId: DeviceId, victims: set<SessionId>) {
    && victims <= OthersOf(rows, deviceId)
    && |victims| == (if Excess(rows) <= |OthersOf(rows, deviceId)| then Excess(rows) else |OthersOf(rows, deviceId)|)
    && forall v, k :: v in victims && k in OthersOf(rows, deviceId) - victims ==> LastUse(rows[v]) <= LastUse(rows[k])
  }

  /** With one row a device, all rows but at most one are others'. */
  lemma OthersCount(rows: Rows, deviceId: DeviceId)
    requires UniqueDevices(rows)
    ensures |rows| <= |OthersOf(rows, deviceId)| + 1
  {
    var others := OthersOf(rows, deviceId);
    if mine :| mine in rows && rows[mine].deviceId == deviceId {
      assert rows.Keys == others + {mine};
    } else {
      assert rows.Keys == others;
    }
  }

  /** So there are always enough of them to delete. */
  lemma CleanupKeepsFive(rows: Rows, deviceId: DeviceId, victims: set<SessionId>)
    requires UniqueDevices(rows) && IsCleanup(rows, deviceId, victims)
    ensures |rows.Keys - victims| == if |rows| > MAX_DEVICES then MAX_DEVICES else |rows|
    ensures |victims| == Excess(rows)
  {
    OthersCount(rows, deviceId);
    assert victims <= rows.Keys;
  }

  // ---- Logins of one user, step by step ----

  datatype Login =
    | Chosen(deviceId: DeviceId, sessionId: SessionId)
    | Found(deviceId: DeviceId, sessionId: SessionId, snapshot: Rows, started: int, underWay: set<LoginId>)
    | Cleaned(deviceId: DeviceId, sessionId: SessionId, started: int)

  /** The clean-up with the latest lookup so far: when it looked, what it left, and who was under way then. */
  datatype Latest = Latest(started: int, kept: set<SessionId>, underWay: set<LoginId>)

  /** `owner` is the device each id was ever used for: ids are never used again for another. `failed` are the logins
      whose clean-up has failed. */
  datatype State = State(rows: Rows, logins: map<LoginId, Login>, finished: set<LoginId>,
                         inserter: map<SessionId, LoginId>, owner: map<SessionId, DeviceId>, failed: set<LoginId>, stamp: nat,
                         latest: Latest)

  datatype Event =
    | Choose(login: LoginId, deviceId: DeviceId, sessionId: SessionId)
    | FindAll(login: LoginId)
    | Clean(login: LoginId, victims: set<SessionId>)
    /** A clean-up that fails is only logged: the login goes on. */
    | CleanFails(login: LoginId)
    | Upsert(login: LoginId, existing: Option<SessionId>, now: Time, expiresAt: Time)
    /** A login that crashes, or whose database calls fail outside the clean-up. */
    | Abandon(login: LoginId)
    | Touch(id: SessionId, now: Time)
    | Remove(ids: set<SessionId>)

  /** Logins between their lookup and their upsert. */
  function UnderWay(logins: map<LoginId, Login>): set<LoginId> {
    set l | l in logins && !logins[l].Chosen?
  }

  /** The lookup by user and device. */
  predicate IsRowOf(rows: Rows, deviceId: DeviceId, found: Option<SessionId>) {
    match found
    case Some(id) => id in rows && rows[id].deviceId == deviceId
    case None => forall id :: id in rows ==> rows[id].deviceId != deviceId
  }

  ghost predicate Enabled(s: State, e: Event) {
    match e
    case Choose(login, deviceId, sessionId) =>
      && login !in s.logins && login !in s.finished && (forall id :: id in s.rows ==> s.rows[id].token != login)
      && (IsRowOf(s.rows, deviceId, Some(sessionId)) || (IsRowOf(s.rows, deviceId, None) && sessionId !in s.owner))
    case FindAll(login) => login in s.logins && s.logins[login].Chosen?
    case Clean(login, victims) =>
      && login in s.logins && s.logins[login].Found?
      && IsCleanup(s.logins[login].snapshot, s.logins[login].deviceId, victims)
    case CleanFails(login) => login in s.logins && s.logins[login].Found?
    case Upsert(login, existing, _, _) =>
      login in s.logins && s.logins[login].Cleaned? && IsRowOf(s.rows, s.logins[login].deviceId, existing)
    case Abandon(login) => login in s.logins
    case Touch(_, _) => true
    case Remove(_) => true
  }

  /** An upsert writes the device's row, keeping its id, or else a new row under the chosen id. */
  function Upserted(rows: Rows, l: Login, existing: Option<SessionId>, login: LoginId, now: Time, expiresAt: Time): Rows
    requires existing.Some? ==> existing.value in rows
  {
    match existing
    case Some(id) => rows[id := rows[id].(token := login, lastUsedAt := Some(now), expiresAt := expiresAt)]
    case None => rows[l.sessionId := Row(l.deviceId, login, Some(now), now, expiresAt)]
  }

  function Apply(s: State, e: Event): State
    requires Enabled(s, e)
  {
    match e
    case Choose(login, deviceId, sessionId) =>
      s.(logins := s.logins[login := Chosen(deviceId, sessionId)], owner := s.owner[sessionId := deviceId])
    case FindAll(login) =>
      var l := s.logins[login];
      s.(logins := s.logins[login := Found(l.deviceId, l.sessionId, s.rows, s.stamp, UnderWay(s.logins) + {login})],
         stamp := s.stamp + 1)
    case Clean(login, victims) =>
      var l := s.logins[login];
      s.(rows := s.rows - victims, logins := s.logins[login := Cleaned(l.deviceId, l.sessionId, l.started)],
         latest := if l.started > s.latest.started then Latest(l.started, l.snapshot.Keys - victims, l.underWay)
                   else s.latest)
    case CleanFails(login) =>
      var l := s.logins[login];
      s.(logins := s.logins[login := Cleaned(l.deviceId, l.sessionId, l.started)], failed := s.failed + {login})
    case Upsert(login, existing, now, expiresAt) =>
      var l := s.logins[login];
      s.(rows := Upserted(s.rows, l, existing, login, now, expiresAt), logins := s.logins - {login},
         finished := s.finished + {login},
         inserter := if existing.Some? then s.inserter else s.inserter[l.sessionId := login])
    case Abandon(login) => s.(logins := s.logins - {login}, finished := s.finished + {login})
    case Touch(id, now) =>
      if id in s.rows then s.(rows := s.rows[id := s.rows[id].(lastUsedAt := Some(now))]) else s
    case Remove(ids) => s.(rows := s.rows - ids)
  }

  /** Any number of stored sessions, one a device, and nobody logging in. */
  ghost predicate IsInitial(s: State) {
    && UniqueDevices(s.rows) && s.logins == map[] && s.finished == {} && s.inserter == map[] && s.failed == {}
    && s.stamp == 0
    && s.owner == (map id | id in s.rows :: s.rows[id].deviceId)
    && s.latest == Latest(-1, s.rows.Keys, {})
  }

  ghost predicate IsRun(states: seq<State>, events: seq<Event>) {
    && |states| == |events| + 1
    && IsInitial(states[0])
    && forall i :: 0 <= i < |events| ==> Enabled(states[i], events[i]) && states[i + 1] == Apply(states[i], events[i])
  }

  // ---- Ids ----

  /** Every id in sight belongs to its device, so that creating a row never meets another's id. */
  ghost predicate Owned(owner: map<SessionId, DeviceId>, rows: Rows) {
    forall id :: id in rows ==> id in owner && owner[id] == rows[id].deviceId
  }

  ghost predicate IdsAgree(s: State) {
    && UniqueDevices(s.rows) && Owned(s.owner, s.rows)
    && (forall l :: l in s.logins ==>
          s.logins[l].sessionId in s.owner && s.owner[s.logins[l].sessionId] == s.logins[l].deviceId)
    && (forall l :: l in s.logins && s.logins[l].Found? ==>
          UniqueDevices(s.logins[l].snapshot) && Owned(s.owner, s.logins[l].snapshot))
  }

  /** No row holds the token of a login that is still under way. */
  ghost predicate TokensNew(s: State) {
    forall l, id :: l in s.logins && id in s.rows ==> s.rows[id].token != l
  }

  lemma TokensNewStep(s: State, e: Event)
    requires TokensNew(s) && Enabled(s, e)
    ensures TokensNew(Apply(s, e))
  {
  }

  lemma IdsAgreeStep(s: State, e: Event)
    requires IdsAgree(s) && Enabled(s, e)
    ensures IdsAgree(Apply(s, e))
  {
  }

  // ---- The bound ----

  /** A row left by the clean-up in question, or inserted since its lookup by a login under way at that time or by one
      whose own clean-up failed. */
  predicate Accounted(s: State, id: SessionId, kept: set<SessionId>, underWay: set<LoginId>) {
    id in kept || (id in s.inserter && (s.inserter[id] in underWay || s.inserter[id] in s.failed))
  }

  ghost predicate RowsAccounted(s: State, kept: set<SessionId>, underWay: set<LoginId>) {
    forall id :: id in s.rows ==> Accounted(s, id, kept, underWay)
  }

  /** No login has inserted two rows; and who inserted one has finished. */
  ghost predicate OneRowEach(s: State) {
    && (forall a, b ::
          (a in s.inserter && b in s.inserter && a in s.rows && b in s.rows && s.inserter[a] == s.inserter[b]) ==>
            a == b)
    && (forall id :: id in s.inserter ==> s.inserter[id] in s.finished)
    && (forall l :: l in s.logins ==> l !in s.finished)
  }

  /** A login that looked no later than another, and is still under way, was under way when the other looked. */
  ghost predicate OverlapsFound(s: State) {
    && (forall n, m ::
          (n in s.logins && m in s.logins && !s.logins[n].Chosen? && s.logins[m].Found?
           && s.logins[n].started <= s.logins[m].started) ==>
            n in s.logins[m].underWay)
    && (forall n :: n in s.logins && !s.logins[n].Chosen? ==> s.logins[n].started < s.stamp)
  }

  ghost predicate OverlapsLatest(s: State) {
    && (forall n :: n in s.logins && !s.logins[n].Chosen? && s.logins[n].started <= s.latest.started ==>
          n in s.latest.underWay)
    && (forall n :: n in s.logins && s.logins[n].Cleaned? && n !in s.failed ==>
          s.logins[n].started <= s.latest.started)
  }

  ghost predicate Overlapping(s: State) { OverlapsFound(s) && OverlapsLatest(s) }

  ghost predicate Bounded(s: State) {
    && RowsAccounted(s, s.latest.kept, s.latest.underWay)
    && (forall m :: m in s.logins && s.logins[m].Found? && s.logins[m].started > s.latest.started ==>
          RowsAccounted(s, s.logins[m].snapshot.Keys, s.logins[m].underWay))
    && (s.latest.started >= 0 ==> |s.latest.kept| <= MAX_DEVICES)
    && -1 <= s.latest.started < s.stamp
  }

  ghost predicate Inv(s: State) { IdsAgree(s) && TokensNew(s) && OneRowEach(s) && Overlapping(s) && Bounded(s) }

  lemma OneRowEachStep(s: State, e: Event)
    requires OneRowEach(s) && Enabled(s, e)
    ensures OneRowEach(Apply(s, e))
  {
  }

  lemma OverlapsFoundStep(s: State, e: Event)
    requires OverlapsFound(s) && Enabled(s, e)
    ensures OverlapsFound(Apply(s, e))
  {
  }

  lemma OverlappingStep(s: State, e: Event)
    requires Overlapping(s) && Enabled(s, e) && -1 <= s.latest.started < s.stamp
    ensures Overlapping(Apply(s, e))
  {
    OverlapsFoundStep(s, e);
  }

  lemma CleanBounded(s: State, e: Event)
    requires Inv(s) && Enabled(s, e) && e.Clean?
    ensures Bounded(Apply(s, e))
  {
    var l := s.logins[e.login];
    CleanupKeepsFive(l.snapshot, l.deviceId, e.victims);
  }

  lemma BoundedStep(s: State, e: Event)
    requires Inv(s) && Enabled(s, e)
    ensures Bounded(Apply(s, e))
  {
    if e.Clean? {
      CleanBounded(s, e);
    }
  }

  lemma {:induction false} RunInv(states: seq<State>, events: seq<Event>, n: nat)
    requires IsRun(states, events) && n <= |events|
    ensures Inv(states[n])
  {
    if n > 0 {
      RunInv(states, events, n - 1);
      var s, e := states[n - 1], events[n - 1];
      IdsAgreeStep(s, e);
      TokensNewStep(s, e);
      OneRowEachStep(s, e);
      OverlappingStep(s, e);
      BoundedStep(s, e);
    }
  }

  /** A set that maps one to one into another is no larger. */
  lemma {:induction false} InjectionSize(ids: set<SessionId>, f: map<SessionId, LoginId>, into: set<LoginId>)
    requires forall id :: id in ids ==> id in f && f[id] in into
    requires forall a, b :: a in ids && b in ids && f[a] == f[b] ==> a == b
    ensures |ids| <= |into|
    decreases |ids|
  {
    if ids != {} {
      var a :| a in ids;
      InjectionSize(ids - {a}, f, into - {f[a]});
    }
  }

  lemma UnionSize<T>(a: set<T>, b: set<T>)
    ensures |a + b| <= |a| + |b|
  {
    assert a + b == a + (b - a);
    assert b == (b - a) + (b * a);
  }

  lemma PartSize<T>(a: set<T>, b: set<T>)
    ensures |a * b| <= |b| && |a| == |a * b| + |a - b|
  {
    assert b == (a * b) + (b - a);
    assert a == (a * b) + (a - b);
  }

  lemma AccountedCount(s: State)
    requires OneRowEach(s) && RowsAccounted(s, s.latest.kept, s.latest.underWay)
    ensures |s.rows| <= |s.latest.kept| + |s.latest.underWay| + |s.failed|
  {
    PartSize(s.rows.Keys, s.latest.kept);
    InjectionSize(s.rows.Keys - s.latest.kept, s.inserter, s.latest.underWay + s.failed);
    UnionSize(s.latest.underWay, s.failed);
  }

  ghost predicate CrowdAtMost(states: seq<State>, k: nat) {
    forall i :: 0 <= i < |states| ==> |UnderWay(states[i].logins)| <= k
  }

  ghost predicate CrowdSmall(s: State, k: nat) {
    && |s.latest.underWay| <= k
    && forall l :: l in s.logins && s.logins[l].Found? ==> |s.logins[l].underWay| <= k
  }

  lemma CrowdStep(s: State, e: Event, k: nat)
    requires Enabled(s, e) && CrowdSmall(s, k) && |UnderWay(Apply(s, e).logins)| <= k
    ensures CrowdSmall(Apply(s, e), k)
  {
    if e.FindAll? {
      assert UnderWay(Apply(s, e).logins) == UnderWay(s.logins) + {e.login};
    }
  }

  lemma {:induction false} CrowdRemembered(states: seq<State>, events: seq<Event>, n: nat, k: nat)
    requires IsRun(states, events) && n <= |events| && CrowdAtMost(states, k)
    ensures CrowdSmall(states[n], k)
  {
    if n > 0 {
      CrowdRemembered(states, events, n - 1, k);
      CrowdStep(states[n - 1], events[n - 1], k);
    }
  }

  lemma {:induction false} LatestStarted(states: seq<State>, events: seq<Event>, i: nat, n: nat)
    requires IsRun(states, events) && i < n <= |events| && events[i].Clean?
    ensures states[n].latest.started >= 0
  {
    var j := n - 1;
    assert states[j + 1] == Apply(states[j], events[j]);
    if events[j].Clean? {
      CleanedStarted(states, events, n);
    } else {
      LatestStarted(states, events, i, j);
      LatestKept(states[j], events[j]);
    }
  }

  lemma LatestKept(s: State, e: Event)
    requires Enabled(s, e) && !e.Clean?
    ensures Apply(s, e).latest == s.latest
  {
  }

  lemma {:induction false} StartedNotBefore(states: seq<State>, events: seq<Event>, n: nat, l: LoginId)
    requires IsRun(states, events) && n <= |events| && l in states[n].logins && !states[n].logins[l].Chosen?
    ensures states[n].logins[l].started >= 0
  {
    if n > 0 {
      if l in states[n - 1].logins && !states[n - 1].logins[l].Chosen? {
        StartedNotBefore(states, events, n - 1, l);
      }
    }
  }

  lemma CleanedStarted(states: seq<State>, events: seq<Event>, n: nat)
    requires IsRun(states, events) && 0 < n <= |events| && events[n - 1].Clean?
    ensures states[n].latest.started >= 0
  {
    StartedNotBefore(states, events, n - 1, events[n - 1].login);
  }

  /** Whatever number of sessions was stored to begin with, and however logins, uses and deletions interleave: once
      one clean-up has run, a user has at most `MAX_DEVICES` sessions, one more for each login that may be under way at
      the same time, and one more for each clean-up that has failed. One at a time that is six, not five. */
  lemma SessionsBounded(states: seq<State>, events: seq<Event>, n: nat, k: nat)
    requires IsRun(states, events) && n <= |events| && CrowdAtMost(states, k)
    requires exists i :: 0 <= i < n && events[i].Clean?
    ensures |states[n].rows| <= 5 + k + |states[n].failed|
  {
    RunInv(states, events, n);
    CrowdRemembered(states, events, n, k);
    var i :| 0 <= i < n && events[i].Clean?;
    LatestStarted(states, events, i, n);
    AccountedCount(states[n]);
  }

  /** Whatever has happened since a clean-up looked, it never deletes the row the logging-in device has by then. What it
      deletes is as many as there were too many, and was no more recently used than any other row it spares. */
  lemma CurrentDeviceSpared(states: seq<State>, events: seq<Event>, n: nat)
    requires IsRun(states, events) && n < |events| && events[n].Clean?
    ensures var l := states[n].logins[events[n].login];
            var victims := events[n].victims;
            && (forall v :: v in states[n].rows.Keys - states[n + 1].rows.Keys ==>
                  states[n].rows[v].deviceId != l.deviceId)
            && |victims| == Excess(l.snapshot) && states[n].rows.Keys - states[n + 1].rows.Keys <= victims
            && (forall v, k :: v in victims && k in l.snapshot.Keys - victims && l.snapshot[k].deviceId != l.deviceId
                               ==> LastUse(l.snapshot[v]) <= LastUse(l.snapshot[k]))
  {
    RunInv(states, events, n);
    var l := states[n].logins[events[n].login];
    CleanupKeepsFive(l.snapshot, l.deviceId, events[n].victims);
    forall k | k in l.snapshot.Keys - events[n].victims && l.snapshot[k].deviceId != l.deviceId
      ensures k in OthersOf(l.snapshot, l.deviceId) - events[n].victims
    {
    }
  }

  // ---- The token ----

  /** A refresh token names the session it was signed for; it is accepted while that row is unexpired and holds its
      hash. */
  predicate Validates(rows: Rows, sessionId: SessionId, token: LoginId, now: Time) {
    sessionId in rows && rows[sessionId].expiresAt > now && rows[sessionId].token == token
  }

  /** The upsert wrote the row whose id is in the token. */
  predicate WroteOwnId(s: State, e: Event)
    requires e.Upsert? && e.login in s.logins
  {
    e.existing.None? || e.existing.value == s.logins[e.login].sessionId
  }

  /** The row of this session is written again, cleaned up or removed. */
  predicate Ends(e: Event, sessionId: SessionId) {
    match e
    case Upsert(_, existing, _, _) => existing == Some(sessionId)
    case Clean(_, victims) => sessionId in victims
    case Remove(ids) => sessionId in ids
    case _ => false
  }

  /** The row is still what the login wrote, but for its last use. */
  predicate HoldsToken(s: State, sessionId: SessionId, token: LoginId, expiresAt: Time) {
    sessionId in s.rows && s.rows[sessionId].token == token && s.rows[sessionId].expiresAt == expiresAt
  }

  /** A login that is over no longer has its hash in this row. */
  predicate TokenGone(s: State, sessionId: SessionId, token: LoginId) {
    token in s.finished && (sessionId in s.rows ==> s.rows[sessionId].token != token)
  }

  lemma UpsertWrites(s: State, e: Event)
    requires Inv(s) && Enabled(s, e) && e.Upsert?
    ensures var t := Apply(s, e);
            var sid := s.logins[e.login].sessionId;
            && e.login in t.finished
            && if WroteOwnId(s, e) then HoldsToken(t, sid, e.login, e.expiresAt) else TokenGone(t, sid, e.login)
  {
  }

  lemma TokenStep(s: State, e: Event, sid: SessionId, token: LoginId, expiresAt: Time)
    requires Inv(s) && Enabled(s, e) && token in s.finished
    ensures token in Apply(s, e).finished
    ensures TokenGone(s, sid, token) ==> TokenGone(Apply(s, e), sid, token)
    ensures HoldsToken(s, sid, token, expiresAt) ==>
              if Ends(e, sid) then TokenGone(Apply(s, e), sid, token)
              else HoldsToken(Apply(s, e), sid, token, expiresAt)
  {
  }

  ghost predicate Untouched(events: seq<Event>, n: nat, m: nat, sessionId: SessionId)
    requires m <= |events|
  {
    forall k :: n < k < m ==> !Ends(events[k], sessionId)
  }

  /** Where the token of a finished login stands. */
  predicate TokenStands(s: State, sessionId: SessionId, token: LoginId, expiresAt: Time, good: bool) {
    && token in s.finished
    && if good then HoldsToken(s, sessionId, token, expiresAt) else TokenGone(s, sessionId, token)
  }

  lemma TokenStandsStep(s: State, e: Event, sid: SessionId, token: LoginId, expiresAt: Time, good: bool)
    requires Inv(s) && Enabled(s, e) && TokenStands(s, sid, token, expiresAt, good)
    ensures TokenStands(Apply(s, e), sid, token, expiresAt, good && !Ends(e, sid))
  {
    TokenStep(s, e, sid, token, expiresAt);
  }

  lemma {:induction false} TokenRun(states: seq<State>, events: seq<Event>, n: nat, m: nat, good: bool)
    requires IsRun(states, events) && n < m <= |events| && events[n].Upsert?
    requires good == (WroteOwnId(states[n], events[n])
                      && Untouched(events, n, m, states[n].logins[events[n].login].sessionId))
    ensures TokenStands(states[m], states[n].logins[events[n].login].sessionId, events[n].login, events[n].expiresAt, good)
    decreases m
  {
    var e := events[n];
    var sid := states[n].logins[e.login].sessionId;
    if m == n + 1 {
      RunInv(states, events, n);
      UpsertWrites(states[n], e);
    } else {
      var before := WroteOwnId(states[n], e) && Untouched(events, n, m - 1, sid);
      TokenRun(states, events, n, m - 1, before);
      RunInv(states, events, m - 1);
      TokenStandsStep(states[m - 1], events[m - 1], sid, e.login, e.expiresAt, before);
    }
  }

  /** At any later moment of any run, the token of a login validates exactly while it is unexpired, its upsert found no
      row for the device or the one whose id it had chosen, and nothing since has written that row again, cleaned it up
      or removed it. */
  lemma TokenLifetime(states: seq<State>, events: seq<Event>, n: nat, m: nat, clock: Time)
    requires IsRun(states, events) && n < m <= |events| && events[n].Upsert?
    ensures var e := events[n];
            var sid := states[n].logins[e.login].sessionId;
            Validates(states[m].rows, sid, e.login, clock) <==>
              && clock < e.expiresAt
              && (e.existing.None? || e.existing == Some(sid))
              && forall k :: n < k < m ==> !Ends(events[k], sid)
  {
    var sid := states[n].logins[events[n].login].sessionId;
    TokenRun(states, events, n, m, WroteOwnId(states[n], events[n]) && Untouched(events, n, m, sid));
  }

  /** Somebody creates the device's row under another id than the one this login has chosen. */
  predicate Rivals(s: State, e: Event, deviceId: DeviceId, sessionId: SessionId)
    requires e.Upsert? ==> e.login in s.logins
  {
    && e.Upsert? && e.existing.None?
    && s.logins[e.login].deviceId == deviceId && s.logins[e.login].sessionId != sessionId
  }

  /** Whatever row the device has, it is under the chosen id. */
  ghost predicate OnlyChosen(s: State, deviceId: DeviceId, sessionId: SessionId) {
    forall id :: id in s.rows && s.rows[id].deviceId == deviceId ==> id == sessionId
  }

  lemma OnlyChosenStep(s: State, e: Event, deviceId: DeviceId, sessionId: SessionId)
    requires Inv(s) && Enabled(s, e) && OnlyChosen(s, deviceId, sessionId) && !Rivals(s, e, deviceId, sessionId)
    ensures OnlyChosen(Apply(s, e), deviceId, sessionId)
  {
  }

  lemma {:induction false} OnlyChosenRun(states: seq<State>, events: seq<Event>, c: nat, n: nat)
    requires IsRun(states, events) && c < n <= |events| && events[c].Choose?
    requires forall k :: c < k < n ==> !Rivals(states[k], events[k], events[c].deviceId, events[c].sessionId)
    ensures OnlyChosen(states[n], events[c].deviceId, events[c].sessionId)
    decreases n
  {
    if n == c + 1 {
      RunInv(states, events, c);
    } else {
      OnlyChosenRun(states, events, c, n - 1);
      RunInv(states, events, n - 1);
      OnlyChosenStep(states[n - 1], events[n - 1], events[c].deviceId, events[c].sessionId);
    }
  }

  /** A login that has begun is under way, with its device and id, or over. */
  predicate Begun(s: State, login: LoginId, deviceId: DeviceId, sessionId: SessionId) {
    if login in s.logins then s.logins[login].deviceId == deviceId && s.logins[login].sessionId == sessionId
    else login in s.finished
  }

  lemma BegunStep(s: State, e: Event, login: LoginId, deviceId: DeviceId, sessionId: SessionId)
    requires Enabled(s, e) && Begun(s, login, deviceId, sessionId)
    ensures Begun(Apply(s, e), login, deviceId, sessionId)
  {
  }

  lemma {:induction false} BegunRun(states: seq<State>, events: seq<Event>, c: nat, n: nat)
    requires IsRun(states, events) && c < n <= |events| && events[c].Choose?
    ensures Begun(states[n], events[c].login, events[c].deviceId, events[c].sessionId)
    decreases n
  {
    if n > c + 1 {
      BegunRun(states, events, c, n - 1);
      BegunStep(states[n - 1], events[n - 1], events[c].login, events[c].deviceId, events[c].sessionId);
    }
  }

  /** Unless another login creates the device's row under another id between the choice and the upsert, the token is
      good until it expires or its row is touched. Deletions of the row in between do no harm. */
  lemma UndisturbedLoginTokenGood(states: seq<State>, events: seq<Event>, c: nat, n: nat, m: nat, clock: Time)
    requires IsRun(states, events) && c < n < m <= |events|
    requires events[c].Choose? && events[n].Upsert? && events[n].login == events[c].login
    requires forall k :: c < k < n ==> !Rivals(states[k], events[k], events[c].deviceId, events[c].sessionId)
    ensures Validates(states[m].rows, events[c].sessionId, events[n].login, clock) <==>
            clock < events[n].expiresAt && forall k :: n < k < m ==> !Ends(events[k], events[c].sessionId)
  {
    OnlyChosenRun(states, events, c, n);
    BegunRun(states, events, c, n);
    TokenLifetime(states, events, n, m, clock);
  }

  /** In every run, the upsert of a login leaves the device's row with its token, used just now, to expire when it is
      told to; a row that was there keeps its id and its age, and every other row is as it was. */
  lemma UpsertLeaves(states: seq<State>, events: seq<Event>, n: nat)
    requires IsRun(states, events) && n < |events| && events[n].Upsert?
    ensures var e, l := events[n], states[n].logins[events[n].login];
            var before := states[n].rows;
            && (e.existing.Some? <==> exists id :: id in before && before[id].deviceId == l.deviceId)
            && (e.existing.Some? ==> e.existing.value in before && before[e.existing.value].deviceId == l.deviceId)
            && var id := if e.existing.Some? then e.existing.value else l.sessionId;
               states[n + 1].rows
               == before[id := Row(l.deviceId, e.login, Some(e.now),
                                   if e.existing.Some? then before[id].createdAt else e.now, e.expiresAt)]
  {
    assert states[n + 1] == Apply(states[n], events[n]);
  }

  /** The use of a session makes it the user's most lately used, and changes nothing else. */
  lemma TouchLeaves(states: seq<State>, events: seq<Event>, n: nat)
    requires IsRun(states, events) && n < |events| && events[n].Touch?
    ensures var id, before := events[n].id, states[n].rows;
            states[n + 1].rows
            == if id in before then
                 before[id := Row(before[id].deviceId, before[id].token, Some(events[n].now), before[id].createdAt,
                                  before[id].expiresAt)]
               else before
  {
    assert states[n + 1] == Apply(states[n], events[n]);
  }

  // ---- Two first logins of one device ----

  lemma ExtendRun(states: seq<State>, events: seq<Event>, e: Event)
    requires IsRun(states, events) && Enabled(states[|events|], e)
    ensures IsRun(states + [Apply(states[|events|], e)], events + [e])
  {
  }

  const Nobody := State(map[], map[], {}, map[], map[], {}, 0, Latest(-1, {}, {}))

  lemma TwoChosen(d: DeviceId, x: SessionId, y: SessionId) returns (states: seq<State>, events: seq<Event>)
    requires x != y
    ensures IsRun(states, events)
    ensures states[|events|].logins == map[1 := Chosen(d, x), 2 := Chosen(d, y)]
    ensures states[|events|].rows == map[] && states[|events|].stamp == 0
  {
    assert Nobody.owner == (map id | id in Nobody.rows :: Nobody.rows[id].deviceId);
    states, events := [Nobody], [];
    var e1, e2 := Choose(1, d, x), Choose(2, d, y);
    ExtendRun(states, events, e1);
    states, events := states + [Apply(states[|events|], e1)], events + [e1];
    ExtendRun(states, events, e2);
    states, events := states + [Apply(states[|events|], e2)], events + [e2];
  }

  /** Neither finds a row, so each chooses an id of its own; the first looks up and cleans nothing up. */
  lemma BothChoose(d: DeviceId, x: SessionId, y: SessionId) returns (states: seq<State>, events: seq<Event>)
    requires x != y
    ensures IsRun(states, events)
    ensures states[|events|].logins == map[1 := Cleaned(d, x, 0), 2 := Chosen(d, y)]
    ensures states[|events|].rows == map[]
  {
    states, events := TwoChosen(d, x, y);
    var e3, e4 := FindAll(1), Clean(1, {});
    ExtendRun(states, events, e3);
    states, events := states + [Apply(states[|events|], e3)], events + [e3];
    assert OthersOf(map[], d) == {};
    ExtendRun(states, events, e4);
    states, events := states + [Apply(states[|events|], e4)], events + [e4];
  }

  lemma FirstStores(d: DeviceId, x: SessionId, y: SessionId, now: Time, expiresAt: Time)
    returns (states: seq<State>, events: seq<Event>)
    requires x != y
    ensures IsRun(states, events)
    ensures states[|events|].logins == map[2 := Chosen(d, y)]
    ensures states[|events|].rows == map[x := Row(d, 1, Some(now), now, expiresAt)]
  {
    states, events := BothChoose(d, x, y);
    var e := Upsert(1, None, now, expiresAt);
    ExtendRun(states, events, e);
    states, events := states + [Apply(states[|events|], e)], events + [e];
  }

  lemma SecondCleans(d: DeviceId, x: SessionId, y: SessionId, now: Time, expiresAt: Time)
    returns (states: seq<State>, events: seq<Event>)
    requires x != y
    ensures IsRun(states, events)
    ensures states[|events|].logins.Keys == {2} && states[|events|].logins[2].Cleaned?
    ensures states[|events|].logins[2].deviceId == d && states[|events|].logins[2].sessionId == y
    ensures states[|events|].rows == map[x := Row(d, 1, Some(now), now, expiresAt)]
  {
    states, events := FirstStores(d, x, y, now, expiresAt);
    var rows := states[|events|].rows;
    ExtendRun(states, events, FindAll(2));
    states, events := states + [Apply(states[|events|], FindAll(2))], events + [FindAll(2)];
    assert states[|events|].logins[2].snapshot == rows && |rows| == 1;
    assert OthersOf(rows, d) == {};
    ExtendRun(states, events, Clean(2, {}));
    states, events := states + [Apply(states[|events|], Clean(2, {}))], events + [Clean(2, {})];
  }

  /** A run in which two first logins of one device overlap. The second takes over the row of the first, under the first
      one's id: the first token is dead from then on, and the second was never good, then or at any later moment. */
  lemma OverlappingFirstLogins(d: DeviceId, x: SessionId, y: SessionId, now: Time, expiresAt: Time)
    returns (states: seq<State>, events: seq<Event>)
    requires x != y
    ensures IsRun(states, events)
    ensures forall clock: Time ::
              !Validates(states[|events|].rows, x, 1, clock) && !Validates(states[|events|].rows, y, 2, clock)
    ensures forall longer: seq<State>, more: seq<Event>, m: nat, clock: Time ::
              IsRun(longer, more) && states <= longer && events <= more && |events| <= m <= |more| ==>
                !Validates(longer[m].rows, y, 2, clock)
  {
    states, events := SecondCleans(d, x, y, now, expiresAt);
    var n, e := |events|, Upsert(2, Some(x), now, expiresAt);
    ExtendRun(states, events, e);
    states, events := states + [Apply(states[n], e)], events + [e];
    forall longer: seq<State>, more: seq<Event>, m: nat, clock: Time |
      IsRun(longer, more) && states <= longer && events <= more && |events| <= m <= |more|
      ensures !Validates(longer[m].rows, y, 2, clock)
    {
      assert more[n] == e && longer[n] == states[n];
      TokenLifetime(longer, more, n, m, clock);
    }
    assert states[|events|].rows[x].token == 2 && y !in states[|events|].rows;
  }

  // ---- The services ----

  datatype Session = Session(userId: UserId, row: Row)

  /** The rows of one user. */
  function RowsOf(sessions: map<SessionId, Session>, userId: UserId): Rows {
    map id | id in sessions && sessions[id].userId == userId :: sessions[id].row
  }

  ghost predicate Distinct(ids: seq<SessionId>) {
    forall i, j :: 0 <= i < j < |ids| ==> ids[i] != ids[j]
  }

  /** These are the ids of the set, each once. */
  ghost predicate Lists(ids: seq<SessionId>, all: set<SessionId>) {
    && Distinct(ids)
    && (forall i :: 0 <= i < |ids| ==> ids[i] in all)
    && (forall id :: id in all ==> id in ids)
  }

  lemma ListedTail(ids: seq<SessionId>, all: set<SessionId>)
    requires Lists(ids, all) && ids != []
    ensures Lists(ids[1..], all - {ids[0]})
  {
    forall id | id in all - {ids[0]} ensures id in ids[1..] {
      var i :| 0 <= i < |ids| && ids[i] == id;
      assert ids[1..][i - 1] == id;
    }
  }

  lemma {:induction false} ListedSize(ids: seq<SessionId>, all: set<SessionId>)
    requires Lists(ids, all)
    ensures |ids| == |all|
  {
    if ids != [] {
      ListedTail(ids, all);
      ListedSize(ids[1..], all - {ids[0]});
      assert ids[0] in all;
    } else {
      assert forall id :: id in all ==> id in ids;
      assert all == {};
    }
  }

  /** The sessions of other devices, in the order they came. */
  function FilterOthers(rows: Rows, deviceId: DeviceId, ids: seq<SessionId>): (r: seq<SessionId>)
    requires forall id :: id in ids ==> id in rows
    ensures forall id :: id in r <==> id in ids && rows[id].deviceId != deviceId
  {
    if ids == [] then []
    else (if rows[ids[0]].deviceId != deviceId then [ids[0]] else []) + FilterOthers(rows, deviceId, ids[1..])
  }

  lemma {:induction false} FilteredOnce(rows: Rows, deviceId: DeviceId, ids: seq<SessionId>)
    requires forall id :: id in ids ==> id in rows
    requires Distinct(ids)
    ensures Distinct(FilterOthers(rows, deviceId, ids))
  {
    if ids != [] {
      FilteredOnce(rows, deviceId, ids[1..]);
      assert ids[0] !in FilterOthers(rows, deviceId, ids[1..]);
    }
  }

  /** A stable insertion sort by last use. */
  function InsertByUse(rows: Rows, id: SessionId, ids: seq<SessionId>): (r: seq<SessionId>)
    requires id in rows && forall x :: x in ids ==> x in rows
    ensures forall x :: x in r <==> x == id || x in ids
  {
    if ids == [] || LastUse(rows[id]) <= LastUse(rows[ids[0]]) then [id] + ids
    else
      assert forall x :: x in ids <==> x == ids[0] || x in ids[1..];
      [ids[0]] + InsertByUse(rows, id, ids[1..])
  }

  function SortByUse(rows: Rows, ids: seq<SessionId>): (r: seq<SessionId>)
    requires forall x :: x in ids ==> x in rows
    ensures forall x :: x in r <==> x in ids
  {
    if ids == [] then []
    else
      assert forall x :: x in ids <==> x == ids[0] || x in ids[1..];
      InsertByUse(rows, ids[0], SortByUse(rows, ids[1..]))
  }

  /** Distinct ids, the least recently used first. */
  ghost predicate InUseOrder(rows: Rows, ids: seq<SessionId>) {
    && (forall i :: 0 <= i < |ids| ==> ids[i] in rows)
    && (forall i, j :: 0 <= i < j < |ids| ==> ids[i] != ids[j] && LastUse(rows[ids[i]]) <= LastUse(rows[ids[j]]))
  }

  lemma Prepended(rows: Rows, id: SessionId, ids: seq<SessionId>)
    requires id in rows && id !in ids && InUseOrder(rows, ids)
    requires forall x :: x in ids ==> LastUse(rows[id]) <= LastUse(rows[x])
    ensures InUseOrder(rows, [id] + ids)
  {
  }

  lemma {:induction false} InsertedInOrder(rows: Rows, id: SessionId, ids: seq<SessionId>)
    requires id in rows && id !in ids && InUseOrder(rows, ids)
    ensures InUseOrder(rows, InsertByUse(rows, id, ids))
  {
    if ids == [] || LastUse(rows[id]) <= LastUse(rows[ids[0]]) {
      Prepended(rows, id, ids);
    } else {
      InsertedInOrder(rows, id, ids[1..]);
      Prepended(rows, ids[0], InsertByUse(rows, id, ids[1..]));
    }
  }

  lemma {:induction false} SortedInOrder(rows: Rows, ids: seq<SessionId>)
    requires forall x :: x in ids ==> x in rows
    requires Distinct(ids)
    ensures InUseOrder(rows, SortByUse(rows, ids))
  {
    if ids != [] {
      SortedInOrder(rows, ids[1..]);
      assert ids[0] !in ids[1..];
      InsertedInOrder(rows, ids[0], SortByUse(rows, ids[1..]));
    }
  }

  /** What is deleted: the filter, the sort and the slice. */
  function IdsToDelete(rows: Rows, deviceId: DeviceId, ids: seq<SessionId>, excess: nat): seq<SessionId>
    requires forall id :: id in ids ==> id in rows
  {
    var others := SortByUse(rows, FilterOthers(rows, deviceId, ids));
    if excess <= |others| then others[..excess] else others
  }

  lemma SliceIsListed(ids: seq<SessionId>, n: nat)
    requires n <= |ids| && Distinct(ids)
    ensures Lists(ids[..n], set id | id in ids[..n])
  {
  }

  lemma OthersListed(rows: Rows, deviceId: DeviceId, ids: seq<SessionId>)
    requires Lists(ids, rows.Keys)
    ensures var others := SortByUse(rows, FilterOthers(rows, deviceId, ids));
            Lists(others, OthersOf(rows, deviceId)) && InUseOrder(rows, others)
  {
    FilteredOnce(rows, deviceId, ids);
    SortedInOrder(rows, FilterOthers(rows, deviceId, ids));
  }

  /** A prefix in order of last use is no more recently used than the rest. */
  lemma PrefixLeastUsed(rows: Rows, others: seq<SessionId>, n: nat, v: SessionId, k: SessionId)
    requires InUseOrder(rows, others) && n <= |others| && v in others[..n] && k in others && k !in others[..n]
    ensures LastUse(rows[v]) <= LastUse(rows[k])
  {
    assert others == others[..n] + others[n..];
    var i :| 0 <= i < n && others[i] == v;
    var j :| n <= j < |others| && others[j] == k;
  }

  /** Filter, sort and slice choose least recently used sessions of other devices, as many as there are too many. */
  lemma DeletionIsCleanup(rows: Rows, deviceId: DeviceId, ids: seq<SessionId>)
    requires Lists(ids, rows.Keys)
    ensures IsCleanup(rows, deviceId, set id | id in IdsToDelete(rows, deviceId, ids, Excess(rows)))
  {
    var others := SortByUse(rows, FilterOthers(rows, deviceId, ids));
    OthersListed(rows, deviceId, ids);
    ListedSize(others, OthersOf(rows, deviceId));
    var n := if Excess(rows) <= |others| then Excess(rows) else |others|;
    var victims := set id | id in others[..n];
    assert IdsToDelete(rows, deviceId, ids, Excess(rows)) == others[..n];
    SliceIsListed(others, n);
    ListedSize(others[..n], victims);
    PrefixIsLeastUsed(rows, others, n, OthersOf(rows, deviceId));
  }

  lemma PrefixIsLeastUsed(rows: Rows, others: seq<SessionId>, n: nat, all: set<SessionId>)
    requires InUseOrder(rows, others) && Lists(others, all) && n <= |others|
    ensures var victims := set id | id in others[..n];
            && victims <= all && all <= rows.Keys
            && forall v, k :: v in victims && k in all - victims ==> LastUse(rows[v]) <= LastUse(rows[k])
  {
    var victims := set id | id in others[..n];
    forall id | id in all ensures id in rows {
      var i :| 0 <= i < |others| && others[i] == id;
    }
    forall v, k | v in victims && k in all - victims ensures LastUse(rows[v]) <= LastUse(rows[k]) {
      PrefixLeastUsed(rows, others, n, v, k);
    }
  }

  /** What is left of one user's rows when some of another's are deleted, and of the user's own. */
  lemma RowsWithout(sessions: map<SessionId, Session>, userId: UserId, victims: set<SessionId>)
    requires victims <= RowsOf(sessions, userId).Keys
    ensures RowsOf(sessions - victims, userId) == RowsOf(sessions, userId) - victims
    ensures forall other :: other != userId ==> RowsOf(sessions - victims, other) == RowsOf(sessions, other)
  {
    forall other | other != userId ensures RowsOf(sessions - victims, other) == RowsOf(sessions, other) {
      assert forall id :: id in RowsOf(sessions, other) ==> id !in victims;
    }
  }

  lemma RowSpared(rows: Rows, deviceId: DeviceId, victims: set<SessionId>, existing: Option<SessionId>)
    requires victims <= OthersOf(rows, deviceId) && IsRowOf(rows - victims, deviceId, existing)
    ensures IsRowOf(rows, deviceId, existing)
  {
    forall id | id in rows && rows[id].deviceId == deviceId ensures existing.Some? {
      assert id !in victims;
      assert id in rows - victims;
    }
  }

  /** With nothing else going on, the upsert finds what the choice of the id found. */
  lemma SameRowFound(rows: Rows, deviceId: DeviceId, victims: set<SessionId>, chosen: Option<SessionId>,
                     existing: Option<SessionId>)
    requires UniqueDevices(rows) && victims <= OthersOf(rows, deviceId)
    requires IsRowOf(rows, deviceId, chosen) && IsRowOf(rows - victims, deviceId, existing)
    ensures existing == chosen
  {
    RowSpared(rows, deviceId, victims, existing);
  }

  lemma UpsertedCount(rows: Rows, l: Login, existing: Option<SessionId>, token: LoginId, now: Time, expiresAt: Time)
    requires IsRowOf(rows, l.deviceId, existing)
    requires l.sessionId in rows ==> rows[l.sessionId].deviceId == l.deviceId
    ensures |Upserted(rows, l, existing, token, now, expiresAt)| == |rows| + if existing.None? then 1 else 0
  {
    var after := Upserted(rows, l, existing, token, now, expiresAt);
    assert after.Keys == rows.Keys + if existing.Some? then {existing.value} else {l.sessionId};
  }

  /** How a clean-up and an upsert change the number of rows: the clean-up never takes the device's own. */
  lemma LoginCount(rows: Rows, victims: set<SessionId>, l: Login, existing: Option<SessionId>, token: LoginId, now: Time,
                   expiresAt: Time)
    requires victims <= OthersOf(rows, l.deviceId) && IsRowOf(rows - victims, l.deviceId, existing)
    requires l.sessionId in rows ==> rows[l.sessionId].deviceId == l.deviceId
    ensures IsRowOf(rows, l.deviceId, existing)
    ensures |Upserted(rows - victims, l, existing, token, now, expiresAt)|
            == |rows| - |victims| + if existing.None? then 1 else 0
  {
    var left := rows - victims;
    assert left.Keys == rows.Keys - victims && victims <= rows.Keys;
    RowSpared(rows, l.deviceId, victims, existing);
    UpsertedCount(left, l, existing, token, now, expiresAt);
  }

  lemma LoginToken(rows: Rows, victims: set<SessionId>, l: Login, existing: Option<SessionId>, token: LoginId, now: Time,
                   expiresAt: Time)
    requires UniqueDevices(rows) && victims <= OthersOf(rows, l.deviceId)
    requires IsRowOf(rows - victims, l.deviceId, existing) && IsRowOf(rows, l.deviceId, existing)
    requires IsRowOf(rows, l.deviceId, Some(l.sessionId)) || IsRowOf(rows, l.deviceId, None)
    ensures forall t: Time ::
              Validates(Upserted(rows - victims, l, existing, token, now, expiresAt), l.sessionId, token, t) <==> t < expiresAt
  {
  }

  lemma CleanedUp(sessions: map<SessionId, Session>, userId: UserId, deviceId: DeviceId, victims: set<SessionId>,
                  databaseUp: bool)
    requires forall user :: UniqueDevices(RowsOf(sessions, user))
    requires victims <= RowsOf(sessions, userId).Keys
    requires if databaseUp then IsCleanup(RowsOf(sessions, userId), deviceId, victims) else victims == {}
    ensures RowsOf(sessions - victims, userId) == RowsOf(sessions, userId) - victims
    ensures forall user :: UniqueDevices(RowsOf(sessions - victims, user))
    ensures forall other :: other != userId ==> RowsOf(sessions - victims, other) == RowsOf(sessions, other)
    ensures |victims| == if databaseUp then Excess(RowsOf(sessions, userId)) else 0
  {
    RowsWithout(sessions, userId, victims);
    if databaseUp {
      CleanupKeepsFive(RowsOf(sessions, userId), deviceId, victims);
    }
    forall user ensures UniqueDevices(RowsOf(sessions - victims, user)) {
      assert UniqueDevices(RowsOf(sessions, user));
    }
  }

  lemma OneRowChanged(sessions: map<SessionId, Session>, userId: UserId, id: SessionId, row: Row)
    requires id in sessions ==> sessions[id].userId == userId
    ensures var after := sessions[id := Session(userId, row)];
            && RowsOf(after, userId) == RowsOf(sessions, userId)[id := row]
            && forall other :: other != userId ==> RowsOf(after, other) == RowsOf(sessions, other)
  {
    var after := sessions[id := Session(userId, row)];
    forall other | other != userId ensures RowsOf(after, other) == RowsOf(sessions, other) {
      assert id !in RowsOf(sessions, other);
    }
  }

  /** No session but this one is new or changed. */
  ghost predicate OthersAsBefore(before: map<SessionId, Session>, after: map<SessionId, Session>, id: SessionId) {
    forall other :: other in after && other != id ==> other in before && after[other] == before[other]
  }

  lemma OneChanged(before: map<SessionId, Session>, victims: set<SessionId>, id: SessionId, s: Session)
    ensures OthersAsBefore(before, (before - victims)[id := s], id)
  {
  }

  class SessionsService {
    var sessions: map<SessionId, Session>

    ghost predicate Valid() reads this {
      forall userId :: UniqueDevices(RowsOf(sessions, userId))
    }

    constructor ()
      ensures sessions == map[] && Valid()
    {
      sessions := map[];
    }

    /** The user's ids, in no particular order. */
    method FindByUserId(userId: UserId) returns (ids: seq<SessionId>)
      ensures Lists(ids, RowsOf(sessions, userId).Keys)
    {
      var rest := RowsOf(sessions, userId).Keys;
      ids := [];
      while rest != {}
        invariant rest <= RowsOf(sessions, userId).Keys
        invariant Lists(ids, RowsOf(sessions, userId).Keys - rest)
        decreases |rest|
      {
        var id :| id in rest;
        ids := ids + [id];
        rest := rest - {id};
      }
    }

    method FindByUserIdAndDeviceId(userId: UserId, deviceId: DeviceId) returns (found: Option<SessionId>)
      ensures IsRowOf(RowsOf(sessions, userId), deviceId, found)
    {
      var mine := set id | id in sessions && sessions[id].userId == userId && sessions[id].row.deviceId == deviceId;
      if mine != {} {
        var id :| id in mine;
        return Some(id);
      }
      forall id | id in RowsOf(sessions, userId) ensures RowsOf(sessions, userId)[id].deviceId != deviceId {
        assert id !in mine;
      }
      return None;
    }

    /** Keeps a user within the device limit by deleting the least recently used sessions of other devices. A clean-up
        that fails is only logged. */
    method PrepareForLogin(userId: UserId, deviceId: DeviceId, databaseUp: bool) returns (ghost victims: set<SessionId>)
      modifies this
      ensures sessions == old(sessions) - victims && victims <= RowsOf(old(sessions), userId).Keys
      ensures if databaseUp then IsCleanup(RowsOf(old(sessions), userId), deviceId, victims) else victims == {}
    {
      if databaseUp {
        victims := DeleteExcess(userId, deviceId);
      } else {
        victims := {};
      }
    }

    method DeleteExcess(userId: UserId, deviceId: DeviceId) returns (ghost victims: set<SessionId>)
      modifies this
      ensures sessions == old(sessions) - victims && victims <= RowsOf(old(sessions), userId).Keys
      ensures IsCleanup(RowsOf(old(sessions), userId), deviceId, victims)
    {
      var rows := RowsOf(sessions, userId);
      var found := FindByUserId(userId);
      ListedSize(found, rows.Keys);
      DeletionIsCleanup(rows, deviceId, found);
      var excess := |found| - MAX_DEVICES;
      if excess <= 0 {
        victims := {};
        return;
      }
      var idsToDelete := IdsToDelete(rows, deviceId, found, excess);
      victims := set id | id in idsToDelete;
      sessions := sessions - (set id | id in idsToDelete);
    }

    method CreateOrUpdate(userId: UserId, deviceId: DeviceId, sessionId: SessionId, token: LoginId, now: Time,
                          expiresAt: Time)
      returns (ghost existing: Option<SessionId>)
      requires Valid()
      requires sessionId in sessions ==>
                 sessions[sessionId].userId == userId && sessions[sessionId].row.deviceId == deviceId
      modifies this
      ensures Valid() && IsRowOf(RowsOf(old(sessions), userId), deviceId, existing)
      ensures RowsOf(sessions, userId)
              == Upserted(RowsOf(old(sessions), userId), Chosen(deviceId, sessionId), existing, token, now, expiresAt)
      ensures existing.Some? ==> existing.value in old(sessions)
      ensures var id := if existing.Some? then existing.value else sessionId;
              var createdAt := if existing.Some? then old(sessions)[id].row.createdAt else now;
              sessions == old(sessions)[id := Session(userId, Row(deviceId, token, Some(now), createdAt, expiresAt))]
      ensures forall other :: other != userId ==> RowsOf(sessions, other) == RowsOf(old(sessions), other)
    {
      ghost var before := sessions;
      var found := FindByUserIdAndDeviceId(userId, deviceId);
      existing := found;
      ghost var after := Upserted(RowsOf(before, userId), Chosen(deviceId, sessionId), existing, token, now, expiresAt);
      if found.Some? {
        var row := sessions[found.value].row;
        sessions := sessions[found.value := Session(userId,
                                                    row.(token := token, lastUsedAt := Some(now), expiresAt := expiresAt))];
      } else {
        sessions := sessions[sessionId := Session(userId, Row(deviceId, token, Some(now), now, expiresAt))];
      }
      OneRowChanged(before, userId, if found.Some? then found.value else sessionId,
                    sessions[if found.Some? then found.value else sessionId].row);
      assert RowsOf(sessions, userId) == after;
    }

    /** The session part of a login, with nothing else going on. Whatever was stored, afterwards the user has the
        smaller of what there was and five, and one more if the device is new. The token is good until it expires. */
    method Login(userId: UserId, deviceId: DeviceId, newId: SessionId, token: LoginId, now: Time, expiresAt: Time,
                 databaseUp: bool)
      returns (sessionId: SessionId)
      requires Valid() && newId !in sessions
      modifies this
      ensures Valid()
      ensures var rows := RowsOf(old(sessions), userId);
              var isNew := IsRowOf(rows, deviceId, None);
              |RowsOf(sessions, userId)|
              == (if databaseUp && |rows| > 5 then 5 else |rows|) + if isNew then 1 else 0
      ensures sessionId in sessions
              && var s := sessions[sessionId];
                 && s.userId == userId && s.row.deviceId == deviceId && s.row.token == token
                 && s.row.lastUsedAt == Some(now) && s.row.expiresAt == expiresAt
                 && (IsRowOf(RowsOf(old(sessions), userId), deviceId, None) ==> sessionId == newId && s.row.createdAt == now)
      ensures OthersAsBefore(old(sessions), sessions, sessionId)
      ensures forall t: Time :: Validates(RowsOf(sessions, userId), sessionId, token, t) <==> t < expiresAt
      ensures forall other :: other != userId ==> RowsOf(sessions, other) == RowsOf(old(sessions), other)
    {
      ghost var before, rows := sessions, RowsOf(sessions, userId);
      assert UniqueDevices(rows);
      var session := FindByUserIdAndDeviceId(userId, deviceId);
      sessionId := if session.Some? then session.value else newId;
      assert sessionId in before ==> before[sessionId].userId == userId && before[sessionId].row.deviceId == deviceId;
      ghost var victims := PrepareForLogin(userId, deviceId, databaseUp);
      CleanedUp(before, userId, deviceId, victims, databaseUp);
      ghost var existing := CreateOrUpdate(userId, deviceId, sessionId, token, now, expiresAt);
      SameRowFound(rows, deviceId, victims, session, existing);
      LoginCount(rows, victims, Chosen(deviceId, sessionId), existing, token, now, expiresAt);
      LoginToken(rows, victims, Chosen(deviceId, sessionId), existing, token, now, expiresAt);
      OneChanged(before, victims, sessionId, sessions[sessionId]);
    }

    method ValidateSession(sessionId: SessionId, token: LoginId, now: Time) returns (ok: bool)
      ensures ok <==> sessionId in sessions
                      && Validates(RowsOf(sessions, sessions[sessionId].userId), sessionId, token, now)
      ensures ok <==> sessionId in sessions && now < sessions[sessionId].row.expiresAt
                      && sessions[sessionId].row.token == token
    {
      if sessionId !in sessions || sessions[sessionId].row.expiresAt <= now {
        return false;
      }
      return sessions[sessionId].row.token == token;
    }
  }
}
