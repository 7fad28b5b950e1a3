/** User roles, the periods that record who held a moderating role and when, and the guarded role change. */
module RolePeriods {
  import opened Wrappers

  type UserId = nat
  type Time = nat

  datatype Role = USER | MODERATOR | ADMIN

  datatype Period = Period(userId: UserId, role: Role, start: Time, end: Option<Time>, changedBy: UserId)

  /** What really happened to one user: a role was written somewhere between two instants. */
  datatype Change = Change(begun: Time, done: Time, role: Role)

  datatype State = State(roles: map<UserId, Role>, periods: seq<Period>, log: map<UserId, seq<Change>>, clock: Time)

  datatype Event =
    | Register(id: UserId, at: Time)
    | CreateByAdmin(id: UserId, role: Option<Role>, adminId: UserId, createdAt: Time, openedAt: Time)
    /** The transaction of a role change, with the role its request had read before the transaction began. */
    | ChangeRole(id: UserId, snapshot: Role, newRole: Role, adminId: UserId, closedAt: Time, openedAt: Time)

  predicate IsRoleTracked(role: Role) { role == MODERATOR || role == ADMIN }

  // ---- Period rows ----

  predicate IsActive(p: Period, id: UserId) { p.userId == id && p.end.None? }

  function Closed(ps: seq<Period>, id: UserId, at: Time): (r: seq<Period>)
    ensures |r| == |ps|
  {
    seq(|ps|, i requires 0 <= i < |ps| => if IsActive(ps[i], id) then ps[i].(end := Some(at)) else ps[i])
  }

  function Opened(ps: seq<Period>, id: UserId, role: Role, at: Time, adminId: UserId): seq<Period> {
    ps + [Period(id, role, at, None, adminId)]
  }

  /** The rows after a role change, by the four cases of old and new role. */
  function RoleChanged(ps: seq<Period>, id: UserId, oldRole: Role, newRole: Role, adminId: UserId, closedAt: Time,
                       openedAt: Time): seq<Period> {
    if oldRole == newRole then ps
    else if !IsRoleTracked(oldRole) && IsRoleTracked(newRole) then Opened(ps, id, newRole, openedAt, adminId)
    else if IsRoleTracked(oldRole) && !IsRoleTracked(newRole) then Closed(ps, id, closedAt)
    else if IsRoleTracked(oldRole) && IsRoleTracked(newRole) then
      Opened(Closed(ps, id, closedAt), id, newRole, openedAt, adminId)
    else ps
  }

  // ---- The guard ----

  function Others(roles: map<UserId, Role>, id: UserId, role: Role): set<UserId> {
    set u | u in roles && u != id && roles[u] == role
  }

  function Holders(roles: map<UserId, Role>, role: Role): set<UserId> {
    set u | u in roles && roles[u] == role
  }

  /** The count the guard compares with one. The user is already left out of the others, and is subtracted again. */
  function GuardCount(roles: map<UserId, Role>, id: UserId, snapshot: Role, newRole: Role, role: Role): int {
    |Others(roles, id, role)| - (if snapshot == role then 1 else 0) + if newRole == role then 1 else 0
  }

  predicate GuardPasses(roles: map<UserId, Role>, id: UserId, snapshot: Role, newRole: Role) {
    || snapshot == newRole
    || (GuardCount(roles, id, snapshot, newRole, ADMIN) >= 1 && GuardCount(roles, id, snapshot, newRole, MODERATOR) >= 1)
  }

  // ---- Steps ----

  predicate Enabled(s: State, e: Event) {
    match e
    case Register(id, at) => id !in s.roles && s.clock <= at
    case CreateByAdmin(id, role, adminId, createdAt, openedAt) =>
      id !in s.roles && s.clock <= createdAt <= openedAt
    case ChangeRole(id, snapshot, newRole, adminId, closedAt, openedAt) =>
      id in s.roles && s.clock <= closedAt <= openedAt
  }

  /** A change that the guard turns down leaves the rows alone. */
  function Apply(s: State, e: Event): State
    requires Enabled(s, e)
  {
    match e
    case Register(id, at) =>
      State(s.roles[id := USER], s.periods, s.log[id := [Change(at, at, USER)]], at)
    case CreateByAdmin(id, role, adminId, createdAt, openedAt) =>
      var r := if role.Some? then role.value else USER;
      State(s.roles[id := r],
            if r != USER then Opened(s.periods, id, r, openedAt, adminId) else s.periods,
            s.log[id := [Change(createdAt, openedAt, r)]], openedAt)
    case ChangeRole(id, snapshot, newRole, adminId, closedAt, openedAt) =>
      if !GuardPasses(s.roles, id, snapshot, newRole) then s.(clock := openedAt)
      else
        State(s.roles[id := newRole],
              RoleChanged(s.periods, id, snapshot, newRole, adminId, closedAt, openedAt),
              if snapshot == newRole == s.roles[id] then s.log
              else Logged(s.log, id, Change(closedAt, openedAt, newRole)),
              openedAt)
  }

  function Logged(log: map<UserId, seq<Change>>, id: UserId, c: Change): map<UserId, seq<Change>> {
    if id in log then log[id := log[id] + [c]] else log[id := [c]]
  }

  const Initial := State(map[], [], map[], 0)

  ghost predicate IsRun(states: seq<State>, events: seq<Event>) {
    && |states| == |events| + 1
    && states[0] == Initial
    && forall i :: 0 <= i < |events| ==> Enabled(states[i], events[i]) && states[i + 1] == Apply(states[i], events[i])
  }

  // ---- What the rows are for ----

  predicate Covers(p: Period, id: UserId, t: Time) {
    p.userId == id && p.start <= t && (p.end.Some? ==> t < p.end.value)
  }

  ghost predicate OneCovers(ps: seq<Period>, id: UserId, t: Time, role: Role) {
    exists i :: 0 <= i < |ps| && Covers(ps[i], id, t) && ps[i].role == role
                && forall j :: 0 <= j < |ps| && Covers(ps[j], id, t) ==> j == i
  }

  ghost predicate NoneCovers(ps: seq<Period>, id: UserId, t: Time) {
    forall i :: 0 <= i < |ps| ==> !Covers(ps[i], id, t)
  }

  ghost predicate AtMostOneCovers(ps: seq<Period>, id: UserId, t: Time) {
    forall i, j :: 0 <= i < |ps| && 0 <= j < |ps| && Covers(ps[i], id, t) && Covers(ps[j], id, t) ==> i == j
  }

  ghost predicate OneActive(ps: seq<Period>, id: UserId, role: Role) {
    exists i :: 0 <= i < |ps| && IsActive(ps[i], id) && ps[i].role == role
                && forall j :: 0 <= j < |ps| && IsActive(ps[j], id) ==> j == i
  }

  ghost predicate NoneActive(ps: seq<Period>, id: UserId) {
    forall i :: 0 <= i < |ps| ==> !IsActive(ps[i], id)
  }

  /** The role held at an instant: that of the last change finished by then. */
  function RoleAt(changes: seq<Change>, t: Time): Option<Role> {
    if changes == [] then None
    else if changes[|changes| - 1].done <= t then Some(changes[|changes| - 1].role)
    else RoleAt(changes[..|changes| - 1], t)
  }

  /** No change was under way at this instant. */
  predicate Settled(changes: seq<Change>, t: Time) {
    forall i :: 0 <= i < |changes| ==> !(changes[i].begun <= t < changes[i].done)
  }

  /** A user has an open period exactly when the role is tracked; then exactly one, carrying the current role. */
  ghost predicate OpenMatchesRole(s: State, id: UserId)
    requires id in s.roles
  {
    if IsRoleTracked(s.roles[id]) then OneActive(s.periods, id, s.roles[id]) else NoneActive(s.periods, id)
  }

  /** At any settled instant the rows give back the role that was held. */
  ghost predicate ReplaysAt(s: State, id: UserId, t: Time)
    requires id in s.log
  {
    && AtMostOneCovers(s.periods, id, t)
    && (Settled(s.log[id], t) ==>
          match RoleAt(s.log[id], t)
          case None => NoneCovers(s.periods, id, t)
          case Some(role) =>
            if IsRoleTracked(role) then OneCovers(s.periods, id, t, role) else NoneCovers(s.periods, id, t))
  }

  ghost predicate Replays(s: State, id: UserId)
    requires id in s.log
  {
    forall t: Time :: ReplaysAt(s, id, t)
  }

  ghost predicate RowsSound(ps: seq<Period>, users: set<UserId>, clock: Time) {
    forall i :: 0 <= i < |ps| ==>
      && ps[i].userId in users && ps[i].start <= clock && (ps[i].end.Some? ==> ps[i].end.value <= clock)
  }

  ghost predicate LogSound(changes: seq<Change>, role: Role, clock: Time) {
    && changes != [] && changes[|changes| - 1].role == role
    && forall i :: 0 <= i < |changes| ==> changes[i].begun <= changes[i].done <= clock
  }

  /** Rows belong to known users and lie in the past; the log ends with the role the user has. */
  ghost predicate Sound(s: State) {
    && s.log.Keys == s.roles.Keys
    && RowsSound(s.periods, s.roles.Keys, s.clock)
    && forall id :: id in s.log ==> LogSound(s.log[id], s.roles[id], s.clock)
  }

  ghost predicate UserOk(s: State, id: UserId)
    requires Sound(s) && id in s.roles
  {
    OpenMatchesRole(s, id) && Replays(s, id)
  }

  ghost predicate Inv(s: State) {
    Sound(s) && forall id :: id in s.roles ==> UserOk(s, id)
  }

  // ---- Preservation ----

  lemma RowsSoundStep(s: State, e: Event)
    requires Sound(s) && Enabled(s, e)
    ensures var t := Apply(s, e); RowsSound(t.periods, t.roles.Keys, t.clock)
  {
  }

  lemma LogSoundStep(s: State, e: Event, id: UserId)
    requires Sound(s) && Enabled(s, e)
    ensures var t := Apply(s, e);
            t.log.Keys == t.roles.Keys && (id in t.log ==> LogSound(t.log[id], t.roles[id], t.clock))
  {
    if id in s.log {
      assert LogSound(s.log[id], s.roles[id], s.clock);
    }
  }

  lemma SoundStep(s: State, e: Event)
    requires Sound(s) && Enabled(s, e)
    ensures Sound(Apply(s, e))
  {
    RowsSoundStep(s, e);
    LogSoundStep(s, e, e.id);
    var t := Apply(s, e);
    forall id | id in t.log ensures LogSound(t.log[id], t.roles[id], t.clock) {
      LogSoundStep(s, e, id);
    }
  }

  /** Rows of other users stay as they are, and no row is added for them. */
  ghost predicate OnlyTouches(ps: seq<Period>, qs: seq<Period>, id: UserId) {
    && |ps| <= |qs|
    && (forall i :: 0 <= i < |ps| && ps[i].userId != id ==> qs[i] == ps[i])
    && (forall i :: 0 <= i < |ps| ==> qs[i].userId == ps[i].userId)
    && (forall i :: |ps| <= i < |qs| ==> qs[i].userId == id)
  }

  lemma OnlyOwnRows(s: State, e: Event)
    requires Enabled(s, e)
    ensures OnlyTouches(s.periods, Apply(s, e).periods, e.id)
  {
  }

  lemma OwnEntriesOnly(s: State, e: Event, other: UserId)
    requires Sound(s) && Enabled(s, e) && other in s.roles && other != e.id
    ensures var t := Apply(s, e);
            other in t.log && other in t.roles && t.log[other] == s.log[other] && t.roles[other] == s.roles[other]
  {
  }

  lemma OthersUntouched(s: State, e: Event, other: UserId)
    requires Sound(s) && Enabled(s, e) && other in s.roles && other != e.id && UserOk(s, other)
    ensures Sound(Apply(s, e)) && other in Apply(s, e).roles && UserOk(Apply(s, e), other)
  {
    SoundStep(s, e);
    OnlyOwnRows(s, e);
    OwnEntriesOnly(s, e, other);
    var t := Apply(s, e);
    SameOpen(s, t, other, e.id);
    forall at: Time ensures ReplaysAt(t, other, at) {
      assert ReplaysAt(s, other, at);
      SameCover(s, t, other, e.id, at);
    }
  }

  lemma SameOpen(s: State, t: State, other: UserId, id: UserId)
    requires OnlyTouches(s.periods, t.periods, id) && other != id && other in s.roles && other in t.roles
    requires t.roles[other] == s.roles[other] && OpenMatchesRole(s, other)
    ensures OpenMatchesRole(t, other)
  {
    if IsRoleTracked(s.roles[other]) {
      var i :| 0 <= i < |s.periods| && IsActive(s.periods[i], other) && s.periods[i].role == s.roles[other]
               && forall j :: 0 <= j < |s.periods| && IsActive(s.periods[j], other) ==> j == i;
      assert IsActive(t.periods[i], other);
    }
  }

  lemma SameCover(s: State, t: State, other: UserId, id: UserId, at: Time)
    requires OnlyTouches(s.periods, t.periods, id) && other != id && other in s.log && other in t.log
    requires t.log[other] == s.log[other] && ReplaysAt(s, other, at)
    ensures ReplaysAt(t, other, at)
  {
    assert forall i :: 0 <= i < |t.periods| && Covers(t.periods[i], other, at) ==>
        i < |s.periods| && Covers(s.periods[i], other, at);
    if Settled(s.log[other], at) && RoleAt(s.log[other], at).Some? && IsRoleTracked(RoleAt(s.log[other], at).value) {
      var role := RoleAt(s.log[other], at).value;
      var i :| 0 <= i < |s.periods| && Covers(s.periods[i], other, at) && s.periods[i].role == role
               && forall j :: 0 <= j < |s.periods| && Covers(s.periods[j], other, at) ==> j == i;
      assert Covers(t.periods[i], other, at);
    }
  }

  /** The new user's first period, if any, is the only row for that user. */
  lemma NewUserOk(s: State, e: Event)
    requires Sound(s) && Enabled(s, e) && !e.ChangeRole?
    ensures Sound(Apply(s, e)) && UserOk(Apply(s, e), e.id)
  {
    SoundStep(s, e);
    var t := Apply(s, e);
    var id, n := e.id, |s.periods|;
    assert forall i :: 0 <= i < n ==> t.periods[i].userId != id;
    if IsRoleTracked(t.roles[id]) {
      assert IsActive(t.periods[n], id);
    }
    forall at: Time ensures ReplaysAt(t, id, at) {
      FirstChange(t.log[id][0], at);
      if IsRoleTracked(t.roles[id]) {
        assert Covers(t.periods[n], id, at) <==> t.log[id][0].done <= at;
      }
    }
  }

  lemma FirstChange(c: Change, t: Time)
    ensures RoleAt([c], t) == if c.done <= t then Some(c.role) else None
  {
    assert [c][..0] == [];
  }

  /** The snapshot still supports the period bookkeeping: a change read as none must be none, and a period is opened
      without closing another only for a user who has none open. */
  predicate Harmless(current: Role, snapshot: Role, newRole: Role) {
    && (snapshot == newRole ==> current == newRole)
    && (!IsRoleTracked(snapshot) && IsRoleTracked(newRole) ==> !IsRoleTracked(current))
  }

  /** An accepted change keeps the open period right exactly when its snapshot is harmless. */
  lemma OpenKeptExactly(s: State, e: Event)
    requires Sound(s) && Enabled(s, e) && e.ChangeRole? && OpenMatchesRole(s, e.id)
    requires GuardPasses(s.roles, e.id, e.snapshot, e.newRole)
    ensures OpenMatchesRole(Apply(s, e), e.id) <==> Harmless(s.roles[e.id], e.snapshot, e.newRole)
  {
    var t := Apply(s, e);
    var id, n := e.id, |s.periods|;
    if IsRoleTracked(s.roles[id]) {
      var i :| 0 <= i < n && IsActive(s.periods[i], id) && s.periods[i].role == s.roles[id]
               && forall j :: 0 <= j < n && IsActive(s.periods[j], id) ==> j == i;
      if e.snapshot == e.newRole {
        assert t.periods[i] == s.periods[i];
        assert IsActive(t.periods[i], id);
      } else if !IsRoleTracked(e.snapshot) {
        assert IsActive(t.periods[i], id) && IsActive(t.periods[n], id);
      } else if IsRoleTracked(e.newRole) {
        assert IsActive(t.periods[n], id);
      }
    } else if IsRoleTracked(e.newRole) && e.snapshot != e.newRole {
      assert IsActive(t.periods[n], id);
    }
  }

  /** Once an interval has ended, or been closed now, it covers no later instant; earlier instants see no difference. */
  lemma ChangedCover(s: State, e: Event, at: Time)
    requires Sound(s) && Enabled(s, e) && e.ChangeRole? && OpenMatchesRole(s, e.id)
    requires GuardPasses(s.roles, e.id, e.snapshot, e.newRole) && e.snapshot != e.newRole
    requires Harmless(s.roles[e.id], e.snapshot, e.newRole)
    ensures var t := Apply(s, e);
            var n := |s.periods|;
            && n <= |t.periods| <= n + 1
            && (forall i :: 0 <= i < n ==>
                  t.periods[i].role == s.periods[i].role
                  && (Covers(t.periods[i], e.id, at) <==> at < e.closedAt && Covers(s.periods[i], e.id, at)))
            && (|t.periods| > n <==> IsRoleTracked(e.newRole))
            && (|t.periods| > n ==>
                  t.periods[n].role == e.newRole && (Covers(t.periods[n], e.id, at) <==> e.openedAt <= at))
  {
    var t := Apply(s, e);
    forall i | 0 <= i < |s.periods|
      ensures t.periods[i].role == s.periods[i].role
      ensures Covers(t.periods[i], e.id, at) <==> at < e.closedAt && Covers(s.periods[i], e.id, at)
    {
      if IsRoleTracked(e.snapshot) {
        assert t.periods[i] == Closed(s.periods, e.id, e.closedAt)[i];
      } else {
        assert t.periods[i] == s.periods[i];
        assert !IsActive(s.periods[i], e.id);
      }
    }
  }

  lemma ChangedLog(changes: seq<Change>, c: Change, t: Time)
    ensures RoleAt(changes + [c], t) == if c.done <= t then Some(c.role) else RoleAt(changes, t)
    ensures Settled(changes + [c], t) ==> Settled(changes, t) && (t < c.begun || c.done <= t)
  {
    var longer := changes + [c];
    assert longer[..|changes|] == changes;
    if Settled(longer, t) {
      assert forall i :: 0 <= i < |changes| ==> changes[i] == longer[i];
      assert longer[|changes|] == c;
    }
  }

  /** Rows that cover the same instants by the same indices replay the same role. */
  lemma CoverTransfer(ps: seq<Period>, qs: seq<Period>, id: UserId, at: Time)
    requires |ps| <= |qs|
    requires forall i :: 0 <= i < |ps| ==>
               qs[i].role == ps[i].role && (Covers(qs[i], id, at) <==> Covers(ps[i], id, at))
    requires forall i :: |ps| <= i < |qs| ==> !Covers(qs[i], id, at)
    ensures AtMostOneCovers(ps, id, at) ==> AtMostOneCovers(qs, id, at)
    ensures NoneCovers(ps, id, at) ==> NoneCovers(qs, id, at)
    ensures forall role :: OneCovers(ps, id, at, role) ==> OneCovers(qs, id, at, role)
  {
    forall role | OneCovers(ps, id, at, role) ensures OneCovers(qs, id, at, role) {
      var i :| 0 <= i < |ps| && Covers(ps[i], id, at) && ps[i].role == role
               && forall j :: 0 <= j < |ps| && Covers(ps[j], id, at) ==> j == i;
      assert Covers(qs[i], id, at);
    }
  }

  lemma ReplayBefore(s: State, e: Event, at: Time)
    requires Sound(s) && Enabled(s, e) && e.ChangeRole? && UserOk(s, e.id)
    requires GuardPasses(s.roles, e.id, e.snapshot, e.newRole) && e.snapshot != e.newRole
    requires Harmless(s.roles[e.id], e.snapshot, e.newRole) && at < e.closedAt
    ensures Sound(Apply(s, e)) && ReplaysAt(Apply(s, e), e.id, at)
  {
    SoundStep(s, e);
    ChangedCover(s, e, at);
    CoverTransfer(s.periods, Apply(s, e).periods, e.id, at);
    LoggedChange(s, e, at);
    assert ReplaysAt(s, e.id, at);
  }

  lemma ReplayAfter(s: State, e: Event, at: Time)
    requires Sound(s) && Enabled(s, e) && e.ChangeRole? && UserOk(s, e.id)
    requires GuardPasses(s.roles, e.id, e.snapshot, e.newRole) && e.snapshot != e.newRole
    requires Harmless(s.roles[e.id], e.snapshot, e.newRole) && e.closedAt <= at
    ensures Sound(Apply(s, e)) && ReplaysAt(Apply(s, e), e.id, at)
  {
    SoundStep(s, e);
    ChangedCover(s, e, at);
    LoggedChange(s, e, at);
    var id, t, n := e.id, Apply(s, e), |s.periods|;
    assert forall j :: 0 <= j < |t.periods| && Covers(t.periods[j], id, at) ==> j == n;
    if e.openedAt <= at && IsRoleTracked(e.newRole) {
      assert Covers(t.periods[n], id, at);
      assert OneCovers(t.periods, id, at, e.newRole);
    }
  }

  lemma LoggedChange(s: State, e: Event, at: Time)
    requires Sound(s) && Enabled(s, e) && e.ChangeRole?
    requires GuardPasses(s.roles, e.id, e.snapshot, e.newRole) && e.snapshot != e.newRole
    ensures var t := Apply(s, e);
            && e.id in t.log
            && RoleAt(t.log[e.id], at) == (if e.openedAt <= at then Some(e.newRole) else RoleAt(s.log[e.id], at))
            && (Settled(t.log[e.id], at) ==> Settled(s.log[e.id], at) && (at < e.closedAt || e.openedAt <= at))
  {
    ChangedLog(s.log[e.id], Change(e.closedAt, e.openedAt, e.newRole), at);
  }

  /** A change that changes nothing. */
  lemma SameRoleKept(s: State, e: Event)
    requires Inv(s) && Enabled(s, e) && e.ChangeRole? && e.snapshot == e.newRole == s.roles[e.id]
    ensures Sound(Apply(s, e)) && UserOk(Apply(s, e), e.id)
  {
    SoundStep(s, e);
    var t := Apply(s, e);
    assert t.roles == s.roles && t.periods == s.periods && t.log == s.log;
    assert UserOk(s, e.id);
    forall at: Time ensures ReplaysAt(t, e.id, at) {
      assert ReplaysAt(s, e.id, at);
    }
  }

  /** An accepted change leaves the user's record right exactly when its snapshot is harmless. */
  lemma RecordKeptExactly(s: State, e: Event)
    requires Inv(s) && Enabled(s, e) && e.ChangeRole?
    requires GuardPasses(s.roles, e.id, e.snapshot, e.newRole)
    ensures Sound(Apply(s, e))
    ensures UserOk(Apply(s, e), e.id) <==> Harmless(s.roles[e.id], e.snapshot, e.newRole)
  {
    SoundStep(s, e);
    assert UserOk(s, e.id);
    OpenKeptExactly(s, e);
    if Harmless(s.roles[e.id], e.snapshot, e.newRole) {
      if e.snapshot == e.newRole {
        SameRoleKept(s, e);
      } else {
        forall at: Time ensures ReplaysAt(Apply(s, e), e.id, at) {
          if at < e.closedAt {
            ReplayBefore(s, e, at);
          } else {
            ReplayAfter(s, e, at);
          }
        }
      }
    }
  }

  // ---- Whole runs ----

  /** Every accepted change acted on a snapshot that still supported it. Requests that run one at a time always do. */
  ghost predicate HarmlessRun(states: seq<State>, events: seq<Event>)
    requires IsRun(states, events)
  {
    forall i :: 0 <= i < |events| ==> HarmlessStep(states[i], events[i])
  }

  ghost predicate HarmlessStep(s: State, e: Event)
    requires Enabled(s, e)
  {
    e.ChangeRole? && GuardPasses(s.roles, e.id, e.snapshot, e.newRole) ==>
      Harmless(s.roles[e.id], e.snapshot, e.newRole)
  }

  /** A request that reads the role and changes it without another change in between is harmless. */
  lemma FreshIsHarmless(s: State, e: Event)
    requires Enabled(s, e) && (e.ChangeRole? ==> e.snapshot == s.roles[e.id])
    ensures HarmlessStep(s, e)
  {
  }

  lemma InvStep(s: State, e: Event)
    requires Inv(s) && Enabled(s, e) && HarmlessStep(s, e)
    ensures Inv(Apply(s, e))
  {
    SoundStep(s, e);
    var t := Apply(s, e);
    forall id | id in t.roles ensures UserOk(t, id) {
      if id != e.id {
        OthersUntouched(s, e, id);
      } else if !e.ChangeRole? {
        NewUserOk(s, e);
      } else if GuardPasses(s.roles, e.id, e.snapshot, e.newRole) {
        RecordKeptExactly(s, e);
      } else {
        RejectedKept(s, e);
      }
    }
  }

  lemma RejectedKept(s: State, e: Event)
    requires Inv(s) && Enabled(s, e) && e.ChangeRole? && !GuardPasses(s.roles, e.id, e.snapshot, e.newRole)
    ensures Sound(Apply(s, e)) && UserOk(Apply(s, e), e.id)
  {
    SoundStep(s, e);
    var t := Apply(s, e);
    assert UserOk(s, e.id);
    forall at: Time ensures ReplaysAt(t, e.id, at) {
      assert ReplaysAt(s, e.id, at);
    }
  }

  lemma {:induction false} RunInv(states: seq<State>, events: seq<Event>, k: nat)
    requires IsRun(states, events) && k <= |events|
    requires forall i :: 0 <= i < k ==> HarmlessStep(states[i], events[i])
    ensures Inv(states[k])
  {
    if k > 0 {
      RunInv(states, events, k - 1);
      InvStep(states[k - 1], events[k - 1]);
    }
  }

  /** In a harmless run a user has an open period exactly when the role is tracked, then exactly one and with the
      current role; and no two periods of a user ever overlap. */
  lemma OpenPeriodsMatchRoles(states: seq<State>, events: seq<Event>, k: nat, id: UserId)
    requires IsRun(states, events) && HarmlessRun(states, events) && k <= |events| && id in states[k].roles
    ensures OpenMatchesRole(states[k], id)
    ensures forall t: Time :: AtMostOneCovers(states[k].periods, id, t)
  {
    RunInv(states, events, k);
    assert UserOk(states[k], id);
    forall t: Time ensures AtMostOneCovers(states[k].periods, id, t) {
      assert ReplaysAt(states[k], id, t);
    }
  }

  /** The first accepted change that acts on a stale snapshot it does not support breaks the user's record at once. */
  lemma FirstHarmBreaks(states: seq<State>, events: seq<Event>, k: nat)
    requires IsRun(states, events) && k < |events|
    requires forall i :: 0 <= i < k ==> HarmlessStep(states[i], events[i])
    ensures HarmlessStep(states[k], events[k]) <==> Inv(states[k + 1])
  {
    RunInv(states, events, k);
    var s, e := states[k], events[k];
    if HarmlessStep(s, e) {
      InvStep(s, e);
    } else {
      RecordKeptExactly(s, e);
      assert e.id in states[k + 1].roles;
    }
  }

  function Begins(e: Event): Time {
    match e
    case Register(_, at) => at
    case CreateByAdmin(_, _, _, createdAt, _) => createdAt
    case ChangeRole(_, _, _, _, closedAt, _) => closedAt
  }

  /** An instant at which nothing was under way: after step `k` was reached and before the next event began. */
  ghost predicate Between(states: seq<State>, events: seq<Event>, k: nat, t: Time)
    requires IsRun(states, events) && k <= |events|
  {
    states[k].clock <= t && (k < |events| ==> t < Begins(events[k]))
  }

  function RoleIn(s: State, id: UserId): Option<Role> { if id in s.roles then Some(s.roles[id]) else None }

  /** The log entries of a user, none before the user exists. */
  function LogOf(s: State, id: UserId): seq<Change> { if id in s.log then s.log[id] else [] }

  lemma LogNow(s: State, id: UserId, t: Time)
    requires Sound(s) && s.clock <= t
    ensures RoleAt(LogOf(s, id), t) == RoleIn(s, id) && Settled(LogOf(s, id), t)
  {
    if id in s.log {
      assert LogSound(s.log[id], s.roles[id], s.clock);
    }
  }

  lemma LaterLogKeeps(s: State, e: Event, id: UserId, t: Time)
    requires Sound(s) && Enabled(s, e) && t < Begins(e)
    ensures var l := Apply(s, e);
            RoleAt(LogOf(l, id), t) == RoleAt(LogOf(s, id), t)
            && (Settled(LogOf(s, id), t) ==> Settled(LogOf(l, id), t))
  {
    var before, after := LogOf(s, id), LogOf(Apply(s, e), id);
    if after != before {
      assert id == e.id;
      assert after == before + [after[|before|]];
      ChangedLog(before, after[|before|], t);
    }
  }

  lemma {:induction false} LogRemembers(states: seq<State>, events: seq<Event>, k: nat, n: nat, id: UserId, t: Time)
    requires IsRun(states, events) && k <= n <= |events| && Between(states, events, k, t)
    requires forall i :: 0 <= i <= |events| ==> Sound(states[i])
    ensures RoleAt(LogOf(states[n], id), t) == RoleIn(states[k], id) && Settled(LogOf(states[n], id), t)
    ensures n < |events| ==> t < Begins(events[n])
    ensures n > k ==> t < states[n].clock
    decreases n
  {
    if n == k {
      LogNow(states[k], id, t);
    } else {
      LogRemembers(states, events, k, n - 1, id, t);
      assert Enabled(states[n - 1], events[n - 1]);
      LaterLogKeeps(states[n - 1], events[n - 1], id, t);
      assert n < |events| ==> Enabled(states[n], events[n]);
    }
  }

  /** The period rows at the end of a harmless run give back the role a user held at any past instant: one covering
      period with that role if it was tracked, and none if it was not, or the user did not exist yet. */
  lemma PeriodsReplayHistory(states: seq<State>, events: seq<Event>, k: nat, id: UserId, t: Time)
    requires IsRun(states, events) && HarmlessRun(states, events) && k <= |events| && Between(states, events, k, t)
    ensures var rows := states[|events|].periods;
            var held := RoleIn(states[k], id);
            if held.Some? && IsRoleTracked(held.value) then OneCovers(rows, id, t, held.value)
            else NoneCovers(rows, id, t)
  {
    var n := |events|;
    forall i | 0 <= i <= n ensures Sound(states[i]) {
      RunInv(states, events, i);
    }
    RunInv(states, events, n);
    LogRemembers(states, events, k, n, id, t);
    if id in states[n].roles {
      assert UserOk(states[n], id);
      assert ReplaysAt(states[n], id, t);
    } else {
      assert LogOf(states[n], id) == [];
    }
  }

  // ---- Staffing ----

  lemma HoldersAfter(roles: map<UserId, Role>, id: UserId, newRole: Role, role: Role)
    ensures |Holders(roles[id := newRole], role)| == |Others(roles, id, role)| + if newRole == role then 1 else 0
  {
    var after := Holders(roles[id := newRole], role);
    if newRole == role {
      assert after == Others(roles, id, role) + {id};
    } else {
      assert after == Others(roles, id, role);
    }
  }

  /** The guard subtracts the user's own role from counts that already leave the user out. So it accepts exactly when
      one admin and one moderator remain, and one more than that of the role being given up. */
  lemma GuardExactly(roles: map<UserId, Role>, id: UserId, snapshot: Role, newRole: Role)
    requires snapshot != newRole
    ensures GuardPasses(roles, id, snapshot, newRole) <==>
            && |Holders(roles[id := newRole], ADMIN)| >= (if snapshot == ADMIN then 2 else 1)
            && |Holders(roles[id := newRole], MODERATOR)| >= (if snapshot == MODERATOR then 2 else 1)
  {
    HoldersAfter(roles, id, newRole, ADMIN);
    HoldersAfter(roles, id, newRole, MODERATOR);
  }

  /** An accepted change that is not read as none leaves an admin and a moderator, however stale its snapshot. */
  lemma AcceptedChangeLeavesStaff(s: State, e: Event)
    requires Enabled(s, e) && e.ChangeRole? && e.snapshot != e.newRole
    requires GuardPasses(s.roles, e.id, e.snapshot, e.newRole)
    ensures Holders(Apply(s, e).roles, ADMIN) != {} && Holders(Apply(s, e).roles, MODERATOR) != {}
  {
    GuardExactly(s.roles, e.id, e.snapshot, e.newRole);
  }

  /** The change skips the guard, because its request had read the role it asks for, and takes another role from the
      only user who has it by now. */
  predicate LosesLast(s: State, e: Event, role: Role) {
    && e.ChangeRole? && e.snapshot == e.newRole != role
    && e.id in s.roles && s.roles[e.id] == role && Others(s.roles, e.id, role) == {}
  }

  /** Nothing but such a change loses a role, whatever its snapshot; and it does. */
  lemma StaffStepExactly(s: State, e: Event, role: Role)
    requires Enabled(s, e) && IsRoleTracked(role) && Holders(s.roles, role) != {}
    ensures Holders(Apply(s, e).roles, role) != {} <==> !LosesLast(s, e, role)
  {
    var after := Apply(s, e).roles;
    var u :| u in Holders(s.roles, role);
    if e.ChangeRole? && GuardPasses(s.roles, e.id, e.snapshot, e.newRole) {
      HoldersAfter(s.roles, e.id, e.newRole, role);
      assert u == e.id || u in Others(s.roles, e.id, role);
    } else {
      assert u in Holders(after, role);
    }
  }

  /** In every run: from any moment at which somebody holds the role, somebody does for as long as there is no such
      change, and after the first one nobody does. */
  lemma {:induction false} StaffKeptExactly(states: seq<State>, events: seq<Event>, k: nat, n: nat, role: Role)
    requires IsRun(states, events) && k <= n <= |events| && IsRoleTracked(role) && Holders(states[k].roles, role) != {}
    requires forall i :: k <= i < n - 1 ==> !LosesLast(states[i], events[i], role)
    ensures Holders(states[n].roles, role) != {} <==> n == k || !LosesLast(states[n - 1], events[n - 1], role)
    decreases n
  {
    if n > k {
      var j := n - 1;
      StaffKeptExactly(states, events, k, j, role);
      assert j > k ==> !LosesLast(states[j - 1], events[j - 1], role);
      StaffStepExactly(states[j], events[j], role);
    }
  }

  /** Two admins and a moderator: one admin cannot step down, although an admin and a moderator would remain. */
  lemma SecondAdminCannotStepDown(a: UserId, b: UserId, m: UserId)
    requires a != b && b != m && a != m
    ensures var roles := map[a := ADMIN, b := ADMIN, m := MODERATOR];
            && !GuardPasses(roles, a, ADMIN, USER)
            && Holders(roles[a := USER], ADMIN) == {b} && Holders(roles[a := USER], MODERATOR) == {m}
  {
    var roles := map[a := ADMIN, b := ADMIN, m := MODERATOR];
    GuardExactly(roles, a, ADMIN, USER);
    assert Holders(roles[a := USER], ADMIN) == {b};
    assert Holders(roles[a := USER], MODERATOR) == {m};
  }

  /** Two requests that both read USER: the second opens a period beside the first. */
  lemma TwoStaleRequestsOpenTwice(s: State, id: UserId, admin: UserId, first: Time, second: Time)
    requires Inv(s) && id in s.roles && s.roles[id] == USER && s.clock <= first <= second
    requires Holders(s.roles, ADMIN) != {} && Holders(s.roles, MODERATOR) != {}
    ensures var e1 := ChangeRole(id, USER, MODERATOR, admin, first, first);
            var e2 := ChangeRole(id, USER, ADMIN, admin, second, second);
            && Enabled(s, e1) && Enabled(Apply(s, e1), e2)
            && Apply(Apply(s, e1), e2).roles[id] == ADMIN
            && !OpenMatchesRole(Apply(Apply(s, e1), e2), id)
  {
    var e1 := ChangeRole(id, USER, MODERATOR, admin, first, first);
    var e2 := ChangeRole(id, USER, ADMIN, admin, second, second);
    UserJoins(s.roles, id, MODERATOR);
    InvStep(s, e1);
    var t := Apply(s, e1);
    assert t.roles == s.roles[id := MODERATOR] && UserOk(t, id);
    OpenKeptExactly(t, e2);
  }

  lemma UserJoins(roles: map<UserId, Role>, id: UserId, newRole: Role)
    requires id in roles && roles[id] == USER
    requires Holders(roles, ADMIN) != {} && Holders(roles, MODERATOR) != {}
    ensures GuardPasses(roles, id, USER, newRole)
  {
    assert Others(roles, id, ADMIN) == Holders(roles, ADMIN);
    assert Others(roles, id, MODERATOR) == Holders(roles, MODERATOR);
  }

  // ---- Which rows are written ----

  /** A change closes the user's open rows if the old role was tracked, and adds one if the new one is; the new row
      names the user, the role, when it was opened and who asked for it. */
  ghost predicate PeriodsMoved(ps: seq<Period>, qs: seq<Period>, id: UserId, oldRole: Role, newRole: Role,
                               adminId: UserId, closedAt: Time, openedAt: Time) {
    && |qs| == |ps| + (if newRole != oldRole && newRole != USER then 1 else 0)
    && (|qs| > |ps| ==> qs[|ps|] == Period(id, newRole, openedAt, None, adminId))
    && forall i :: 0 <= i < |ps| ==>
         qs[i] == if newRole != oldRole && oldRole != USER && ps[i].userId == id && ps[i].end == None then
                    ps[i].(end := Some(closedAt))
                  else ps[i]
  }

  lemma MovedExactly(ps: seq<Period>, id: UserId, oldRole: Role, newRole: Role, adminId: UserId, closedAt: Time,
                     openedAt: Time)
    ensures PeriodsMoved(ps, RoleChanged(ps, id, oldRole, newRole, adminId, closedAt, openedAt), id, oldRole, newRole,
                         adminId, closedAt, openedAt)
  {
  }

  /** What a change must leave behind: one admin and one moderator, and one more of the role being given up. */
  ghost predicate StaffLeft(roles: map<UserId, Role>, id: UserId, snapshot: Role, newRole: Role) {
    || snapshot == newRole
    || (&& |Holders(roles[id := newRole], ADMIN)| >= (if snapshot == ADMIN then 2 else 1)
        && |Holders(roles[id := newRole], MODERATOR)| >= (if snapshot == MODERATOR then 2 else 1))
  }

  /** What each event writes: a new user starts as USER unless an admin said otherwise, and a change with enough staff
      left writes its role and moves the rows; any other change writes nothing. */
  lemma StepWrites(s: State, e: Event)
    requires Enabled(s, e)
    ensures var t := Apply(s, e);
            match e
            case Register(id, _) => t.roles == s.roles[id := USER] && t.periods == s.periods
            case CreateByAdmin(id, role, adminId, _, openedAt) =>
              var given := if role.Some? then role.value else USER;
              && t.roles == s.roles[id := given]
              && PeriodsMoved(s.periods, t.periods, id, USER, given, adminId, openedAt, openedAt)
            case ChangeRole(id, snapshot, newRole, adminId, closedAt, openedAt) =>
              if StaffLeft(s.roles, id, snapshot, newRole) then
                && t.roles == s.roles[id := newRole]
                && PeriodsMoved(s.periods, t.periods, id, snapshot, newRole, adminId, closedAt, openedAt)
              else t.roles == s.roles && t.periods == s.periods
  {
    if e.ChangeRole? {
      if e.snapshot != e.newRole {
        GuardExactly(s.roles, e.id, e.snapshot, e.newRole);
      }
      MovedExactly(s.periods, e.id, e.snapshot, e.newRole, e.adminId, e.closedAt, e.openedAt);
    }
  }

  /** The row is as it was, or a change of its user's role has closed it since. */
  ghost predicate AsWritten(events: seq<Event>, k: nat, n: nat, p: Period, q: Period)
    requires k <= n <= |events|
  {
    || q == p
    || (p.end == None && exists j :: k <= j < n && events[j].ChangeRole? && events[j].id == p.userId
                                     && q == p.(end := Some(events[j].closedAt)))
  }

  /** Over every run, however stale its changes: no row is ever lost, reopened or given another user, role, start or
      author, and one is closed only once, by a change of its user's role. */
  lemma {:induction false} RowsAreHistory(states: seq<State>, events: seq<Event>, k: nat, n: nat, i: nat)
    requires IsRun(states, events) && k <= n <= |events| && i < |states[k].periods|
    ensures i < |states[n].periods| && AsWritten(events, k, n, states[k].periods[i], states[n].periods[i])
    decreases n
  {
    if n > k {
      var j := n - 1;
      RowsAreHistory(states, events, k, j, i);
      RowStep(states[j], events[j], i);
      var p, q := states[k].periods[i], states[j].periods[i];
      if q != p {
        var m :| k <= m < j && events[m].ChangeRole? && events[m].id == p.userId
                 && q == p.(end := Some(events[m].closedAt));
        assert states[n].periods[i] == q;
      }
    }
  }

  lemma RowStep(s: State, e: Event, i: nat)
    requires Enabled(s, e) && i < |s.periods|
    ensures var t := Apply(s, e);
            && i < |t.periods|
            && (t.periods[i] == s.periods[i]
                || (s.periods[i].end == None && e.ChangeRole? && e.id == s.periods[i].userId
                    && t.periods[i] == s.periods[i].(end := Some(e.closedAt))))
  {
  }

  // ---- The services ----

  datatype RoleError = UserNotFound | MustRemainAssigned

  /** The open periods a user with this role should have: one with it if it is tracked, else none. */
  ghost predicate OpenFor(ps: seq<Period>, id: UserId, role: Role) {
    if IsRoleTracked(role) then OneActive(ps, id, role) else NoneActive(ps, id)
  }

  /** Rows that are right for the old role are right for the new one afterwards. */
  lemma RoleChangedOpen(ps: seq<Period>, id: UserId, oldRole: Role, newRole: Role, adminId: UserId, closedAt: Time,
                        openedAt: Time)
    requires OpenFor(ps, id, oldRole)
    ensures OpenFor(RoleChanged(ps, id, oldRole, newRole, adminId, closedAt, openedAt), id, newRole)
  {
    var qs := RoleChanged(ps, id, oldRole, newRole, adminId, closedAt, openedAt);
    if oldRole != newRole && IsRoleTracked(newRole) {
      assert IsActive(qs[|ps|], id);
    }
  }

  class AdminService {
    var roles: map<UserId, Role>
    var periods: seq<Period>
    ghost var log: map<UserId, seq<Change>>
    ghost var clock: Time

    ghost function Abstract(): State reads this { State(roles, periods, log, clock) }

    constructor ()
      ensures Abstract() == Initial
    {
      roles, periods, log, clock := map[], [], map[], 0;
    }

    method CloseActivePeriod(userId: UserId, now: Time)
      modifies `periods
      ensures |periods| == |old(periods)|
      ensures forall i :: 0 <= i < |periods| ==>
                periods[i] == if old(periods)[i].userId == userId && old(periods)[i].end == None then
                                old(periods)[i].(end := Some(now))
                              else old(periods)[i]
      ensures periods == Closed(old(periods), userId, now)
    {
      var i := 0;
      while i < |periods|
        invariant 0 <= i <= |periods| == |old(periods)|
        invariant forall j :: 0 <= j < i ==> periods[j] == Closed(old(periods), userId, now)[j]
        invariant forall j :: i <= j < |periods| ==> periods[j] == old(periods)[j]
      {
        if periods[i].userId == userId && periods[i].end.None? {
          periods := periods[i := periods[i].(end := Some(now))];
        }
        i := i + 1;
      }
    }

    method CreatePeriod(userId: UserId, role: Role, changedById: UserId, now: Time)
      modifies `periods
      ensures periods == old(periods) + [Period(userId, role, now, None, changedById)]
    {
      periods := periods + [Period(userId, role, now, None, changedById)];
    }

    method HandleRoleChange(userId: UserId, oldRole: Role, newRole: Role, changedById: UserId, closedAt: Time,
                            openedAt: Time)
      modifies `periods
      ensures PeriodsMoved(old(periods), periods, userId, oldRole, newRole, changedById, closedAt, openedAt)
      ensures periods == RoleChanged(old(periods), userId, oldRole, newRole, changedById, closedAt, openedAt)
      ensures OpenFor(old(periods), userId, oldRole) ==> OpenFor(periods, userId, newRole)
    {
      MovedExactly(periods, userId, oldRole, newRole, changedById, closedAt, openedAt);
      if OpenFor(periods, userId, oldRole) {
        RoleChangedOpen(periods, userId, oldRole, newRole, changedById, closedAt, openedAt);
      }
      if oldRole == newRole {
        return;
      }
      var isOldRoleTracked := IsRoleTracked(oldRole);
      var isNewRoleTracked := IsRoleTracked(newRole);
      if !isOldRoleTracked && isNewRoleTracked {
        CreatePeriod(userId, newRole, changedById, openedAt);
        return;
      }
      if isOldRoleTracked && !isNewRoleTracked {
        CloseActivePeriod(userId, closedAt);
        return;
      }
      if isOldRoleTracked && isNewRoleTracked {
        CloseActivePeriod(userId, closedAt);
        CreatePeriod(userId, newRole, changedById, openedAt);
        return;
      }
    }

    method CreateUserByAdmin(id: UserId, role: Option<Role>, adminId: UserId, createdAt: Time, openedAt: Time)
      requires Enabled(Abstract(), CreateByAdmin(id, role, adminId, createdAt, openedAt))
      modifies this
      ensures roles == old(roles)[id := if role.Some? then role.value else USER]
      ensures PeriodsMoved(old(periods), periods, id, USER, roles[id], adminId, openedAt, openedAt)
      ensures Abstract() == Apply(old(Abstract()), CreateByAdmin(id, role, adminId, createdAt, openedAt))
      ensures old(Inv(Abstract())) ==> Inv(Abstract())
      ensures old(Inv(Abstract())) ==> OpenFor(periods, id, if role.Some? then role.value else USER)
    {
      if Inv(Abstract()) {
        InvStep(Abstract(), CreateByAdmin(id, role, adminId, createdAt, openedAt));
        NewUserOk(Abstract(), CreateByAdmin(id, role, adminId, createdAt, openedAt));
      }
      var created := if role.Some? then role.value else USER;
      roles := roles[id := created];
      if role.Some? && role.value != USER {
        CreatePeriod(id, role.value, adminId, openedAt);
      }
      log, clock := log[id := [Change(createdAt, openedAt, created)]], openedAt;
    }

    /** The transaction of a role change, given the role its request read beforehand. */
    method ChangeRolesTransaction(id: UserId, changedById: UserId, snapshot: Role, role: Role, closedAt: Time,
                                  openedAt: Time)
      returns (r: Result<(), RoleError>)
      requires Enabled(Abstract(), Event.ChangeRole(id, snapshot, role, changedById, closedAt, openedAt))
      modifies this
      ensures Abstract()
              == Apply(old(Abstract()), Event.ChangeRole(id, snapshot, role, changedById, closedAt, openedAt))
      ensures r.Success? <==> StaffLeft(old(roles), id, snapshot, role)
      ensures r.Success? ==>
                && roles == old(roles)[id := role]
                && PeriodsMoved(old(periods), periods, id, snapshot, role, changedById, closedAt, openedAt)
      ensures r.Failure? ==> r.error == MustRemainAssigned && roles == old(roles) && periods == old(periods)
      ensures r == if GuardPasses(old(roles), id, snapshot, role) then Success(()) else Failure(MustRemainAssigned)
    {
      if snapshot != role {
        GuardExactly(roles, id, snapshot, role);
      }
      ghost var before := Abstract();
      clock := openedAt;
      if snapshot != role {
        var admins := |Others(roles, id, ADMIN)|;
        var moderators := |Others(roles, id, MODERATOR)|;
        if snapshot == ADMIN {
          admins := admins - 1;
        }
        if snapshot == MODERATOR {
          moderators := moderators - 1;
        }
        if role == ADMIN {
          admins := admins + 1;
        }
        if role == MODERATOR {
          moderators := moderators + 1;
        }
        if admins < 1 || moderators < 1 {
          return Failure(MustRemainAssigned);
        }
      }
      HandleRoleChange(id, snapshot, role, changedById, closedAt, openedAt);
      if !(snapshot == role == roles[id]) {
        log := Logged(log, id, Change(closedAt, openedAt, role));
      }
      roles := roles[id := role];
      return Success(());
    }

    /** A role change with nothing else going on between its read and its transaction keeps every user's record. */
    method ChangeRoles(id: UserId, changedById: UserId, role: Role, closedAt: Time, openedAt: Time)
      returns (r: Result<(), RoleError>)
      requires Inv(Abstract()) && clock <= closedAt <= openedAt
      modifies this
      ensures Inv(Abstract())
      ensures r == Failure(UserNotFound) <==> id !in old(roles)
      ensures r == Failure(MustRemainAssigned) <==> id in old(roles) && !StaffLeft(old(roles), id, old(roles)[id], role)
      ensures r.Success? ==>
                && roles == old(roles)[id := role]
                && PeriodsMoved(old(periods), periods, id, old(roles)[id], role, changedById, closedAt, openedAt)
      ensures r.Failure? ==> roles == old(roles) && periods == old(periods)
      ensures r.Success? && old(roles)[id] != role ==> Holders(roles, ADMIN) != {} && Holders(roles, MODERATOR) != {}
    {
      if id !in roles {
        return Failure(UserNotFound);
      }
      var user := roles[id];
      ghost var s := Abstract();
      ghost var e := Event.ChangeRole(id, user, role, changedById, closedAt, openedAt);
      FreshIsHarmless(s, e);
      InvStep(s, e);
      if user != role && GuardPasses(roles, id, user, role) {
        AcceptedChangeLeavesStaff(s, e);
      }
      r := ChangeRolesTransaction(id, changedById, user, role, closedAt, openedAt);
    }
  }
}
