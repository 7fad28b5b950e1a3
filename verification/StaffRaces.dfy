/** Role changes that overlap: the request reads the user, the transaction counts the staff by one statement and writes
    the role by a later one, and in between other transactions may commit. */
module StaffRaces {
  import opened RolePeriods
  import opened Wrappers

  type ProcId = nat

  /** A request to change a role, with the role it has read, and whether its guard has let it pass. */
  datatype Request = Request(id: UserId, snapshot: Role, newRole: Role, passed: bool)

  datatype Staff = Staff(roles: map<UserId, Role>, procs: map<ProcId, Request>)

  datatype Step =
    | Join(id: UserId, role: Role)
    | Read(proc: ProcId, id: UserId, newRole: Role)
    | Count(proc: ProcId)
    | Commit(proc: ProcId)
    /** The guard turns the request down, or it is broken off. */
    | Abort(proc: ProcId)

  predicate CanTake(s: Staff, e: Step) {
    match e
    case Join(id, _) => id !in s.roles
    case Read(proc, id, _) => proc !in s.procs && id in s.roles
    case Count(proc) => proc in s.procs && !s.procs[proc].passed && Passes(s.roles, s.procs[proc])
    case Commit(proc) => proc in s.procs && s.procs[proc].passed
    case Abort(proc) => proc in s.procs
  }

  predicate Passes(roles: map<UserId, Role>, r: Request) { GuardPasses(roles, r.id, r.snapshot, r.newRole) }

  function Take(s: Staff, e: Step): Staff
    requires CanTake(s, e)
  {
    match e
    case Join(id, role) => s.(roles := s.roles[id := role])
    case Read(proc, id, newRole) => s.(procs := s.procs[proc := Request(id, s.roles[id], newRole, false)])
    case Count(proc) => s.(procs := s.procs[proc := s.procs[proc].(passed := true)])
    case Commit(proc) => Staff(s.roles[s.procs[proc].id := s.procs[proc].newRole], s.procs - {proc})
    case Abort(proc) => s.(procs := s.procs - {proc})
  }

  /** From any staff, with nobody at work. */
  ghost predicate IsStaffRun(states: seq<Staff>, steps: seq<Step>) {
    && |states| == |steps| + 1
    && states[0].procs == map[]
    && forall i {:trigger CanTake(states[i], steps[i])} :: 0 <= i < |steps| ==>
         CanTake(states[i], steps[i]) && states[i + 1] == Take(states[i], steps[i])
  }

  lemma ExtendStaffRun(states: seq<Staff>, steps: seq<Step>, e: Step)
    requires IsStaffRun(states, steps) && CanTake(states[|steps|], e)
    ensures IsStaffRun(states + [Take(states[|steps|], e)], steps + [e])
  {
    var more, others := states + [Take(states[|steps|], e)], steps + [e];
    forall i | 0 <= i < |others| ensures CanTake(more[i], others[i]) && more[i + 1] == Take(more[i], others[i]) {
      if i < |steps| {
        assert CanTake(states[i], steps[i]);
      }
    }
  }

  /** A change that nothing disturbs does what the transaction alone does: it goes through exactly when enough staff is
      left, and then writes the role. */
  lemma UndisturbedChange(s: Staff, proc: ProcId, id: UserId, newRole: Role)
    requires proc !in s.procs && id in s.roles
    ensures var asked := Take(s, Read(proc, id, newRole));
            && (CanTake(asked, Count(proc)) <==> StaffLeft(s.roles, id, s.roles[id], newRole))
            && (CanTake(asked, Count(proc)) ==>
                  var counted := Take(asked, Count(proc));
                  CanTake(counted, Commit(proc))
                  && Take(counted, Commit(proc)) == Staff(s.roles[id := newRole], s.procs))
            && Take(asked, Abort(proc)) == s
  {
    if s.roles[id] != newRole {
      GuardExactly(s.roles, id, s.roles[id], newRole);
    }
    assert s.procs[proc := Request(id, s.roles[id], newRole, false)] - {proc} == s.procs;
    assert s.procs[proc := Request(id, s.roles[id], newRole, true)] - {proc} == s.procs;
  }

  // ---- One change and what comes in between ----

  /** A change counts the staff at `k` and writes its role at `n`. */
  ghost predicate IsChange(states: seq<Staff>, steps: seq<Step>, k: nat, n: nat) {
    && IsStaffRun(states, steps) && k < n < |steps|
    && steps[k].Count? && steps[n] == Commit(steps[k].proc)
    && forall j :: k < j <= n ==> steps[k].proc in states[j].procs
  }

  ghost function RequestAt(states: seq<Staff>, steps: seq<Step>, k: nat): Request
    requires IsStaffRun(states, steps) && k < |steps| && steps[k].Count?
  {
    assert CanTake(states[k], steps[k]);
    states[k].procs[steps[k].proc]
  }

  /** The step takes the role away from somebody else than this user, or gives it to one. */
  predicate TakesAway(s: Staff, e: Step, id: UserId, role: Role) {
    && e.Commit? && e.proc in s.procs
    && var r := s.procs[e.proc]; r.id != id && r.newRole != role && r.id in s.roles && s.roles[r.id] == role
  }

  predicate Gives(s: Staff, e: Step, id: UserId, role: Role) {
    || (e.Join? && e.id != id && e.role == role)
    || (&& e.Commit? && e.proc in s.procs
        && var r := s.procs[e.proc];
           r.id != id && r.newRole == role && !(r.id in s.roles && s.roles[r.id] == role))
  }

  function Ones(b: bool): nat { if b then 1 else 0 }

  /** How many of the steps from `k` on and before `n` do the one, and the other. */
  function Losses(states: seq<Staff>, steps: seq<Step>, k: nat, n: nat, id: UserId, role: Role): nat
    requires |states| == |steps| + 1 && k <= n <= |steps|
    decreases n
  {
    if n == k then 0
    else Losses(states, steps, k, n - 1, id, role) + Ones(TakesAway(states[n - 1], steps[n - 1], id, role))
  }

  function Gains(states: seq<Staff>, steps: seq<Step>, k: nat, n: nat, id: UserId, role: Role): nat
    requires |states| == |steps| + 1 && k <= n <= |steps|
    decreases n
  {
    if n == k then 0
    else Gains(states, steps, k, n - 1, id, role) + Ones(Gives(states[n - 1], steps[n - 1], id, role))
  }

  /** What one user's new role does to the others who hold a role. */
  lemma OthersSet(roles: map<UserId, Role>, id: UserId, role: Role, u: UserId, newRole: Role)
    requires u != id
    ensures Others(roles[u := newRole], id, role)
            == if newRole == role then Others(roles, id, role) + {u} else Others(roles, id, role) - {u}
    ensures u in Others(roles, id, role) <==> u in roles && roles[u] == role
  {
  }

  lemma OthersChange(roles: map<UserId, Role>, id: UserId, role: Role, u: UserId, newRole: Role)
    ensures |Others(roles[u := newRole], id, role)|
            == |Others(roles, id, role)| + Ones(u != id && newRole == role && !(u in roles && roles[u] == role))
               - Ones(u != id && newRole != role && u in roles && roles[u] == role)
  {
    if u == id {
      assert Others(roles[u := newRole], id, role) == Others(roles, id, role);
    } else {
      OthersSet(roles, id, role, u, newRole);
      var before := Others(roles, id, role);
      assert |before + {u}| == |before| + Ones(u !in before);
      assert |before - {u}| == |before| - Ones(u in before);
    }
  }

  lemma OthersStep(s: Staff, e: Step, id: UserId, role: Role)
    requires CanTake(s, e)
    ensures |Others(Take(s, e).roles, id, role)|
            == |Others(s.roles, id, role)| + Ones(Gives(s, e, id, role)) - Ones(TakesAway(s, e, id, role))
  {
    if e.Join? {
      OthersChange(s.roles, id, role, e.id, e.role);
    } else if e.Commit? {
      OthersChange(s.roles, id, role, s.procs[e.proc].id, s.procs[e.proc].newRole);
    }
  }

  lemma {:induction false} OthersRun(states: seq<Staff>, steps: seq<Step>, k: nat, n: nat, id: UserId, role: Role)
    requires IsStaffRun(states, steps) && k <= n <= |steps|
    ensures |Others(states[n].roles, id, role)| == |Others(states[k].roles, id, role)|
            + Gains(states, steps, k, n, id, role) - Losses(states, steps, k, n, id, role)
    decreases n
  {
    if n > k {
      var j := n - 1;
      OthersRun(states, steps, k, j, id, role);
      assert CanTake(states[j], steps[j]) && states[j + 1] == Take(states[j], steps[j]);
      OthersStep(states[j], steps[j], id, role);
    }
  }

  lemma {:induction false} SameRequest(states: seq<Staff>, steps: seq<Step>, k: nat, n: nat)
    requires IsStaffRun(states, steps) && k < n <= |steps| && steps[k].Count?
    requires forall j :: k < j <= n ==> steps[k].proc in states[j].procs
    ensures states[n].procs[steps[k].proc] == RequestAt(states, steps, k).(passed := true)
    decreases n
  {
    var j := n - 1;
    assert CanTake(states[j], steps[j]) && states[j + 1] == Take(states[j], steps[j]);
    if j > k {
      SameRequest(states, steps, k, j);
    }
  }

  /** Whatever a change has read, and whatever comes between its count and its write: afterwards the role is held
      exactly when the change gives it, or the others who held it at the count, with those who got it and without those
      who lost it since, are not none. */
  lemma HeldExactly(states: seq<Staff>, steps: seq<Step>, k: nat, n: nat, role: Role)
    requires IsChange(states, steps, k, n)
    ensures var r := RequestAt(states, steps, k);
            Holders(states[n + 1].roles, role) != {} <==>
              || r.newRole == role
              || |Others(states[k].roles, r.id, role)| + Gains(states, steps, k, n, r.id, role)
                 > Losses(states, steps, k, n, r.id, role)
  {
    var r := RequestAt(states, steps, k);
    SameRequest(states, steps, k, n);
    OthersRun(states, steps, k, n, r.id, role);
    HoldersAfter(states[n].roles, r.id, r.newRole, role);
    assert CanTake(states[n], steps[n]);
  }

  // ---- What the guard leaves to spare ----

  /** It subtracts a user it has not counted, so giving up a role takes two others. */
  function Spare(snapshot: Role, role: Role): nat { if snapshot == role then 2 else 1 }

  /** A change that is not read as none leaves the role held unless at least as many others lose it in between as the
      guard had to spare, and as get it. */
  lemma StaffSurvivesOverlap(states: seq<Staff>, steps: seq<Step>, k: nat, n: nat, role: Role)
    requires IsChange(states, steps, k, n) && IsRoleTracked(role)
    requires RequestAt(states, steps, k).snapshot != RequestAt(states, steps, k).newRole
    requires var r := RequestAt(states, steps, k);
             Losses(states, steps, k, n, r.id, role) < Spare(r.snapshot, role) + Gains(states, steps, k, n, r.id, role)
    ensures Holders(states[n + 1].roles, role) != {}
  {
    assert CanTake(states[k], steps[k]);
    HeldExactly(states, steps, k, n, role);
  }

  /** A change with this reading and this wish, during which so many others lose the role, and after which nobody holds
      it. */
  ghost predicate LeavesNone(states: seq<Staff>, steps: seq<Step>, k: nat, n: nat, snapshot: Role, newRole: Role,
                             role: Role, losses: nat) {
    && IsChange(states, steps, k, n)
    && var r := RequestAt(states, steps, k);
       && r.snapshot == snapshot && r.newRole == newRole
       && Losses(states, steps, k, n, r.id, role) == losses
       && Holders(states[n + 1].roles, role) == {}
  }

  // ---- A run for every number of losses ----

  function OtherTracked(role: Role): Role { if role == ADMIN then MODERATOR else ADMIN }

  /** User 0 is the one whose change is watched. Of the users up to `m`, the first `held` hold the role and the rest
      have given it up; two more hold the other tracked role. */
  function Crowd(m: nat, held: nat, zero: Role, role: Role): map<UserId, Role> {
    map u: UserId | 0 <= u <= m + 2 :: CrowdRole(m, held, zero, role, u)
  }

  function CrowdRole(m: nat, held: nat, zero: Role, role: Role, u: UserId): Role {
    if u == 0 then zero else if u <= held then role else if u <= m then USER else OtherTracked(role)
  }

  /** Those up to `last` have been let pass, and are still to give up the role. */
  function Leavers(last: nat, role: Role): map<ProcId, Request> {
    map i: ProcId | 1 <= i <= last :: Request(i, role, USER, true)
  }

  function WithZero(procs: map<ProcId, Request>, watched: Option<Request>): map<ProcId, Request> {
    if watched.Some? then procs[0 := watched.value] else procs
  }

  lemma TwoAtLeast(s: set<UserId>, a: UserId, b: UserId)
    requires a in s && b in s && a != b
    ensures |s| >= 2
  {
    assert s == {a, b} + (s - {a, b});
  }

  lemma LeaverPasses(m: nat, zero: Role, role: Role, i: nat)
    requires m >= 3 && 1 <= i <= m && IsRoleTracked(role)
    ensures GuardPasses(Crowd(m, m, zero, role), i, role, USER)
  {
    var roles := Crowd(m, m, zero, role);
    TwoAtLeast(Others(roles, i, role), if i == 1 then 2 else 1, if i == 3 then 2 else 3);
    TwoAtLeast(Others(roles, i, OtherTracked(role)), m + 1, m + 2);
  }

  lemma WatchedPasses(m: nat, held: nat, snapshot: Role, newRole: Role, role: Role)
    requires m >= held >= Spare(snapshot, role) && IsRoleTracked(role) && newRole != role
    ensures GuardPasses(Crowd(m, held, snapshot, role), 0, snapshot, newRole)
  {
    var roles := Crowd(m, held, snapshot, role);
    if snapshot == role {
      TwoAtLeast(Others(roles, 0, role), 1, 2);
    } else {
      assert 1 in Others(roles, 0, role);
    }
    TwoAtLeast(Others(roles, 0, OtherTracked(role)), m + 1, m + 2);
  }

  lemma LeaverJoins(states: seq<Staff>, steps: seq<Step>, m: nat, zero: Role, role: Role, i: nat)
    returns (states': seq<Staff>, steps': seq<Step>)
    requires m >= 3 && 1 <= i <= m && IsRoleTracked(role)
    requires IsStaffRun(states, steps) && states[|steps|] == Staff(Crowd(m, m, zero, role), Leavers(i - 1, role))
    ensures IsStaffRun(states', steps') && states'[|steps'|] == Staff(Crowd(m, m, zero, role), Leavers(i, role))
  {
    LeaverPasses(m, zero, role, i);
    ExtendStaffRun(states, steps, Read(i, i, USER));
    states', steps' := states + [Take(states[|steps|], Read(i, i, USER))], steps + [Read(i, i, USER)];
    assert states'[|steps'|].procs[i] == Request(i, role, USER, false);
    ExtendStaffRun(states', steps', Count(i));
    states', steps' := states' + [Take(states'[|steps'|], Count(i))], steps' + [Count(i)];
    assert states'[|steps'|].procs == Leavers(i, role);
  }

  lemma AllPass(m: nat, zero: Role, role: Role) returns (states: seq<Staff>, steps: seq<Step>)
    requires m >= 3 && IsRoleTracked(role)
    ensures IsStaffRun(states, steps) && states[|steps|] == Staff(Crowd(m, m, zero, role), Leavers(m, role))
  {
    states, steps := [Staff(Crowd(m, m, zero, role), map[])], [];
    for i := 0 to m
      invariant IsStaffRun(states, steps) && states[|steps|] == Staff(Crowd(m, m, zero, role), Leavers(i, role))
    {
      states, steps := LeaverJoins(states, steps, m, zero, role, i + 1);
    }
  }

  /** One of them gives up the role. */
  lemma LeaverGoes(m: nat, held: nat, zero: Role, role: Role, watched: Option<Request>)
    requires 1 <= held <= m && IsRoleTracked(role)
    ensures var s := Staff(Crowd(m, held, zero, role), WithZero(Leavers(held, role), watched));
            && CanTake(s, Commit(held)) && TakesAway(s, Commit(held), 0, role)
            && Take(s, Commit(held)) == Staff(Crowd(m, held - 1, zero, role), WithZero(Leavers(held - 1, role), watched))
  {
    var s := Staff(Crowd(m, held, zero, role), WithZero(Leavers(held, role), watched));
    assert s.procs[held] == Request(held, role, USER, true);
    assert s.procs - {held} == WithZero(Leavers(held - 1, role), watched);
    assert s.roles[held := USER] == Crowd(m, held - 1, zero, role);
  }

  lemma {:induction false} LossesSoFar(states: seq<Staff>, steps: seq<Step>, more: seq<Staff>, others: seq<Step>,
                                       k: nat, n: nat, id: UserId, role: Role)
    requires |states| == |steps| + 1 && |more| == |others| && k <= n <= |steps|
    ensures Losses(states + more, steps + others, k, n, id, role) == Losses(states, steps, k, n, id, role)
    decreases n
  {
    if n > k {
      LossesSoFar(states, steps, more, others, k, n - 1, id, role);
    }
  }

  /** From `at` on, with the watched change under way throughout if there is one: the others who hold the role have come
      down to `held`. */
  ghost predicate Dwindles(states: seq<Staff>, steps: seq<Step>, at: nat, m: nat, held: nat, zero: Role, role: Role,
                           watched: Option<Request>) {
    && IsStaffRun(states, steps) && at <= |steps|
    && states[|steps|] == Staff(Crowd(m, held, zero, role), WithZero(Leavers(held, role), watched))
    && (watched.Some? ==> forall j :: at <= j <= |steps| ==> 0 in states[j].procs)
  }

  lemma OneLess(states: seq<Staff>, steps: seq<Step>, at: nat, k: nat, m: nat, held: nat, zero: Role, role: Role,
                watched: Option<Request>)
    returns (states': seq<Staff>, steps': seq<Step>)
    requires Dwindles(states, steps, at, m, held, zero, role, watched) && 1 <= held <= m && IsRoleTracked(role)
    requires k <= |steps|
    ensures states <= states' && steps <= steps' && |states'| == |steps'| + 1
    ensures Dwindles(states', steps', at, m, held - 1, zero, role, watched)
    ensures Losses(states', steps', k, |steps'|, 0, role) == Losses(states, steps, k, |steps|, 0, role) + 1
  {
    LeaverGoes(m, held, zero, role, watched);
    var e, t := Commit(held), Take(states[|steps|], Commit(held));
    ExtendStaffRun(states, steps, e);
    LossesSoFar(states, steps, [t], [e], k, |steps|, 0, role);
    states', steps' := states + [t], steps + [e];
  }

  lemma PrefixOfPrefix<T>(a: seq<T>, b: seq<T>, c: seq<T>)
    requires a <= b <= c
    ensures a <= c
  {
  }

  /** All but `left` of them go, one after the other; nobody else does anything. */
  lemma LeaversGo(states: seq<Staff>, steps: seq<Step>, at: nat, k: nat, m: nat, held: nat, left: nat, zero: Role,
                  role: Role, watched: Option<Request>)
    returns (states': seq<Staff>, steps': seq<Step>)
    requires Dwindles(states, steps, at, m, held, zero, role, watched) && left <= held <= m && IsRoleTracked(role)
    requires k <= |steps|
    ensures states <= states' && steps <= steps'
    ensures Dwindles(states', steps', at, m, left, zero, role, watched)
    ensures Losses(states', steps', k, |steps'|, 0, role)
            == Losses(states, steps, k, |steps|, 0, role) + (held - left)
    decreases held
  {
    if held == left {
      states', steps' := states, steps;
    } else {
      var more, others := OneLess(states, steps, at, k, m, held, zero, role, watched);
      states', steps' := LeaversGo(more, others, at, k, m, held - 1, left, zero, role, watched);
      PrefixOfPrefix(states, more, states');
      PrefixOfPrefix(steps, others, steps');
    }
  }

  /** The watched user's change reads, counts with the holders left, sees them go, and writes. */
  lemma WatchedStarts(states: seq<Staff>, steps: seq<Step>, m: nat, held: nat, snapshot: Role, newRole: Role, role: Role)
    returns (states': seq<Staff>, steps': seq<Step>)
    requires m >= held >= Spare(snapshot, role) && IsRoleTracked(role) && newRole != role
    requires IsStaffRun(states, steps) && states[|steps|] == Staff(Crowd(m, held, snapshot, role), Leavers(held, role))
    ensures IsStaffRun(states', steps') && |steps'| > 0 && steps'[|steps'| - 1] == Count(0)
    ensures RequestAt(states', steps', |steps'| - 1) == Request(0, snapshot, newRole, false)
    ensures states'[|steps'|] == Staff(Crowd(m, held, snapshot, role),
                                       WithZero(Leavers(held, role), Some(Request(0, snapshot, newRole, true))))
  {
    WatchedPasses(m, held, snapshot, newRole, role);
    ExtendStaffRun(states, steps, Read(0, 0, newRole));
    states', steps' := states + [Take(states[|steps|], Read(0, 0, newRole))], steps + [Read(0, 0, newRole)];
    assert states'[|steps'|].procs[0] == Request(0, snapshot, newRole, false);
    ExtendStaffRun(states', steps', Count(0));
    states', steps' := states' + [Take(states'[|steps'|], Count(0))], steps' + [Count(0)];
  }

  lemma NobodyHolds(m: nat, newRole: Role, role: Role)
    requires IsRoleTracked(role) && newRole != role
    ensures Holders(Crowd(m, 0, newRole, role), role) == {}
  {
  }

  /** Until the watched change has counted. */
  lemma UntilCount(m: nat, held: nat, snapshot: Role, newRole: Role, role: Role)
    returns (states: seq<Staff>, steps: seq<Step>)
    requires m >= 3 && m >= held >= Spare(snapshot, role) && IsRoleTracked(role) && newRole != role
    ensures IsStaffRun(states, steps) && |steps| > 0 && steps[|steps| - 1] == Count(0)
    ensures RequestAt(states, steps, |steps| - 1) == Request(0, snapshot, newRole, false)
    ensures Dwindles(states, steps, |steps|, m, held, snapshot, role, Some(Request(0, snapshot, newRole, true)))
  {
    states, steps := AllPass(m, snapshot, role);
    states, steps := LeaversGo(states, steps, |steps|, 0, m, m, held, snapshot, role, None);
    states, steps := WatchedStarts(states, steps, m, held, snapshot, newRole, role);
  }

  /** Its write, once all the others have gone. */
  lemma LastWrite(states: seq<Staff>, steps: seq<Step>, k: nat, m: nat, snapshot: Role, newRole: Role, role: Role)
    requires k < |steps| && IsRoleTracked(role) && newRole != role
    requires Dwindles(states, steps, k + 1, m, 0, snapshot, role, Some(Request(0, snapshot, newRole, true)))
    requires steps[k] == Count(0) && RequestAt(states, steps, k) == Request(0, snapshot, newRole, false)
    ensures CanTake(states[|steps|], Commit(0))
    ensures LeavesNone(states + [Take(states[|steps|], Commit(0))], steps + [Commit(0)], k, |steps|, snapshot, newRole,
                       role, Losses(states, steps, k, |steps|, 0, role))
  {
    var n, t := |steps|, Take(states[|steps|], Commit(0));
    ExtendStaffRun(states, steps, Commit(0));
    LossesSoFar(states, steps, [t], [Commit(0)], k, n, 0, role);
    assert t.roles == Crowd(m, 0, newRole, role);
    NobodyHolds(m, newRole, role);
  }

  lemma LosingRun(snapshot: Role, newRole: Role, role: Role, losses: nat)
    returns (states: seq<Staff>, steps: seq<Step>, k: nat, n: nat)
    requires IsRoleTracked(role) && newRole != role && losses >= Spare(snapshot, role)
    ensures LeavesNone(states, steps, k, n, snapshot, newRole, role, losses)
  {
    var m := losses + 3;
    var r := Request(0, snapshot, newRole, true);
    states, steps := UntilCount(m, losses, snapshot, newRole, role);
    k := |steps| - 1;
    var states', steps' := LeaversGo(states, steps, |steps|, k, m, losses, 0, snapshot, role, Some(r));
    assert steps'[k] == Count(0) && states'[k] == states[k];
    LastWrite(states', steps', k, m, snapshot, newRole, role);
    n := |steps'|;
    states, steps := states' + [Take(states'[n], Commit(0))], steps' + [Commit(0)];
  }

  /** Whatever a guarded change from one role to another has read: it can leave a role unheld that it does not give, in
      a run in which this many others lose the role between its count and its write, exactly when they are as many as
      its guard had to spare. */
  lemma StaffThreshold(snapshot: Role, newRole: Role, role: Role, losses: nat)
    requires IsRoleTracked(role) && snapshot != newRole && newRole != role
    ensures (exists states, steps, k, n :: LeavesNone(states, steps, k, n, snapshot, newRole, role, losses))
            <==> losses >= Spare(snapshot, role)
  {
    if losses >= Spare(snapshot, role) {
      var states, steps, k, n := LosingRun(snapshot, newRole, role, losses);
    } else {
      forall states, steps, k, n | LeavesNone(states, steps, k, n, snapshot, newRole, role, losses) ensures false {
        StaffSurvivesOverlap(states, steps, k, n, role);
      }
    }
  }

  // ---- Changes read as none ----

  /** A change whose count and write nothing comes between loses a role somebody held exactly when the guard was
      skipped, because the request had read the role it asks for, and the user has by then become the only holder of
      the other. */
  lemma UndisturbedLosesExactly(states: seq<Staff>, steps: seq<Step>, k: nat, role: Role)
    requires IsChange(states, steps, k, k + 1) && IsRoleTracked(role) && Holders(states[k].roles, role) != {}
    ensures var r := RequestAt(states, steps, k);
            Holders(states[k + 2].roles, role) == {} <==>
              r.snapshot == r.newRole != role && Holders(states[k].roles, role) == {r.id}
  {
    var n, r := k + 1, RequestAt(states, steps, k);
    assert CanTake(states[k], steps[k]);
    assert states[n] == Take(states[k], steps[k]);
    HeldExactly(states, steps, k, n, role);
    OthersOfOnly(states[k].roles, r.id, role);
  }

  lemma OthersOfOnly(roles: map<UserId, Role>, id: UserId, role: Role)
    requires Holders(roles, role) != {}
    ensures Others(roles, id, role) == {} <==> Holders(roles, role) == {id}
    ensures |Others(roles, id, role)| == 0 <==> Others(roles, id, role) == {}
  {
    var u :| u in Holders(roles, role);
    if Others(roles, id, role) == {} {
      forall v | v in Holders(roles, role) ensures v == id {
        assert v in Others(roles, id, role) || v == id;
      }
      assert Holders(roles, role) == {id};
    } else {
      var v :| v in Others(roles, id, role);
      assert v in Holders(roles, role) && v != id;
    }
  }

  // ---- Three at once ----

  lemma ReadNext(states: seq<Staff>, steps: seq<Step>, proc: ProcId, id: UserId, newRole: Role)
    returns (states': seq<Staff>, steps': seq<Step>)
    requires IsStaffRun(states, steps) && CanTake(states[|steps|], Read(proc, id, newRole))
    ensures var s := states[|steps|];
            && IsStaffRun(states', steps') && states'[0] == states[0] && steps' == steps + [Read(proc, id, newRole)]
            && states'[|steps'|] == Staff(s.roles, s.procs[proc := Request(id, s.roles[id], newRole, false)])
  {
    var e := Read(proc, id, newRole);
    ExtendStaffRun(states, steps, e);
    states', steps' := states + [Take(states[|steps|], e)], steps + [e];
  }

  lemma CountNext(states: seq<Staff>, steps: seq<Step>, proc: ProcId)
    returns (states': seq<Staff>, steps': seq<Step>)
    requires IsStaffRun(states, steps) && CanTake(states[|steps|], Count(proc))
    ensures var s := states[|steps|];
            && IsStaffRun(states', steps') && states'[0] == states[0] && steps' == steps + [Count(proc)]
            && states'[|steps'|] == Staff(s.roles, s.procs[proc := s.procs[proc].(passed := true)])
  {
    ExtendStaffRun(states, steps, Count(proc));
    states', steps' := states + [Take(states[|steps|], Count(proc))], steps + [Count(proc)];
  }

  lemma CommitNext(states: seq<Staff>, steps: seq<Step>, proc: ProcId)
    returns (states': seq<Staff>, steps': seq<Step>)
    requires IsStaffRun(states, steps) && CanTake(states[|steps|], Commit(proc))
    ensures var s := states[|steps|];
            && IsStaffRun(states', steps') && states'[0] == states[0] && steps' == steps + [Commit(proc)]
            && states'[|steps'|] == Staff(s.roles[s.procs[proc].id := s.procs[proc].newRole], s.procs - {proc})
  {
    ExtendStaffRun(states, steps, Commit(proc));
    states', steps' := states + [Take(states[|steps|], Commit(proc))], steps + [Commit(proc)];
  }

  const Team: map<UserId, Role> := map[1 := ADMIN, 2 := ADMIN, 3 := ADMIN, 4 := MODERATOR]

  lemma TeamPasses(id: UserId)
    requires 1 <= id <= 3
    ensures GuardPasses(Team, id, ADMIN, USER)
  {
    TwoAtLeast(Others(Team, id, ADMIN), if id == 1 then 2 else 1, if id == 3 then 2 else 3);
    assert 4 in Others(Team, id, MODERATOR);
  }

  lemma AllCount() returns (states: seq<Staff>, steps: seq<Step>)
    ensures IsStaffRun(states, steps) && states[0] == Staff(Team, map[])
    ensures states[|steps|]
            == Staff(Team, map[1 := Request(1, ADMIN, USER, true), 2 := Request(2, ADMIN, USER, true),
                               3 := Request(3, ADMIN, USER, true)])
  {
    states, steps := [Staff(Team, map[])], [];
    states, steps := ReadNext(states, steps, 1, 1, USER);
    states, steps := ReadNext(states, steps, 2, 2, USER);
    states, steps := ReadNext(states, steps, 3, 3, USER);
    TeamPasses(1);
    TeamPasses(2);
    TeamPasses(3);
    states, steps := CountNext(states, steps, 1);
    states, steps := CountNext(states, steps, 2);
    states, steps := CountNext(states, steps, 3);
  }

  /** Three admins who step down at once, each counted by the others: all are let go and no admin is left. */
  lemma ThreeStepDown() returns (states: seq<Staff>, steps: seq<Step>)
    ensures IsStaffRun(states, steps) && states[0] == Staff(Team, map[])
    ensures Holders(states[|steps|].roles, ADMIN) == {}
  {
    states, steps := AllCount();
    states, steps := CommitNext(states, steps, 1);
    states, steps := CommitNext(states, steps, 2);
    states, steps := CommitNext(states, steps, 3);
    assert states[|steps|].roles == map[1 := USER, 2 := USER, 3 := USER, 4 := MODERATOR];
  }

  // ---- Stale requests that skip the guard ----

  /** No two transactions overlap: each writes right after its count. */
  predicate OneByOne(steps: seq<Step>) {
    forall n :: 0 <= n < |steps| && steps[n].Commit? ==> n > 0 && steps[n - 1] == Count(steps[n].proc)
  }

  /** The transaction of a request that has been read. */
  lemma WriteAtOnce(states: seq<Staff>, steps: seq<Step>, proc: ProcId)
    returns (states': seq<Staff>, steps': seq<Step>)
    requires IsStaffRun(states, steps) && OneByOne(steps) && CanTake(states[|steps|], Count(proc))
    ensures var s := states[|steps|];
            && IsStaffRun(states', steps') && OneByOne(steps') && states'[0] == states[0]
            && states'[|steps'|] == Staff(s.roles[s.procs[proc].id := s.procs[proc].newRole], s.procs - {proc})
  {
    var s := states[|steps|];
    states', steps' := CountNext(states, steps, proc);
    states', steps' := CommitNext(states', steps', proc);
    assert s.procs[proc := s.procs[proc].(passed := true)] - {proc} == s.procs - {proc};
  }

  /** A request from its reading to its write. */
  lemma ChangeAtOnce(states: seq<Staff>, steps: seq<Step>, proc: ProcId, id: UserId, newRole: Role)
    returns (states': seq<Staff>, steps': seq<Step>)
    requires IsStaffRun(states, steps) && OneByOne(steps) && CanTake(states[|steps|], Read(proc, id, newRole))
    requires var roles := states[|steps|].roles; GuardPasses(roles, id, roles[id], newRole)
    ensures var s := states[|steps|];
            && IsStaffRun(states', steps') && OneByOne(steps') && states'[0] == states[0]
            && states'[|steps'|] == Staff(s.roles[id := newRole], s.procs)
  {
    var s := states[|steps|];
    states', steps' := ReadNext(states, steps, proc, id, newRole);
    states', steps' := WriteAtOnce(states', steps', proc);
    assert s.procs[proc := Request(id, s.roles[id], newRole, false)] - {proc} == s.procs;
  }

  const Before: map<UserId, Role> := map[1 := MODERATOR, 2 := MODERATOR, 3 := ADMIN, 4 := MODERATOR, 5 := MODERATOR]

  const Stale: map<ProcId, Request> :=
    map[1 := Request(1, MODERATOR, MODERATOR, false), 2 := Request(2, MODERATOR, MODERATOR, false)]

  lemma BothPromoted()
    ensures GuardPasses(Before, 1, MODERATOR, ADMIN)
    ensures GuardPasses(Before[1 := ADMIN], 2, MODERATOR, ADMIN)
    ensures GuardPasses(Before[1 := ADMIN][2 := ADMIN], 3, ADMIN, USER)
  {
    var roles := Before[1 := ADMIN];
    TwoAtLeast(Others(Before, 1, MODERATOR), 4, 5);
    TwoAtLeast(Others(roles, 2, MODERATOR), 4, 5);
    TwoAtLeast(Others(roles[2 := ADMIN], 3, ADMIN), 1, 2);
    assert 4 in Others(roles[2 := ADMIN], 3, MODERATOR);
  }

  /** Two requests read users 1 and 2 as moderators and ask for just that. Before they go on, both users become admins,
      and the third admin steps down. */
  lemma Promoted() returns (states: seq<Staff>, steps: seq<Step>)
    ensures IsStaffRun(states, steps) && OneByOne(steps) && states[0] == Staff(Before, map[])
    ensures states[|steps|] == Staff(Before[1 := ADMIN][2 := ADMIN][3 := USER], Stale)
  {
    states, steps := [Staff(Before, map[])], [];
    states, steps := ReadNext(states, steps, 1, 1, MODERATOR);
    states, steps := ReadNext(states, steps, 2, 2, MODERATOR);
    assert states[|steps|].procs == Stale;
    BothPromoted();
    states, steps := ChangeAtOnce(states, steps, 3, 1, ADMIN);
    states, steps := ChangeAtOnce(states, steps, 3, 2, ADMIN);
    states, steps := ChangeAtOnce(states, steps, 3, 3, USER);
  }

  /** Then the two write, past the guard, and no admin is left, although no two transactions ever overlap. */
  lemma StaleRequestsLeaveNone() returns (states: seq<Staff>, steps: seq<Step>)
    ensures IsStaffRun(states, steps) && OneByOne(steps) && states[0] == Staff(Before, map[])
    ensures Holders(states[|steps|].roles, ADMIN) == {}
  {
    states, steps := Promoted();
    states, steps := WriteAtOnce(states, steps, 1);
    states, steps := WriteAtOnce(states, steps, 2);
    assert states[|steps|].roles == map[1 := MODERATOR, 2 := MODERATOR, 3 := USER, 4 := MODERATOR, 5 := MODERATOR];
  }
}
