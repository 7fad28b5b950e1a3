/** The main image of one post under concurrency, statement by statement. Linking holds the post's row lock from its
    first read to its commit; changing the main image does not take that lock, and locks only the rows it updates.
    Every statement sees the rows committed when it began. */
module MainImages {
  import opened Wrappers

  type FileId = nat
  type ProcId = nat

  /** A transaction between two statements. */
  datatype Proc =
    /** Changing the main image: the target is found and not the main image yet. */
    | Found(target: FileId)
    /** The clearing statement has begun with these main images in sight, and may wait for their locks. */
    | Clearing(target: FileId, seen: set<FileId>)
    | Cleared(target: FileId, cleared: set<FileId>)
    | Marked(target: FileId, cleared: set<FileId>)
    /** Linking: the main image of the batch is settled by whether one was in sight. */
    | Linking(ids: set<FileId>, main: Option<FileId>)

  /** The committed rows of the post, which of them are main images, and the transactions under way. */
  datatype State = State(files: set<FileId>, mains: set<FileId>, procs: map<ProcId, Proc>)

  datatype Event =
    | BeginSetMain(proc: ProcId, target: FileId)
    | BeginClear(proc: ProcId)
    | EndClear(proc: ProcId)
    | Mark(proc: ProcId)
    | BeginLink(proc: ProcId, ids: set<FileId>, main: Option<FileId>)
    | Commit(proc: ProcId)
    | Delete(ids: set<FileId>)
    | Abort(proc: ProcId)

  predicate Locks(p: Proc, id: FileId) {
    || ((p.Cleared? || p.Marked?) && id in p.cleared)
    || (p.Marked? && id == p.target)
  }

  /** No other transaction has locked any of these rows. */
  predicate Unlocked(s: State, ids: set<FileId>, proc: ProcId) {
    forall q, id :: q in s.procs && q != proc && id in ids ==> !Locks(s.procs[q], id)
  }

  predicate Enabled(s: State, e: Event) {
    match e
    case BeginSetMain(proc, target) => proc !in s.procs && target in s.files && target !in s.mains
    case BeginClear(proc) => proc in s.procs && s.procs[proc].Found?
    case EndClear(proc) => proc in s.procs && s.procs[proc].Clearing? && Unlocked(s, s.procs[proc].seen, proc)
    case Mark(proc) =>
      && proc in s.procs && s.procs[proc].Cleared? && s.procs[proc].target in s.files
      && Unlocked(s, {s.procs[proc].target}, proc)
    case BeginLink(proc, ids, main) =>
      && proc !in s.procs && ids !! s.files && (main.Some? ==> main.value in ids && s.mains == {})
      && forall q :: q in s.procs ==> !s.procs[q].Linking?
    case Commit(proc) => proc in s.procs && (s.procs[proc].Marked? || s.procs[proc].Linking?)
    case Delete(ids) => forall q, id :: q in s.procs && id in ids ==> !Locks(s.procs[q], id)
    case Abort(proc) => proc in s.procs
  }

  function Apply(s: State, e: Event): State
    requires Enabled(s, e)
  {
    match e
    case BeginSetMain(proc, target) => s.(procs := s.procs[proc := Found(target)])
    case BeginClear(proc) => s.(procs := s.procs[proc := Clearing(s.procs[proc].target, s.mains)])
    case EndClear(proc) =>
      // A row that stopped being a main image while this statement waited is skipped; one that became one is not seen.
      s.(procs := s.procs[proc := Cleared(s.procs[proc].target, s.procs[proc].seen * s.mains)])
    case Mark(proc) => s.(procs := s.procs[proc := Marked(s.procs[proc].target, s.procs[proc].cleared)])
    case BeginLink(proc, ids, main) => s.(procs := s.procs[proc := Linking(ids, main)])
    case Commit(proc) =>
      var p := s.procs[proc];
      State(if p.Linking? then s.files + p.ids else s.files, MainsAfter(s.mains, p), s.procs - {proc})
    case Delete(ids) => s.(files := s.files - ids, mains := s.mains - ids)
    case Abort(proc) => s.(procs := s.procs - {proc})
  }

  function MainsAfter(mains: set<FileId>, p: Proc): set<FileId>
    requires p.Marked? || p.Linking?
  {
    if p.Marked? then (mains - p.cleared) + {p.target}
    else mains + if p.main.Some? then {p.main.value} else {}
  }

  ghost predicate IsRun(states: seq<State>, events: seq<Event>) {
    && |states| == |events| + 1
    && states[0] == State({}, {}, map[])
    && forall i :: 0 <= i < |events| ==> Enabled(states[i], events[i]) && states[i + 1] == Apply(states[i], events[i])
  }

  lemma ExtendRun(states: seq<State>, events: seq<Event>, e: Event)
    requires IsRun(states, events) && Enabled(states[|events|], e)
    ensures IsRun(states + [Apply(states[|events|], e)], events + [e])
  {
  }

  ghost predicate OneMain(mains: set<FileId>) {
    forall a, b :: a in mains && b in mains ==> a == b
  }

  // ---- What a commit keeps ----

  /** Every main image at the commit is one this transaction has cleared or marks itself; a link that brings a main
      image finds none. */
  predicate SawAll(s: State, p: Proc) {
    if p.Marked? then s.mains <= p.cleared + {p.target}
    else p.Linking? && (p.main.Some? ==> s.mains <= {p.main.value})
  }

  /** The commit of a change or a link leaves the post with at most one main image exactly when every main image by then
      was in sight of it. */
  lemma CommitKeepsExactly(s: State, proc: ProcId)
    requires Enabled(s, Commit(proc)) && OneMain(s.mains)
    ensures OneMain(Apply(s, Commit(proc)).mains) <==> SawAll(s, s.procs[proc])
  {
    var p := s.procs[proc];
    var t := Apply(s, Commit(proc));
    if p.Marked? {
      assert p.target in t.mains;
      if x :| x in s.mains && x !in p.cleared + {p.target} {
        assert x in t.mains;
      }
    } else if p.main.Some? {
      assert p.main.value in t.mains;
      if x :| x in s.mains && x != p.main.value {
        assert x in t.mains;
      }
    }
  }

  /** What a transaction may rely on while no other commits a main image. */
  ghost predicate Current(s: State, proc: ProcId)
    requires proc in s.procs
  {
    match s.procs[proc]
    case Found(_) => true
    case Clearing(_, seen) => s.mains <= seen
    case Cleared(_, cleared) => s.mains <= cleared
    case Marked(_, cleared) => s.mains <= cleared
    case Linking(_, main) => main.Some? ==> s.mains == {}
  }

  predicate BringsMain(s: State, e: Event)
    requires Enabled(s, e)
  {
    e.Commit? && (s.procs[e.proc].Marked? || s.procs[e.proc].main.Some?)
  }

  /** The transaction reads the main images it is going to rely on. */
  predicate Looks(e: Event, proc: ProcId) {
    (e.BeginClear? && e.proc == proc) || (e.BeginLink? && e.proc == proc)
  }

  lemma {:induction false} CurrentRun(states: seq<State>, events: seq<Event>, k: nat, n: nat, proc: ProcId)
    requires IsRun(states, events) && k < n <= |events| && Looks(events[k], proc)
    requires forall i :: k < i < n ==> !BringsMain(states[i], events[i])
    requires forall i :: k < i <= n ==> proc in states[i].procs
    ensures Current(states[n], proc) && !states[n].procs[proc].Found?
  {
    assert states[n] == Apply(states[n - 1], events[n - 1]);
    if n > k + 1 {
      CurrentRun(states, events, k, n - 1, proc);
    }
  }

  /** A change or a link that commits before any other transaction has committed a main image since it looked leaves the
      post with at most one. So changes and links that do not overlap always do. */
  lemma UndisturbedCommitKeeps(states: seq<State>, events: seq<Event>, k: nat, n: nat)
    requires IsRun(states, events) && k < n < |events| && events[n].Commit? && Looks(events[k], events[n].proc)
    requires forall i :: k < i < n ==> !BringsMain(states[i], events[i])
    requires forall i :: k < i <= n ==> events[n].proc in states[i].procs
    requires OneMain(states[n].mains)
    ensures OneMain(states[n + 1].mains)
  {
    CurrentRun(states, events, k, n, events[n].proc);
    CommitKeepsExactly(states[n], events[n].proc);
  }

  // ---- What locks keep ----

  /** A row is locked by one transaction at most; what is cleared is still a main image for the others; what a link
      brings is not there yet. */
  ghost predicate Apart(s: State, q: ProcId, r: ProcId)
    requires q in s.procs && r in s.procs
  {
    && (forall id :: Locks(s.procs[q], id) && Locks(s.procs[r], id) ==> q == r)
    && (s.procs[q].Linking? && s.procs[r].Linking? ==> q == r)
  }

  predicate Kept(s: State, p: Proc) {
    && (p.Cleared? || p.Marked? ==> p.cleared <= s.mains)
    && (p.Marked? ==> p.target in s.files)
    && (p.Linking? ==> p.ids !! s.files && (p.main.Some? ==> p.main.value in p.ids))
  }

  ghost predicate Inv(s: State) {
    && s.mains <= s.files
    && (forall q :: q in s.procs ==> Kept(s, s.procs[q]))
    && forall q, r :: q in s.procs && r in s.procs ==> Apart(s, q, r)
  }

  lemma KeptStep(s: State, e: Event, q: ProcId)
    requires Inv(s) && Enabled(s, e) && q in Apply(s, e).procs
    ensures Kept(Apply(s, e), Apply(s, e).procs[q])
  {
    if q in s.procs {
      assert Kept(s, s.procs[q]);
    }
    if e.Commit? {
      assert Kept(s, s.procs[e.proc]) && Apart(s, q, e.proc);
      assert forall id :: Locks(s.procs[q], id) ==> !Locks(s.procs[e.proc], id);
      if s.procs[q].Cleared? || s.procs[q].Marked? {
        assert forall id :: id in s.procs[q].cleared ==> Locks(s.procs[q], id);
      }
      if s.procs[e.proc].Marked? {
        assert forall id :: id in s.procs[e.proc].cleared ==> Locks(s.procs[e.proc], id);
      }
    } else if e.Delete? {
      assert forall id :: Locks(s.procs[q], id) ==> id !in e.ids;
      if s.procs[q].Cleared? || s.procs[q].Marked? {
        assert forall id :: id in s.procs[q].cleared ==> Locks(s.procs[q], id);
      }
      if s.procs[q].Marked? {
        assert Locks(s.procs[q], s.procs[q].target);
      }
    }
  }

  lemma ApartStep(s: State, e: Event, q: ProcId, r: ProcId)
    requires Inv(s) && Enabled(s, e) && q in Apply(s, e).procs && r in Apply(s, e).procs
    ensures Apart(Apply(s, e), q, r)
  {
    if q in s.procs && r in s.procs {
      assert Apart(s, q, r);
    }
  }

  lemma InvStep(s: State, e: Event)
    requires Inv(s) && Enabled(s, e)
    ensures Inv(Apply(s, e))
  {
    var t := Apply(s, e);
    if e.Commit? {
      assert Kept(s, s.procs[e.proc]);
    }
    forall q | q in t.procs ensures Kept(t, t.procs[q]) {
      KeptStep(s, e, q);
    }
    forall q, r | q in t.procs && r in t.procs ensures Apart(t, q, r) {
      ApartStep(s, e, q, r);
    }
  }

  lemma {:induction false} RunInv(states: seq<State>, events: seq<Event>, n: nat)
    requires IsRun(states, events) && n <= |events|
    ensures Inv(states[n])
  {
    if n > 0 {
      RunInv(states, events, n - 1);
      InvStep(states[n - 1], events[n - 1]);
    }
  }

  // ---- What comes between the look and the commit ----

  function OwnMain(p: Proc): Option<FileId> {
    match p
    case Linking(_, main) => main
    case _ => Some(p.target)
  }

  /** This commit brings this main image. */
  predicate Brings(s: State, e: Event, x: FileId) {
    e.Commit? && e.proc in s.procs && OwnMain(s.procs[e.proc]) == Some(x)
  }

  /** It does so out of this transaction's sight: the file was no main image when it looked, or its clearing was
      over. */
  predicate BringsUnseen(states: seq<State>, events: seq<Event>, k: nat, i: nat, proc: ProcId, x: FileId)
    requires |states| == |events| + 1 && k < i < |events|
  {
    && Brings(states[i], events[i], x)
    && (x !in states[k].mains || (proc in states[i].procs && !states[i].procs[proc].Clearing?))
  }

  ghost predicate CameUnseen(states: seq<State>, events: seq<Event>, k: nat, n: nat, proc: ProcId, x: FileId)
    requires |states| == |events| + 1 && n <= |events|
  {
    exists i :: k < i < n && BringsUnseen(states, events, k, i, proc, x)
  }

  lemma UnseenNext(states: seq<State>, events: seq<Event>, k: nat, n: nat, m: nat, proc: ProcId, x: FileId)
    requires |states| == |events| + 1 && k < n < |events| && m == n + 1
    ensures CameUnseen(states, events, k, m, proc, x) <==>
            CameUnseen(states, events, k, n, proc, x) || BringsUnseen(states, events, k, n, proc, x)
  {
  }

  /** What a transaction that has looked at `k` knows of one file at `n`. */
  ghost predicate Sight(states: seq<State>, events: seq<Event>, k: nat, n: nat, proc: ProcId, x: FileId)
    requires |states| == |events| + 1 && k < n <= |events| && proc in states[n].procs
  {
    var unseen, mains := CameUnseen(states, events, k, n, proc, x), states[n].mains;
    match states[n].procs[proc]
    case Found(_) => false
    case Clearing(_, seen) =>
      seen == states[k].mains && (unseen ==> x !in seen) && (x in mains && x !in seen ==> unseen)
    case Cleared(_, cleared) => x in mains ==> (x in cleared <==> !unseen)
    case Marked(_, cleared) => x in mains ==> (x in cleared <==> !unseen)
    case Linking(_, main) => main.Some? && x in mains ==> unseen
  }

  lemma FirstSight(states: seq<State>, events: seq<Event>, k: nat, n: nat, proc: ProcId, x: FileId)
    requires IsRun(states, events) && k < |events| && n == k + 1 && Looks(events[k], proc) && proc in states[n].procs
    ensures Sight(states, events, k, n, proc, x)
  {
    assert states[n] == Apply(states[k], events[k]);
    assert !CameUnseen(states, events, k, n, proc, x);
  }

  /** Nobody brings a main image that this transaction has cleared and not yet committed. */
  lemma ClearedNotBrought(s: State, e: Event, proc: ProcId, x: FileId)
    requires Inv(s) && Enabled(s, e) && Brings(s, e, x) && e.proc != proc && proc in s.procs
    requires (s.procs[proc].Cleared? || s.procs[proc].Marked?)
    ensures x !in s.procs[proc].cleared
  {
    assert Apart(s, proc, e.proc) && Kept(s, s.procs[proc]) && Kept(s, s.procs[e.proc]);
    assert x in s.procs[proc].cleared ==> Locks(s.procs[proc], x);
    assert s.procs[e.proc].Marked? ==> Locks(s.procs[e.proc], x);
  }

  lemma MainsStep(s: State, e: Event, x: FileId)
    requires Enabled(s, e) && x in Apply(s, e).mains
    ensures x in s.mains || Brings(s, e, x)
  {
  }

  lemma SightNext(states: seq<State>, events: seq<Event>, k: nat, n: nat, m: nat, proc: ProcId, x: FileId)
    requires IsRun(states, events) && k < n < |events| && m == n + 1 && Inv(states[n])
    requires proc in states[n].procs && proc in states[m].procs && Sight(states, events, k, n, proc, x)
    ensures Sight(states, events, k, m, proc, x)
  {
    var s, e := states[n], events[n];
    assert states[n + 1] == Apply(s, e);
    UnseenNext(states, events, k, n, m, proc, x);
    if x in states[m].mains {
      MainsStep(s, e, x);
    }
    if Brings(s, e, x) && (s.procs[proc].Cleared? || s.procs[proc].Marked?) {
      ClearedNotBrought(s, e, proc, x);
    }
  }

  lemma {:induction false} SightRun(states: seq<State>, events: seq<Event>, k: nat, n: nat, proc: ProcId, x: FileId)
    requires IsRun(states, events) && k < n <= |events| && Looks(events[k], proc)
    requires forall i :: k < i <= n ==> proc in states[i].procs
    ensures Sight(states, events, k, n, proc, x)
  {
    var j := n - 1;
    if j == k {
      FirstSight(states, events, k, n, proc, x);
    } else {
      SightRun(states, events, k, j, proc, x);
      RunInv(states, events, j);
      SightNext(states, events, k, j, n, proc, x);
    }
  }

  /** From its look at `k` to its commit at `n`: a change, or a link that brings a main image, leaves the post with at
      most one exactly when no other transaction has meanwhile brought, out of its sight, a main image that still is
      one. A link that brings none always does. */
  lemma OverlapKeepsExactly(states: seq<State>, events: seq<Event>, k: nat, n: nat)
    requires IsRun(states, events) && k < n < |events| && events[n].Commit? && Looks(events[k], events[n].proc)
    requires forall i :: k < i <= n ==> events[n].proc in states[i].procs
    requires OneMain(states[n].mains)
    ensures var proc := events[n].proc;
            var own := OwnMain(states[n].procs[proc]);
            OneMain(states[n + 1].mains) <==>
              (own.Some? ==> forall x :: x in states[n].mains && x != own.value ==>
                                           !CameUnseen(states, events, k, n, proc, x))
  {
    var s, proc := states[n], events[n].proc;
    forall x | x in s.mains ensures Sight(states, events, k, n, proc, x) {
      SightRun(states, events, k, n, proc, x);
    }
    RunInv(states, events, n);
    assert Kept(s, s.procs[proc]);
    CommitKeepsExactly(s, proc);
    assert states[n + 1] == Apply(s, events[n]);
  }

  // ---- What the writes come to ----

  /** What this commit or deletion takes away again. */
  predicate TakesMain(s: State, e: Event, x: FileId) {
    || (e.Delete? && x in e.ids)
    || (e.Commit? && e.proc in s.procs && s.procs[e.proc].Marked? && x in s.procs[e.proc].cleared
        && x != s.procs[e.proc].target)
  }

  /** A commit before `n` brought the file as the main image, and nothing since has taken that away. */
  ghost predicate BroughtAndKept(states: seq<State>, events: seq<Event>, i: nat, n: nat, x: FileId)
    requires |states| == |events| + 1 && n <= |events|
  {
    && i < n && Brings(states[i], events[i], x)
    && forall j :: i < j < n ==> !TakesMain(states[j], events[j], x)
  }

  /** In every interleaving a file is a main image exactly when some commit made it one, and no deletion of it and no
      commit of a change that had cleared it came after. */
  lemma {:induction false} MainsExactly(states: seq<State>, events: seq<Event>, n: nat, x: FileId)
    requires IsRun(states, events) && n <= |events|
    ensures x in states[n].mains <==> exists i: nat :: BroughtAndKept(states, events, i, n, x)
  {
    if n > 0 {
      var j := n - 1;
      MainsExactly(states, events, j, x);
      assert states[n] == Apply(states[j], events[j]);
      assert Brings(states[j], events[j], x) ==> BroughtAndKept(states, events, j, n, x);
      if i: nat :| BroughtAndKept(states, events, i, j, x) && !TakesMain(states[j], events[j], x) {
        assert BroughtAndKept(states, events, i, n, x);
      }
      if i: nat :| BroughtAndKept(states, events, i, n, x) && i < j {
        assert BroughtAndKept(states, events, i, j, x);
      }
    }
  }

  predicate BringsFile(s: State, e: Event, x: FileId) {
    e.Commit? && e.proc in s.procs && s.procs[e.proc].Linking? && x in s.procs[e.proc].ids
  }

  ghost predicate LinkedAndKept(states: seq<State>, events: seq<Event>, i: nat, n: nat, x: FileId)
    requires |states| == |events| + 1 && n <= |events|
  {
    && i < n && BringsFile(states[i], events[i], x)
    && forall j :: i < j < n ==> !(events[j].Delete? && x in events[j].ids)
  }

  /** And a file is there exactly when a link has brought it and no deletion of it came after. */
  lemma {:induction false} FilesExactly(states: seq<State>, events: seq<Event>, n: nat, x: FileId)
    requires IsRun(states, events) && n <= |events|
    ensures x in states[n].files <==> exists i: nat :: LinkedAndKept(states, events, i, n, x)
  {
    if n > 0 {
      var j := n - 1;
      FilesExactly(states, events, j, x);
      assert states[n] == Apply(states[j], events[j]);
      assert BringsFile(states[j], events[j], x) ==> LinkedAndKept(states, events, j, n, x);
      if i: nat :| LinkedAndKept(states, events, i, j, x) && !(events[j].Delete? && x in events[j].ids) {
        assert LinkedAndKept(states, events, i, n, x);
      }
      if i: nat :| LinkedAndKept(states, events, i, n, x) && i < j {
        assert LinkedAndKept(states, events, i, j, x);
      }
    }
  }

  lemma {:induction false} AsBegun(states: seq<State>, events: seq<Event>, k: nat, n: nat, proc: ProcId)
    requires IsRun(states, events) && k < n <= |events|
    requires forall i :: k < i <= n ==> proc in states[i].procs
    ensures events[k].BeginSetMain? && events[k].proc == proc ==>
              var p := states[n].procs[proc]; !p.Linking? && p.target == events[k].target
    ensures events[k].BeginLink? && events[k].proc == proc ==>
              states[n].procs[proc] == Linking(events[k].ids, events[k].main)
  {
    var j := n - 1;
    assert states[n] == Apply(states[j], events[j]);
    if j > k {
      AsBegun(states, events, k, j, proc);
    }
  }

  /** A change that no other transaction disturbs leaves the file it was asked for as the one main image. */
  lemma UndisturbedChangeMarks(states: seq<State>, events: seq<Event>, b: nat, k: nat, n: nat)
    requires IsRun(states, events) && b < k < n < |events|
    requires events[b].BeginSetMain? && events[k] == BeginClear(events[b].proc) && events[n] == Commit(events[b].proc)
    requires forall i :: b < i <= n ==> events[b].proc in states[i].procs
    requires forall i :: k < i < n ==> !BringsMain(states[i], events[i])
    ensures states[n + 1].mains == {events[b].target} && states[n + 1].files == states[n].files
  {
    AsBegun(states, events, b, n, events[b].proc);
    CurrentRun(states, events, k, n, events[b].proc);
    assert states[n + 1] == Apply(states[n], events[n]);
  }

  /** A link brings its files, and its main image if it has one, whatever comes between. */
  lemma LinkBrings(states: seq<State>, events: seq<Event>, k: nat, n: nat)
    requires IsRun(states, events) && k < n < |events|
    requires events[k].BeginLink? && events[n] == Commit(events[k].proc)
    requires forall i :: k < i <= n ==> events[k].proc in states[i].procs
    ensures states[n + 1].files == states[n].files + events[k].ids
    ensures states[n + 1].mains == states[n].mains + match events[k].main case None => {} case Some(x) => {x}
  {
    AsBegun(states, events, k, n, events[k].proc);
    assert states[n + 1] == Apply(states[n], events[n]);
  }

  // ---- Two main images ----

  /** A first link brings file 1 as the main image and files 2 and 3 beside it. */
  lemma FirstLink() returns (states: seq<State>, events: seq<Event>)
    ensures IsRun(states, events) && states[|events|] == State({1, 2, 3}, {1}, map[])
  {
    var s0 := State({}, {}, map[]);
    var e0 := BeginLink(0, {1, 2, 3}, Some(1));
    states, events := [s0], [];
    ExtendRun(states, events, e0);
    var s1 := Apply(s0, e0);
    states, events := states + [s1], events + [e0];
    ExtendRun(states, events, Commit(0));
    var s2 := Apply(s1, Commit(0));
    assert s2 == State({1, 2, 3}, {1}, map[]);
    states, events := states + [s2], events + [Commit(0)];
  }

  /** Both changes clear with only file 1 in sight; the first gets its lock and marks file 2. */
  lemma BothLook() returns (states: seq<State>, events: seq<Event>)
    ensures IsRun(states, events)
    ensures states[|events|] == State({1, 2, 3}, {1}, map[1 := Clearing(2, {1}), 2 := Clearing(3, {1})])
  {
    states, events := FirstLink();
    var e1, e2, e3, e4 := BeginSetMain(1, 2), BeginSetMain(2, 3), BeginClear(1), BeginClear(2);
    ExtendRun(states, events, e1);
    states, events := states + [Apply(states[|events|], e1)], events + [e1];
    ExtendRun(states, events, e2);
    states, events := states + [Apply(states[|events|], e2)], events + [e2];
    ExtendRun(states, events, e3);
    states, events := states + [Apply(states[|events|], e3)], events + [e3];
    ExtendRun(states, events, e4);
    states, events := states + [Apply(states[|events|], e4)], events + [e4];
    assert states[|events|].procs == map[1 := Clearing(2, {1}), 2 := Clearing(3, {1})];
  }

  lemma FirstCommits() returns (states: seq<State>, events: seq<Event>)
    ensures IsRun(states, events) && states[|events|] == State({1, 2, 3}, {2}, map[2 := Clearing(3, {1})])
  {
    states, events := BothLook();
    ExtendRun(states, events, EndClear(1));
    states, events := states + [Apply(states[|events|], EndClear(1))], events + [EndClear(1)];
    assert states[|events|].procs[1] == Cleared(2, {1});
    ExtendRun(states, events, Mark(1));
    states, events := states + [Apply(states[|events|], Mark(1))], events + [Mark(1)];
    ExtendRun(states, events, Commit(1));
    states, events := states + [Apply(states[|events|], Commit(1))], events + [Commit(1)];
    assert states[|events|] == State({1, 2, 3}, {2}, map[2 := Clearing(3, {1})]);
  }

  /** Two changes of the main image at once leave two: the second waited for the row of the old main image and never saw
      the new one. */
  lemma TwoChangesLeaveTwo() returns (states: seq<State>, events: seq<Event>)
    ensures IsRun(states, events) && states[|events|] == State({1, 2, 3}, {2, 3}, map[])
  {
    states, events := FirstCommits();
    ExtendRun(states, events, EndClear(2));
    states, events := states + [Apply(states[|events|], EndClear(2))], events + [EndClear(2)];
    assert states[|events|].procs[2] == Cleared(3, {});
    ExtendRun(states, events, Mark(2));
    states, events := states + [Apply(states[|events|], Mark(2))], events + [Mark(2)];
    ExtendRun(states, events, Commit(2));
    states, events := states + [Apply(states[|events|], Commit(2))], events + [Commit(2)];
    assert states[|events|] == State({1, 2, 3}, {2, 3}, map[]);
  }
}
