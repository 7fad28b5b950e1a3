/** The reviews of one post under concurrency. Assigning a reviewer and giving a verdict first make every review of the
    post inactive and then add one; each statement sees the rows committed when it began, and waits for the rows that
    another transaction has updated. */
module ReviewRaces {
  type ReviewId = nat
  type ProcId = nat

  /** A transaction whose suspending statement has begun with these rows in sight, or has ended and holds their
      locks. */
  datatype Proc = Suspending(seen: set<ReviewId>) | Suspended(seen: set<ReviewId>)

  datatype State = State(rows: set<ReviewId>, active: set<ReviewId>, procs: map<ProcId, Proc>)

  datatype Event =
    | BeginSuspend(proc: ProcId)
    | EndSuspend(proc: ProcId)
    | Commit(proc: ProcId, id: ReviewId)
    | Abort(proc: ProcId)

  predicate Unlocked(s: State, ids: set<ReviewId>, proc: ProcId) {
    forall q :: q in s.procs && q != proc && s.procs[q].Suspended? ==> s.procs[q].seen !! ids
  }

  predicate Enabled(s: State, e: Event) {
    match e
    case BeginSuspend(proc) => proc !in s.procs
    case EndSuspend(proc) => proc in s.procs && s.procs[proc].Suspending? && Unlocked(s, s.procs[proc].seen, proc)
    case Commit(proc, id) => proc in s.procs && s.procs[proc].Suspended? && id !in s.rows
    case Abort(proc) => proc in s.procs
  }

  function Apply(s: State, e: Event): State
    requires Enabled(s, e)
  {
    match e
    case BeginSuspend(proc) => s.(procs := s.procs[proc := Suspending(s.rows)])
    case EndSuspend(proc) => s.(procs := s.procs[proc := Suspended(s.procs[proc].seen)])
    case Commit(proc, id) => State(s.rows + {id}, (s.active - s.procs[proc].seen) + {id}, s.procs - {proc})
    case Abort(proc) => s.(procs := s.procs - {proc})
  }

  ghost predicate IsRun(states: seq<State>, events: seq<Event>) {
    && |states| == |events| + 1
    && states[0] == State({}, {}, map[])
    && forall i {:trigger Enabled(states[i], events[i])} :: 0 <= i < |events| ==>
         Enabled(states[i], events[i]) && states[i + 1] == Apply(states[i], events[i])
  }

  lemma ExtendRun(states: seq<State>, events: seq<Event>, e: Event)
    requires IsRun(states, events) && Enabled(states[|events|], e)
    ensures IsRun(states + [Apply(states[|events|], e)], events + [e])
  {
    var more, others := states + [Apply(states[|events|], e)], events + [e];
    forall i | 0 <= i < |others| ensures Enabled(more[i], others[i]) && more[i + 1] == Apply(more[i], others[i]) {
      if i < |events| {
        assert Enabled(states[i], events[i]);
      }
    }
  }

  // ---- What one transaction leaves ----

  /** A transaction begins to suspend at `k` and commits at `n`. */
  ghost predicate Spans(states: seq<State>, events: seq<Event>, k: nat, n: nat) {
    && IsRun(states, events) && k < n < |events|
    && events[k].BeginSuspend? && events[n].Commit? && events[n].proc == events[k].proc
    && forall j :: k < j <= n ==> events[k].proc in states[j].procs
  }

  lemma {:induction false} SameSight(states: seq<State>, events: seq<Event>, k: nat, n: nat)
    requires IsRun(states, events) && k < n <= |events| && events[k].BeginSuspend?
    requires forall j :: k < j <= n ==> events[k].proc in states[j].procs
    ensures states[n].procs[events[k].proc].seen == states[k].rows
    decreases n
  {
    var j := n - 1;
    assert Enabled(states[j], events[j]) && states[j + 1] == Apply(states[j], events[j]);
    if j > k {
      SameSight(states, events, k, j);
    }
  }

  lemma {:induction false} ActiveAreRows(states: seq<State>, events: seq<Event>, n: nat)
    requires IsRun(states, events) && n <= |events|
    ensures states[n].active <= states[n].rows
  {
    if n > 0 {
      ActiveAreRows(states, events, n - 1);
      assert Enabled(states[n - 1], events[n - 1]);
    }
  }

  /** Some transaction has committed from `k` on and before `n`. */
  predicate SomeCommit(events: seq<Event>, k: nat, n: nat)
    requires n <= |events|
  {
    exists i :: k <= i < n && events[i].Commit?
  }

  /** Since `k` either nothing has changed, or the row of the latest commit is active. */
  lemma {:induction false} SinceThen(states: seq<State>, events: seq<Event>, k: nat, n: nat)
    requires IsRun(states, events) && k <= n <= |events|
    ensures states[k].rows <= states[n].rows
    ensures if SomeCommit(events, k, n) then states[n].active - states[k].rows != {}
            else states[n].rows == states[k].rows && states[n].active == states[k].active
    decreases n
  {
    if n > k {
      var j := n - 1;
      SinceThen(states, events, k, j);
      assert Enabled(states[j], events[j]) && states[j + 1] == Apply(states[j], events[j]);
      if events[j].Commit? {
        assert events[j].id in states[n].active - states[k].rows;
      } else {
        assert SomeCommit(events, k, n) <==> SomeCommit(events, k, j);
      }
    }
  }

  /** A transaction leaves its own review as the only active one exactly when no other has committed since it began to
      suspend; otherwise the other's review stays active beside it. */
  lemma OnlyActiveExactly(states: seq<State>, events: seq<Event>, k: nat, n: nat)
    requires Spans(states, events, k, n)
    ensures states[n + 1].active == {events[n].id} <==> !SomeCommit(events, k, n)
    ensures SomeCommit(events, k, n) ==> |states[n + 1].active| >= 2
  {
    SameSight(states, events, k, n);
    SinceThen(states, events, k, n);
    ActiveAreRows(states, events, k);
    ActiveAreRows(states, events, n);
    assert Enabled(states[n], events[n]) && states[n + 1] == Apply(states[n], events[n]);
    if SomeCommit(events, k, n) {
      var x :| x in states[n].active - states[k].rows;
      assert {x, events[n].id} <= states[n + 1].active;
      assert states[n + 1].active == {x, events[n].id} + (states[n + 1].active - {x, events[n].id});
    }
  }

  // ---- Two verdicts at once ----

  lemma Next(states: seq<State>, events: seq<Event>, e: Event) returns (states': seq<State>, events': seq<Event>)
    requires IsRun(states, events) && Enabled(states[|events|], e)
    ensures IsRun(states', events') && events' == events + [e]
    ensures states'[|events'|] == Apply(states[|events|], e)
  {
    ExtendRun(states, events, e);
    states', events' := states + [Apply(states[|events|], e)], events + [e];
  }

  lemma BothBegin() returns (states: seq<State>, events: seq<Event>)
    ensures IsRun(states, events)
    ensures states[|events|] == State({1}, {1}, map[2 := Suspending({1}), 3 := Suspending({1})])
  {
    states, events := [State({}, {}, map[])], [];
    states, events := Next(states, events, BeginSuspend(1));
    states, events := Next(states, events, EndSuspend(1));
    states, events := Next(states, events, Commit(1, 1));
    assert states[|events|] == State({1}, {1}, map[]);
    states, events := Next(states, events, BeginSuspend(2));
    states, events := Next(states, events, BeginSuspend(3));
  }

  /** A reviewer is assigned, and two verdicts come at once: the second waits for the first, suspends what it saw at its
      beginning, and both reviews are active. */
  lemma TwoVerdictsBothActive() returns (states: seq<State>, events: seq<Event>)
    ensures IsRun(states, events) && states[|events|] == State({1, 2, 3}, {2, 3}, map[])
  {
    states, events := BothBegin();
    states, events := Next(states, events, EndSuspend(2));
    states, events := Next(states, events, Commit(2, 2));
    states, events := Next(states, events, EndSuspend(3));
    states, events := Next(states, events, Commit(3, 3));
    assert states[|events|].procs == map[];
  }
}
