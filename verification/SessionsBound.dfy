/** The bound on a user's sessions is attained: for any number of logins at once and any number of failed clean-ups
    there is a run that stores just as many sessions as it allows. */
module SessionsBound {
  import opened Sessions
  import opened Wrappers

  /** Login, device and session id `i` belong together; the first five sessions are there from the start. */
  function RowOf(i: nat): Row { Row(i, if i < MAX_DEVICES then 0 else i, Some(0), 0, 1) }

  predicate Within(i: nat, lo: nat, hi: nat) { lo <= i < hi }

  function Span(lo: nat, hi: nat): set<nat> { set i: nat | i < hi && Within(i, lo, hi) }

  function FirstRows(n: nat): Rows { map i: nat | i in Span(0, n) :: RowOf(i) }

  lemma {:induction false} SpanSize(lo: nat, hi: nat)
    requires lo <= hi
    ensures |Span(lo, hi)| == hi - lo
    decreases hi
  {
    if lo != hi {
      SpanSize(lo, hi - 1);
      assert Span(lo, hi) == Span(lo, hi - 1) + {hi - 1};
    }
  }

  lemma FirstRowsSize(n: nat)
    ensures |FirstRows(n)| == n
  {
    SpanSize(0, n);
    assert FirstRows(n).Keys == Span(0, n);
  }

  ghost predicate IsReady(l: Login, i: nat) { l.Cleaned? && l.deviceId == i && l.sessionId == i }

  /** The sessions before `lo` are stored, and the logins from there up to `hi` have cleaned up and not stored
      theirs. */
  ghost predicate Shape(s: State, lo: nat, hi: nat, failed: set<LoginId>) {
    && MAX_DEVICES <= lo <= hi
    && s.rows == FirstRows(lo) && s.failed == failed
    && s.logins.Keys == Span(lo, hi) && (forall i :: i in s.logins ==> IsReady(s.logins[i], i))
    && s.finished == Span(MAX_DEVICES, lo) && s.owner.Keys == Span(0, hi)
  }

  predicate HasClean(events: seq<Event>) { exists i :: 0 <= i < |events| && events[i].Clean? }

  /** A run with at most `k` logins under way at once. */
  ghost predicate IsCrowdRun(states: seq<State>, events: seq<Event>, k: nat) {
    && |states| == |events| + 1 && IsInitial(states[0])
    && (forall i {:trigger Enabled(states[i], events[i])} :: 0 <= i < |events| ==>
          Enabled(states[i], events[i]) && states[i + 1] == Apply(states[i], events[i]))
    && (forall i {:trigger UnderWay(states[i].logins)} :: 0 <= i <= |events| ==> |UnderWay(states[i].logins)| <= k)
  }

  lemma CrowdRunIsRun(states: seq<State>, events: seq<Event>, k: nat)
    requires IsCrowdRun(states, events, k)
    ensures IsRun(states, events) && CrowdAtMost(states, k)
  {
    forall i | 0 <= i < |events| ensures Enabled(states[i], events[i]) && states[i + 1] == Apply(states[i], events[i]) {
    }
  }

  lemma Extend(states: seq<State>, events: seq<Event>, k: nat, e: Event)
    returns (states': seq<State>, events': seq<Event>)
    requires IsCrowdRun(states, events, k) && Enabled(states[|events|], e)
    requires |UnderWay(Apply(states[|events|], e).logins)| <= k
    ensures IsCrowdRun(states', events', k) && events' == events + [e]
    ensures states'[|events'|] == Apply(states[|events|], e)
  {
    states', events' := states + [Apply(states[|events|], e)], events + [e];
    forall i | 0 <= i < |events'|
      ensures Enabled(states'[i], events'[i]) && states'[i + 1] == Apply(states'[i], events'[i])
    {
      if i < |events| {
        assert Enabled(states[i], events[i]);
      }
    }
    forall i | 0 <= i <= |events'| ensures |UnderWay(states'[i].logins)| <= k {
      if i <= |events| {
        assert |UnderWay(states[i].logins)| <= k;
      }
    }
  }

  lemma CleanSeen(events: seq<Event>, e: Event)
    ensures HasClean(events + [e]) <==> HasClean(events) || e.Clean?
  {
    if HasClean(events) {
      var i :| 0 <= i < |events| && events[i].Clean?;
      assert (events + [e])[i].Clean?;
    }
    if e.Clean? {
      assert (events + [e])[|events|].Clean?;
    }
  }

  lemma CrowdIn(logins: map<LoginId, Login>, lo: nat, hi: nat)
    requires logins.Keys <= Span(lo, hi) && lo <= hi
    ensures |UnderWay(logins)| <= hi - lo
  {
    SpanSize(lo, hi);
    assert Span(lo, hi) == UnderWay(logins) + (Span(lo, hi) - UnderWay(logins));
  }

  /** The same with login `hi` on its way, as `newest`. */
  ghost predicate Coming(s: State, lo: nat, hi: nat, failed: set<LoginId>, newest: Login -> bool) {
    && s.rows == FirstRows(lo) && s.failed == failed
    && s.finished == Span(MAX_DEVICES, lo) && s.owner.Keys == Span(0, hi + 1)
    && s.logins.Keys == Span(lo, hi + 1) && (forall i :: i in s.logins && i != hi ==> IsReady(s.logins[i], i))
    && hi in s.logins && newest(s.logins[hi])
  }

  ghost function HasChosen(hi: nat): Login -> bool { (l: Login) => l == Chosen(hi, hi) }

  ghost function HasLooked(hi: nat, rows: Rows): Login -> bool {
    (l: Login) => l.Found? && l.deviceId == hi && l.sessionId == hi && l.snapshot == rows
  }

  lemma Chooses(s: State, lo: nat, hi: nat, failed: set<LoginId>)
    requires Shape(s, lo, hi, failed)
    ensures Enabled(s, Choose(hi, hi, hi)) && Coming(Apply(s, Choose(hi, hi, hi)), lo, hi, failed, HasChosen(hi))
  {
    assert Span(lo, hi) + {hi} == Span(lo, hi + 1) && Span(0, hi) + {hi} == Span(0, hi + 1);
    assert hi !in Span(lo, hi) && hi !in Span(MAX_DEVICES, lo) && hi !in Span(0, hi);
    assert forall i :: i in s.rows ==> i < lo && s.rows[i] == RowOf(i);
  }

  lemma Looks(s: State, lo: nat, hi: nat, failed: set<LoginId>)
    requires Coming(s, lo, hi, failed, HasChosen(hi))
    ensures Enabled(s, FindAll(hi)) && Coming(Apply(s, FindAll(hi)), lo, hi, failed, HasLooked(hi, FirstRows(lo)))
  {
    assert s.logins[hi] == Chosen(hi, hi);
  }

  /** A login of a device of its own, up to the moment it has looked. */
  lemma Look(states: seq<State>, events: seq<Event>, k: nat, lo: nat, hi: nat, failed: set<LoginId>)
    returns (states': seq<State>, events': seq<Event>)
    requires IsCrowdRun(states, events, k) && Shape(states[|events|], lo, hi, failed) && hi - lo < k
    ensures IsCrowdRun(states', events', k) && (HasClean(events) ==> HasClean(events'))
    ensures Coming(states'[|events'|], lo, hi, failed, HasLooked(hi, FirstRows(lo)))
  {
    Chooses(states[|events|], lo, hi, failed);
    CrowdIn(Apply(states[|events|], Choose(hi, hi, hi)).logins, lo, hi + 1);
    CleanSeen(events, Choose(hi, hi, hi));
    states', events' := Extend(states, events, k, Choose(hi, hi, hi));
    Looks(states'[|events'|], lo, hi, failed);
    CrowdIn(Apply(states'[|events'|], FindAll(hi)).logins, lo, hi + 1);
    CleanSeen(events', FindAll(hi));
    states', events' := Extend(states', events', k, FindAll(hi));
  }

  /** With five sessions there is nothing to clean up. */
  lemma Enter(states: seq<State>, events: seq<Event>, k: nat, hi: nat)
    returns (states': seq<State>, events': seq<Event>)
    requires IsCrowdRun(states, events, k) && Shape(states[|events|], MAX_DEVICES, hi, {}) && hi - MAX_DEVICES < k
    ensures IsCrowdRun(states', events', k) && HasClean(events')
    ensures Shape(states'[|events'|], MAX_DEVICES, hi + 1, {})
  {
    states', events' := Look(states, events, k, MAX_DEVICES, hi, {});
    FirstRowsSize(MAX_DEVICES);
    assert IsCleanup(FirstRows(MAX_DEVICES), hi, {});
    CrowdIn(Apply(states'[|events'|], Clean(hi, {})).logins, MAX_DEVICES, hi + 1);
    CleanSeen(events', Clean(hi, {}));
    states', events' := Extend(states', events', k, Clean(hi, {}));
  }

  lemma Store(states: seq<State>, events: seq<Event>, k: nat, lo: nat, hi: nat, failed: set<LoginId>)
    returns (states': seq<State>, events': seq<Event>)
    requires IsCrowdRun(states, events, k) && Shape(states[|events|], lo, hi, failed) && lo < hi <= lo + k
    ensures IsCrowdRun(states', events', k) && (HasClean(events) ==> HasClean(events'))
    ensures Shape(states'[|events'|], lo + 1, hi, failed)
  {
    var s, e := states[|events|], Upsert(lo, None, 0, 1);
    assert lo in s.logins && IsReady(s.logins[lo], lo);
    assert Span(lo, hi) - {lo} == Span(lo + 1, hi) && Span(MAX_DEVICES, lo) + {lo} == Span(MAX_DEVICES, lo + 1);
    assert FirstRows(lo)[lo := RowOf(lo)] == FirstRows(lo + 1);
    CrowdIn(Apply(s, e).logins, lo + 1, hi);
    CleanSeen(events, e);
    states', events' := Extend(states, events, k, e);
  }

  /** A login whose clean-up fails, by itself. */
  lemma FailOne(states: seq<State>, events: seq<Event>, k: nat, lo: nat, hi: nat, failed: set<LoginId>,
                failing: set<LoginId>)
    returns (states': seq<State>, events': seq<Event>)
    requires IsCrowdRun(states, events, k) && Shape(states[|events|], lo, lo, failed) && k > 0
    requires hi == lo + 1 && failing == failed + {lo}
    ensures IsCrowdRun(states', events', k) && (HasClean(events) ==> HasClean(events'))
    ensures Shape(states'[|events'|], hi, hi, failing)
  {
    states', events' := Look(states, events, k, lo, lo, failed);
    CrowdIn(Apply(states'[|events'|], CleanFails(lo)).logins, lo, lo + 1);
    CleanSeen(events', CleanFails(lo));
    states', events' := Extend(states', events', k, CleanFails(lo));
    states', events' := Store(states', events', k, lo, hi, failing);
  }

  lemma AllEnter(k: nat) returns (states: seq<State>, events: seq<Event>)
    requires k > 0
    ensures IsCrowdRun(states, events, k) && HasClean(events)
    ensures Shape(states[|events|], MAX_DEVICES, MAX_DEVICES + k, {})
  {
    var rows := FirstRows(MAX_DEVICES);
    states := [State(rows, map[], {}, map[], map id | id in rows :: rows[id].deviceId, {}, 0, Latest(-1, rows.Keys, {}))];
    events := [];
    assert Shape(states[0], MAX_DEVICES, MAX_DEVICES, {});
    assert IsCrowdRun(states, events, k);
    for j := 0 to k
      invariant IsCrowdRun(states, events, k) && (j > 0 ==> HasClean(events))
      invariant Shape(states[|events|], MAX_DEVICES, MAX_DEVICES + j, {})
    {
      states, events := Enter(states, events, k, MAX_DEVICES + j);
    }
  }

  lemma AllStore(k: nat) returns (states: seq<State>, events: seq<Event>)
    requires k > 0
    ensures IsCrowdRun(states, events, k) && HasClean(events)
    ensures Shape(states[|events|], MAX_DEVICES + k, MAX_DEVICES + k, {})
  {
    states, events := AllEnter(k);
    for j := 0 to k
      invariant IsCrowdRun(states, events, k) && HasClean(events)
      invariant Shape(states[|events|], MAX_DEVICES + j, MAX_DEVICES + k, {})
    {
      states, events := Store(states, events, k, MAX_DEVICES + j, MAX_DEVICES + k, {});
    }
  }

  lemma SpanNext(lo: nat, hi: nat)
    requires lo <= hi
    ensures Span(lo, hi + 1) == Span(lo, hi) + {hi}
    ensures Span(lo, lo) == {}
  {
  }

  lemma AllFail(k: nat, at: nat, n: nat) returns (states: seq<State>, events: seq<Event>)
    requires k > 0 && at == MAX_DEVICES + k && at <= n
    ensures IsCrowdRun(states, events, k) && HasClean(events)
    ensures Shape(states[|events|], n, n, Span(at, n))
    decreases n
  {
    if n == at {
      states, events := AllStore(k);
      SpanNext(at, at);
    } else {
      var m := n - 1;
      SpanNext(at, m);
      states, events := AllFail(k, at, m);
      states, events := FailOne(states, events, k, m, n, Span(at, m), Span(at, n));
    }
  }

  lemma ShapeSizes(s: State, at: nat, n: nat)
    requires at <= n && Shape(s, n, n, Span(at, n))
    ensures |s.rows| == n && |s.failed| == n - at
  {
    FirstRowsSize(n);
    SpanSize(at, n);
  }

  /** With `k` logins under way at once at most, after a clean-up and with this many failed ones, there can be as many
      sessions as the bound says. */
  lemma BoundAttained(k: nat, failures: nat) returns (states: seq<State>, events: seq<Event>)
    requires k > 0
    ensures IsRun(states, events) && CrowdAtMost(states, k) && HasClean(events)
    ensures |states[|events|].failed| == failures
    ensures |states[|events|].rows| == MAX_DEVICES + k + failures
  {
    var at := MAX_DEVICES + k;
    states, events := AllFail(k, at, at + failures);
    ShapeSizes(states[|events|], at, at + failures);
    CrowdRunIsRun(states, events, k);
  }
}
