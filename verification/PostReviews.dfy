/** Reviews of posts: assignment, verdicts, and the hand-over of a demoted moderator's work. Rows are never removed; the
    index of a row in the sequence is its id. Each transaction is one step. */
module PostReviews {
  import opened Wrappers

  type UserId = nat
  type PostId = nat
  type ReviewId = nat
  type JobId = nat

  datatype PostStatus = DRAFT | PENDING_REVIEW | APPROVED | REJECTED | BLOCKED | ARCHIVED | COMPLETED

  datatype ReviewStatus = PENDING | PASSED | TURNED_DOWN

  datatype Review = Review(postId: PostId, reviewedById: UserId, status: ReviewStatus, reviewReason: Option<string>,
                           isActive: bool, roleChanged: bool)

  /** One row a reassignment has read: the review, its post, and the status of the post at that moment. */
  datatype Entry = Entry(id: ReviewId, postId: PostId, postStatus: PostStatus)

  datatype Lifecycle = Lifecycle(reviewStatus: ReviewStatus, reviewReason: Option<string>, postStatus: PostStatus,
                                 statusReason: Option<string>)

  datatype State = State(posts: map<PostId, PostStatus>, reviews: seq<Review>, jobs: map<JobId, seq<Entry>>)

  datatype Event =
    | Assign(postId: PostId, reviewerId: UserId)
    | Modify(postId: PostId, reviewerId: UserId, data: Lifecycle)
    /** A reassignment reads the demoted moderator's open work, and later replaces what it read. */
    | ReadDemoted(job: JobId, demotedId: UserId)
    | Replace(job: JobId, nextIds: seq<UserId>)

  // ---- Verdicts ----

  predicate NeedsReason(s: PostStatus) { s == REJECTED || s == BLOCKED }

  /** An empty reason is as good as none. */
  predicate Given(reason: Option<string>) { reason.Some? && reason.value != "" }

  function ResolvedReason(d: Lifecycle): Option<string> {
    if d.reviewReason.Some? then d.reviewReason else d.statusReason
  }

  predicate IsConsistent(d: Lifecycle) {
    && (NeedsReason(d.postStatus) ==> Given(d.statusReason))
    && (d.reviewStatus == TURNED_DOWN ==> NeedsReason(d.postStatus) && Given(ResolvedReason(d)))
    && (d.reviewStatus == PASSED ==> d.postStatus == APPROVED)
  }

  // ---- Rows ----

  function Suspended(rs: seq<Review>, postId: PostId): (r: seq<Review>)
    ensures |r| == |rs|
  {
    seq(|rs|, i requires 0 <= i < |rs| => if rs[i].postId == postId then rs[i].(isActive := false) else rs[i])
  }

  function Retired(rs: seq<Review>, ids: set<ReviewId>): (r: seq<Review>)
    ensures |r| == |rs|
  {
    seq(|rs|, i requires 0 <= i < |rs| => if i in ids then rs[i].(isActive := false) else rs[i])
  }

  predicate IsHeldUp(s: PostStatus) { s == PENDING_REVIEW || s == BLOCKED }

  predicate IsOpenWork(s: State, id: ReviewId, demotedId: UserId) {
    && id < |s.reviews| && s.reviews[id].reviewedById == demotedId && s.reviews[id].isActive
    && s.reviews[id].postId in s.posts && IsHeldUp(s.posts[s.reviews[id].postId])
  }

  /** The rows a reassignment finds among the first `n`. */
  function OpenWork(s: State, demotedId: UserId, n: nat): (r: seq<Entry>)
    requires n <= |s.reviews|
    ensures forall k :: 0 <= k < |r| ==>
              && r[k].id < n && IsOpenWork(s, r[k].id, demotedId) && r[k].postId == s.reviews[r[k].id].postId
              && r[k].postStatus == s.posts[r[k].postId]
    ensures forall k, l :: 0 <= k < l < |r| ==> r[k].id < r[l].id
  {
    if n == 0 then []
    else
      var before := OpenWork(s, demotedId, n - 1);
      if IsOpenWork(s, n - 1, demotedId) then
        before + [Entry(n - 1, s.reviews[n - 1].postId, s.posts[s.reviews[n - 1].postId])]
      else before
  }

  lemma {:induction false} OpenWorkComplete(s: State, demotedId: UserId, n: nat, id: ReviewId) returns (k: nat)
    requires id < n <= |s.reviews| && IsOpenWork(s, id, demotedId)
    ensures k < |OpenWork(s, demotedId, n)| && OpenWork(s, demotedId, n)[k].id == id
  {
    if id == n - 1 {
      k := |OpenWork(s, demotedId, n - 1)|;
    } else {
      k := OpenWorkComplete(s, demotedId, n - 1, id);
    }
  }

  function Assignment(e: Entry, nextId: UserId): Review {
    Review(e.postId, nextId, if e.postStatus == BLOCKED then TURNED_DOWN else PENDING,
           Some("Reassigned automatically because moderator role changed to USER"), true, true)
  }

  function Assignments(entries: seq<Entry>, nextIds: seq<UserId>): (r: seq<Review>)
    requires |nextIds| == |entries|
    ensures |r| == |entries|
  {
    seq(|entries|, k requires 0 <= k < |entries| => Assignment(entries[k], nextIds[k]))
  }

  function Ids(entries: seq<Entry>): (r: set<ReviewId>)
    ensures forall k :: 0 <= k < |entries| ==> entries[k].id in r
    ensures forall id :: id in r ==> exists k :: 0 <= k < |entries| && entries[k].id == id
  {
    set k | 0 <= k < |entries| :: entries[k].id
  }

  /** The rows after a replacement: what was read is retired, and one row is added for each. */
  function Replacement(rs: seq<Review>, entries: seq<Entry>, nextIds: seq<UserId>): (ts: seq<Review>)
    requires |nextIds| == |entries|
    ensures |ts| == |rs| + |entries|
    ensures forall i :: 0 <= i < |rs| ==> ts[i] == rs[i].(isActive := rs[i].isActive && i !in Ids(entries))
    ensures forall i :: |rs| <= i < |ts| ==> ts[i] == Assignment(entries[i - |rs|], nextIds[i - |rs|])
  {
    Retired(rs, Ids(entries)) + Assignments(entries, nextIds)
  }

  // ---- Steps ----

  predicate Enabled(s: State, e: Event) {
    match e
    case Assign(postId, _) => postId in s.posts
    case Modify(postId, _, data) =>
      postId in s.posts && IsConsistent(data) && exists i :: 0 <= i < |s.reviews| && s.reviews[i].postId == postId
    case ReadDemoted(job, _) => job !in s.jobs
    case Replace(job, nextIds) => job in s.jobs && |nextIds| == |s.jobs[job]|
  }

  function Apply(s: State, e: Event): State
    requires Enabled(s, e)
  {
    match e
    case Assign(postId, reviewerId) =>
      State(s.posts[postId := PENDING_REVIEW],
            Suspended(s.reviews, postId) + [Review(postId, reviewerId, PENDING, None, true, false)], s.jobs)
    case Modify(postId, reviewerId, data) =>
      State(s.posts[postId := data.postStatus],
            Suspended(s.reviews, postId)
            + [Review(postId, reviewerId, data.reviewStatus, ResolvedReason(data), true, false)], s.jobs)
    case ReadDemoted(job, demotedId) =>
      s.(jobs := s.jobs[job := OpenWork(s, demotedId, |s.reviews|)])
    case Replace(job, nextIds) =>
      State(s.posts, Replacement(s.reviews, s.jobs[job], nextIds), s.jobs - {job})
  }

  ghost predicate IsRun(states: seq<State>, events: seq<Event>) {
    && |states| == |events| + 1
    && states[0].reviews == [] && states[0].jobs == map[]
    && forall i :: 0 <= i < |events| ==> Enabled(states[i], events[i]) && states[i + 1] == Apply(states[i], events[i])
  }

  // ---- What every step keeps ----

  ghost predicate AtMostOneActive(rs: seq<Review>) {
    forall i, j :: 0 <= i < |rs| && 0 <= j < |rs| && rs[i].isActive && rs[j].isActive && rs[i].postId == rs[j].postId
                   ==> i == j
  }

  ghost predicate HasActive(rs: seq<Review>, postId: PostId) {
    exists j :: 0 <= j < |rs| && rs[j].isActive && rs[j].postId == postId
  }

  /** A post that was ever assigned has an active review. */
  ghost predicate OnceAssigned(rs: seq<Review>) {
    forall i :: 0 <= i < |rs| ==> HasActive(rs, rs[i].postId)
  }

  predicate Agrees(review: ReviewStatus, post: PostStatus) {
    (review == PASSED ==> post == APPROVED) && (review == TURNED_DOWN ==> NeedsReason(post))
  }

  /** The verdict in force agrees with the status of the post. */
  ghost predicate Coherent(s: State) {
    forall i :: 0 <= i < |s.reviews| ==>
      && s.reviews[i].postId in s.posts
      && (s.reviews[i].isActive ==> Agrees(s.reviews[i].status, s.posts[s.reviews[i].postId]))
  }

  /** What a reassignment has read stays true of each row that is still active. */
  ghost predicate EntriesOk(s: State, entries: seq<Entry>) {
    && (forall k :: 0 <= k < |entries| ==>
          && entries[k].id < |s.reviews| && s.reviews[entries[k].id].postId == entries[k].postId
          && entries[k].postId in s.posts && IsHeldUp(entries[k].postStatus)
          && (s.reviews[entries[k].id].isActive ==> s.posts[entries[k].postId] == entries[k].postStatus))
    && forall k, l :: 0 <= k < |entries| && 0 <= l < |entries| && entries[k].postId == entries[l].postId ==> k == l
  }

  ghost predicate Inv(s: State) {
    && AtMostOneActive(s.reviews) && OnceAssigned(s.reviews) && Coherent(s)
    && forall job :: job in s.jobs ==> EntriesOk(s, s.jobs[job])
  }

  predicate AllActive(rs: seq<Review>, entries: seq<Entry>) {
    forall k :: 0 <= k < |entries| ==> entries[k].id < |rs| && rs[entries[k].id].isActive
  }

  predicate AllStillActive(s: State, job: JobId)
    requires job in s.jobs
  {
    AllActive(s.reviews, s.jobs[job])
  }

  /** Nothing replaced a row between its read and its replacement. */
  predicate Timely(s: State, e: Event)
    requires Enabled(s, e)
  {
    e.Replace? ==> AllStillActive(s, e.job)
  }

  // ---- A new review in place of all earlier ones of its post ----

  lemma SuspendAndAdd(rs: seq<Review>, r: Review)
    requires AtMostOneActive(rs) && OnceAssigned(rs) && r.isActive
    ensures var ts := Suspended(rs, r.postId) + [r];
            AtMostOneActive(ts) && OnceAssigned(ts)
  {
    var ts := Suspended(rs, r.postId) + [r];
    forall i | 0 <= i < |ts| ensures HasActive(ts, ts[i].postId) {
      if ts[i].postId == r.postId {
        assert ts[|rs|].isActive;
      } else {
        assert HasActive(rs, rs[i].postId);
        var j :| 0 <= j < |rs| && rs[j].isActive && rs[j].postId == rs[i].postId;
        assert ts[j].isActive;
      }
    }
  }

  lemma VerdictInv(s: State, e: Event)
    requires Inv(s) && Enabled(s, e) && (e.Assign? || e.Modify?)
    ensures Inv(Apply(s, e))
  {
    var t := Apply(s, e);
    SuspendAndAdd(s.reviews, t.reviews[|s.reviews|]);
    forall job | job in t.jobs ensures EntriesOk(t, t.jobs[job]) {
    }
  }

  lemma ReadInv(s: State, e: Event)
    requires Inv(s) && Enabled(s, e) && e.ReadDemoted?
    ensures Inv(Apply(s, e)) && AllStillActive(Apply(s, e), e.job)
  {
    var t := Apply(s, e);
    forall job | job in t.jobs ensures EntriesOk(t, t.jobs[job]) {
      if job != e.job {
        assert EntriesOk(s, s.jobs[job]);
      }
    }
  }

  // ---- The replacement ----

  /** A row that stays active through a timely replacement is not of a post that gets a new one. */
  lemma TimelyOne(s: State, entries: seq<Entry>, nextIds: seq<UserId>, i: ReviewId, j: ReviewId)
    requires AtMostOneActive(s.reviews) && EntriesOk(s, entries) && AllActive(s.reviews, entries)
    requires |nextIds| == |entries| && i < |s.reviews| <= j < |s.reviews| + |entries|
    requires Replacement(s.reviews, entries, nextIds)[i].isActive
    ensures s.reviews[i].postId != entries[j - |s.reviews|].postId
  {
    var e := entries[j - |s.reviews|];
    assert e.id != i;
    assert s.reviews[e.id].isActive && s.reviews[e.id].postId == e.postId;
  }

  lemma TimelyPair(s: State, entries: seq<Entry>, nextIds: seq<UserId>, i: ReviewId, j: ReviewId)
    requires AtMostOneActive(s.reviews) && EntriesOk(s, entries) && AllActive(s.reviews, entries)
    requires |nextIds| == |entries|
    requires var ts := Replacement(s.reviews, entries, nextIds);
             i < j < |ts| && ts[i].isActive && ts[j].isActive
    ensures var ts := Replacement(s.reviews, entries, nextIds);
            ts[i].postId != ts[j].postId
  {
    var n := |s.reviews|;
    if i < n <= j {
      TimelyOne(s, entries, nextIds, i, j);
    } else if n <= i {
      assert entries[i - n].postId != entries[j - n].postId;
    } else {
      assert s.reviews[i].isActive && s.reviews[j].isActive;
    }
  }

  lemma TimelyAtMostOne(s: State, entries: seq<Entry>, nextIds: seq<UserId>)
    requires AtMostOneActive(s.reviews) && EntriesOk(s, entries) && AllActive(s.reviews, entries)
    requires |nextIds| == |entries|
    ensures AtMostOneActive(Replacement(s.reviews, entries, nextIds))
  {
    var ts := Replacement(s.reviews, entries, nextIds);
    forall i, j | 0 <= i < |ts| && 0 <= j < |ts| && ts[i].isActive && ts[j].isActive && ts[i].postId == ts[j].postId
      ensures i == j
    {
      if i < j {
        TimelyPair(s, entries, nextIds, i, j);
      } else if j < i {
        TimelyPair(s, entries, nextIds, j, i);
      }
    }
  }

  lemma ReplacedRowAssigned(s: State, entries: seq<Entry>, nextIds: seq<UserId>, j: ReviewId)
    requires EntriesOk(s, entries) && |nextIds| == |entries| && j < |s.reviews| && s.reviews[j].isActive
    ensures HasActive(Replacement(s.reviews, entries, nextIds), s.reviews[j].postId)
  {
    var ts := Replacement(s.reviews, entries, nextIds);
    if k :| 0 <= k < |entries| && entries[k].id == j {
      assert ts[|s.reviews| + k] == Assignment(entries[k], nextIds[k]);
    } else {
      assert j !in Ids(entries);
      assert ts[j] == s.reviews[j];
    }
  }

  lemma ReplacedAssigned(s: State, entries: seq<Entry>, nextIds: seq<UserId>)
    requires OnceAssigned(s.reviews) && EntriesOk(s, entries) && |nextIds| == |entries|
    ensures OnceAssigned(Replacement(s.reviews, entries, nextIds))
  {
    var n, ts := |s.reviews|, Replacement(s.reviews, entries, nextIds);
    forall i | 0 <= i < |ts| ensures HasActive(ts, ts[i].postId) {
      if i < n {
        assert HasActive(s.reviews, s.reviews[i].postId);
        var j :| 0 <= j < n && s.reviews[j].isActive && s.reviews[j].postId == s.reviews[i].postId;
        ReplacedRowAssigned(s, entries, nextIds, j);
      } else {
        assert ts[i].isActive;
      }
    }
  }

  lemma TimelyReplaceInv(s: State, e: Event)
    requires Inv(s) && Enabled(s, e) && e.Replace? && AllStillActive(s, e.job)
    ensures Inv(Apply(s, e))
  {
    var t, entries := Apply(s, e), s.jobs[e.job];
    assert EntriesOk(s, entries);
    TimelyAtMostOne(s, entries, e.nextIds);
    ReplacedAssigned(s, entries, e.nextIds);
    forall job | job in t.jobs ensures EntriesOk(t, t.jobs[job]) {
    }
  }

  lemma LateSurvivor(s: State, entries: seq<Entry>, k: nat) returns (j: nat)
    requires OnceAssigned(s.reviews) && EntriesOk(s, entries)
    requires k < |entries| && !s.reviews[entries[k].id].isActive
    ensures j < |s.reviews| && s.reviews[j].isActive && s.reviews[j].postId == entries[k].postId
    ensures j !in Ids(entries)
  {
    assert HasActive(s.reviews, s.reviews[entries[k].id].postId);
    j :| 0 <= j < |s.reviews| && s.reviews[j].isActive && s.reviews[j].postId == entries[k].postId;
    assert forall l :: 0 <= l < |entries| && entries[l].postId == entries[k].postId ==> entries[l].id != j;
  }

  /** A row replaced in the meantime means a second active review for its post. */
  lemma LateReplaceDoubles(s: State, entries: seq<Entry>, nextIds: seq<UserId>, k: nat)
    requires OnceAssigned(s.reviews) && EntriesOk(s, entries) && |nextIds| == |entries|
    requires k < |entries| && !s.reviews[entries[k].id].isActive
    ensures !AtMostOneActive(Replacement(s.reviews, entries, nextIds))
  {
    var n, ts := |s.reviews|, Replacement(s.reviews, entries, nextIds);
    var j := LateSurvivor(s, entries, k);
    assert ts[n + k] == Assignment(entries[k], nextIds[k]);
    assert ts[j].isActive && ts[n + k].isActive && ts[n + k].postId == ts[j].postId;
  }

  /** A reassignment keeps the review rules exactly when every row it read is still active when it replaces them. */
  lemma ReplaceKeepsExactly(s: State, e: Event)
    requires Inv(s) && Enabled(s, e) && e.Replace?
    ensures Inv(Apply(s, e)) <==> AllStillActive(s, e.job)
  {
    if AllStillActive(s, e.job) {
      TimelyReplaceInv(s, e);
    } else {
      var k :| 0 <= k < |s.jobs[e.job]| && !s.reviews[s.jobs[e.job][k].id].isActive;
      LateReplaceDoubles(s, s.jobs[e.job], e.nextIds, k);
    }
  }

  /** A verdict or assignment that comes between the read and the replacement of a post's review leaves the post with
      two active reviews. */
  lemma VerdictDuringHandOverDoubles(s: State, job: JobId, demotedId: UserId, e: Event, nextIds: seq<UserId>)
    requires Inv(s) && Enabled(s, ReadDemoted(job, demotedId)) && (e.Assign? || e.Modify?)
    requires |nextIds| == |OpenWork(s, demotedId, |s.reviews|)| && Enabled(Apply(s, ReadDemoted(job, demotedId)), e)
    requires exists k :: 0 <= k < |nextIds| && OpenWork(s, demotedId, |s.reviews|)[k].postId == e.postId
    ensures var u := Apply(Apply(s, ReadDemoted(job, demotedId)), e);
            Enabled(u, Replace(job, nextIds)) && !AtMostOneActive(Apply(u, Replace(job, nextIds)).reviews)
  {
    var t := Apply(s, ReadDemoted(job, demotedId));
    ReadInv(s, ReadDemoted(job, demotedId));
    VerdictInv(t, e);
    var u := Apply(t, e);
    var k :| 0 <= k < |nextIds| && t.jobs[job][k].postId == e.postId;
    assert EntriesOk(u, u.jobs[job]);
    LateReplaceDoubles(u, u.jobs[job], nextIds, k);
  }

  // ---- Whole runs ----

  lemma {:induction false} RunInv(states: seq<State>, events: seq<Event>, n: nat)
    requires IsRun(states, events) && n <= |events|
    requires forall i :: 0 <= i < n ==> Timely(states[i], events[i])
    ensures Inv(states[n])
  {
    if n > 0 {
      RunInv(states, events, n - 1);
      var s, e := states[n - 1], events[n - 1];
      assert Timely(s, e);
      match e {
        case Assign(_, _) => VerdictInv(s, e);
        case Modify(_, _, _) => VerdictInv(s, e);
        case ReadDemoted(_, _) => ReadInv(s, e);
        case Replace(_, _) => TimelyReplaceInv(s, e);
      }
    }
  }

  /** In every run of staff steps whose reassignments are timely, a post has at most one active review, exactly one once
      it was assigned, and the verdict in force agrees with the post's status. */
  lemma StaffStepsKeepReviews(states: seq<State>, events: seq<Event>, n: nat, postId: PostId)
    requires IsRun(states, events) && n <= |events|
    requires forall i :: 0 <= i < n ==> Timely(states[i], events[i])
    ensures var rs := states[n].reviews;
            && AtMostOneActive(rs)
            && (HasActive(rs, postId) <==> exists i :: 0 <= i < |rs| && rs[i].postId == postId)
            && (forall i :: 0 <= i < |rs| && rs[i].isActive ==>
                  && rs[i].postId in states[n].posts
                  && (rs[i].status == PASSED ==> states[n].posts[rs[i].postId] == APPROVED)
                  && (rs[i].status == TURNED_DOWN ==> states[n].posts[rs[i].postId] in {REJECTED, BLOCKED}))
  {
    RunInv(states, events, n);
    var rs := states[n].reviews;
    if i :| 0 <= i < |rs| && rs[i].postId == postId {
      assert HasActive(rs, rs[i].postId);
    }
  }

  // ---- The review in force ----

  /** An active review is the newest of its post. */
  ghost predicate ActiveIsNewest(rs: seq<Review>) {
    forall i, j :: 0 <= i < j < |rs| && rs[i].isActive ==> rs[i].postId != rs[j].postId
  }

  lemma ReplacedNewest(s: State, entries: seq<Entry>, nextIds: seq<UserId>, i: ReviewId, j: ReviewId)
    requires AtMostOneActive(s.reviews) && EntriesOk(s, entries) && AllActive(s.reviews, entries)
    requires ActiveIsNewest(s.reviews) && |nextIds| == |entries|
    requires var ts := Replacement(s.reviews, entries, nextIds);
             i < j < |ts| && ts[i].isActive
    ensures var ts := Replacement(s.reviews, entries, nextIds);
            ts[i].postId != ts[j].postId
  {
    var n := |s.reviews|;
    if i < n <= j {
      TimelyOne(s, entries, nextIds, i, j);
    } else if n <= i {
      assert entries[i - n].postId != entries[j - n].postId;
    } else {
      assert s.reviews[i].isActive;
    }
  }

  lemma NewestStep(s: State, e: Event)
    requires Inv(s) && ActiveIsNewest(s.reviews) && Enabled(s, e) && Timely(s, e)
    ensures ActiveIsNewest(Apply(s, e).reviews)
  {
    if e.Replace? {
      assert EntriesOk(s, s.jobs[e.job]);
      var ts := Apply(s, e).reviews;
      forall i, j | 0 <= i < j < |ts| && ts[i].isActive ensures ts[i].postId != ts[j].postId {
        ReplacedNewest(s, s.jobs[e.job], e.nextIds, i, j);
      }
    }
  }

  /** In such runs the review in force is always the last one written for its post. */
  lemma {:induction false} InForceIsNewest(states: seq<State>, events: seq<Event>, n: nat)
    requires IsRun(states, events) && n <= |events|
    requires forall i :: 0 <= i < n ==> Timely(states[i], events[i])
    ensures ActiveIsNewest(states[n].reviews)
  {
    if n > 0 {
      InForceIsNewest(states, events, n - 1);
      RunInv(states, events, n - 1);
      NewestStep(states[n - 1], events[n - 1]);
    }
  }

  lemma RowsSurviveStep(s: State, e: Event, id: ReviewId)
    requires Enabled(s, e) && id < |s.reviews|
    ensures var t := Apply(s, e);
            && id < |t.reviews| && t.reviews[id].(isActive := false) == s.reviews[id].(isActive := false)
            && (t.reviews[id].isActive ==> s.reviews[id].isActive)
  {
  }

  /** History is append-only: a row keeps its post, reviewer, verdict and reason for ever, and is never made active
      again. */
  lemma {:induction false} RowsSurvive(states: seq<State>, events: seq<Event>, m: nat, n: nat, id: ReviewId)
    requires IsRun(states, events) && m <= n <= |events| && id < |states[m].reviews|
    ensures id < |states[n].reviews|
    ensures states[n].reviews[id].(isActive := false) == states[m].reviews[id].(isActive := false)
    ensures states[n].reviews[id].isActive ==> states[m].reviews[id].isActive
    decreases n
  {
    if m < n {
      RowsSurvive(states, events, m, n - 1, id);
      RowsSurviveStep(states[n - 1], events[n - 1], id);
    }
  }

  // ---- A reassignment with nothing in between ----

  function Reassigned(s: State, demotedId: UserId, nextIds: seq<UserId>): State
    requires |nextIds| == |OpenWork(s, demotedId, |s.reviews|)|
  {
    var entries := OpenWork(s, demotedId, |s.reviews|);
    s.(reviews := Replacement(s.reviews, entries, nextIds))
  }

  /** It is the two steps of the protocol, one right after the other. */
  lemma ReassignedIsReadThenReplace(s: State, demotedId: UserId, nextIds: seq<UserId>, job: JobId)
    requires Inv(s) && job !in s.jobs && |nextIds| == |OpenWork(s, demotedId, |s.reviews|)|
    ensures Enabled(s, ReadDemoted(job, demotedId))
    ensures Enabled(Apply(s, ReadDemoted(job, demotedId)), Replace(job, nextIds))
    ensures Apply(Apply(s, ReadDemoted(job, demotedId)), Replace(job, nextIds)) == Reassigned(s, demotedId, nextIds)
    ensures Inv(Reassigned(s, demotedId, nextIds))
  {
    var e := ReadDemoted(job, demotedId);
    ReadInv(s, e);
    var mid := Apply(s, e);
    assert mid.jobs - {job} == s.jobs;
    TimelyReplaceInv(mid, Replace(job, nextIds));
  }

  /** Afterwards the demoted moderator holds no active review on a post that is pending or blocked, no post has changed
      status, and of the earlier rows exactly the ones handed over have become inactive. */
  lemma NothingLeftBehind(s: State, demotedId: UserId, nextIds: seq<UserId>)
    requires Inv(s) && |nextIds| == |OpenWork(s, demotedId, |s.reviews|)| && demotedId !in nextIds
    ensures var t := Reassigned(s, demotedId, nextIds);
            && t.posts == s.posts && |t.reviews| >= |s.reviews|
            && (forall id: nat :: !IsOpenWork(t, id, demotedId))
            && (forall id: nat :: id < |s.reviews| ==>
                  t.reviews[id] == s.reviews[id].(isActive := s.reviews[id].isActive && !IsOpenWork(s, id, demotedId)))
  {
    var entries, t, n := OpenWork(s, demotedId, |s.reviews|), Reassigned(s, demotedId, nextIds), |s.reviews|;
    forall id: nat | id < n ensures id in Ids(entries) <==> IsOpenWork(s, id, demotedId) {
      if IsOpenWork(s, id, demotedId) {
        var k := OpenWorkComplete(s, demotedId, n, id);
        assert entries[k].id == id;
      }
    }
    forall id: nat ensures !IsOpenWork(t, id, demotedId) {
      if n <= id < |t.reviews| {
        assert nextIds[id - n] in nextIds;
      }
    }
  }

  /** Row `j` is new, active, of this post, and the only such row. */
  ghost predicate OnlySuccessor(ts: seq<Review>, before: nat, postId: PostId, j: nat) {
    && before <= j < |ts| && ts[j].isActive && ts[j].postId == postId
    && forall l :: before <= l < |ts| && ts[l].postId == postId ==> l == j
  }

  lemma SuccessorOf(rs: seq<Review>, entries: seq<Entry>, nextIds: seq<UserId>, k: nat)
    requires |nextIds| == |entries| && k < |entries|
    requires forall l :: 0 <= l < |entries| && entries[l].postId == entries[k].postId ==> l == k
    ensures OnlySuccessor(Replacement(rs, entries, nextIds), |rs|, entries[k].postId, |rs| + k)
    ensures Replacement(rs, entries, nextIds)[|rs| + k] == Assignment(entries[k], nextIds[k])
  {
    var ts := Replacement(rs, entries, nextIds);
    forall l | |rs| <= l < |ts| && ts[l].postId == entries[k].postId ensures l == |rs| + k {
      assert entries[l - |rs|].postId == entries[k].postId;
    }
  }

  /** Two reviews handed over are of different posts. */
  lemma EntriesDistinct(s: State, demotedId: UserId, k: nat)
    requires AtMostOneActive(s.reviews) && k < |OpenWork(s, demotedId, |s.reviews|)|
    ensures var entries := OpenWork(s, demotedId, |s.reviews|);
            forall l :: 0 <= l < |entries| && entries[l].postId == entries[k].postId ==> l == k
  {
    var entries := OpenWork(s, demotedId, |s.reviews|);
    forall l | 0 <= l < |entries| && entries[l].postId == entries[k].postId ensures l == k {
      assert IsOpenWork(s, entries[k].id, demotedId) && IsOpenWork(s, entries[l].id, demotedId);
      assert entries[k].id == entries[l].id;
    }
  }

  /** Row `j` takes over this post for one of the chosen moderators: rejected if the post is blocked, else pending. */
  ghost predicate TakesOver(s: State, t: State, nextIds: seq<UserId>, postId: PostId, j: nat) {
    && OnlySuccessor(t.reviews, |s.reviews|, postId, j)
    && t.reviews[j].reviewedById in nextIds
    && postId in s.posts
    && t.reviews[j].status == if s.posts[postId] == BLOCKED then TURNED_DOWN else PENDING
  }

  lemma EntrySucceeded(s: State, demotedId: UserId, nextIds: seq<UserId>, k: nat)
    requires AtMostOneActive(s.reviews) && |nextIds| == |OpenWork(s, demotedId, |s.reviews|)| && k < |nextIds|
    ensures TakesOver(s, Reassigned(s, demotedId, nextIds), nextIds, OpenWork(s, demotedId, |s.reviews|)[k].postId,
                      |s.reviews| + k)
  {
    EntriesDistinct(s, demotedId, k);
    SuccessorOf(s.reviews, OpenWork(s, demotedId, |s.reviews|), nextIds, k);
    assert nextIds[k] in nextIds;
  }

  lemma EntryOf(s: State, demotedId: UserId, id: ReviewId) returns (k: nat)
    requires IsOpenWork(s, id, demotedId)
    ensures k < |OpenWork(s, demotedId, |s.reviews|)|
    ensures OpenWork(s, demotedId, |s.reviews|)[k].postId == s.reviews[id].postId
  {
    k := OpenWorkComplete(s, demotedId, |s.reviews|, id);
  }

  /** Each review handed over has one successor, for the same post and by one of the chosen moderators. */
  lemma OneForOne(s: State, demotedId: UserId, nextIds: seq<UserId>, id: ReviewId) returns (j: nat)
    requires AtMostOneActive(s.reviews) && |nextIds| == |OpenWork(s, demotedId, |s.reviews|)|
    requires IsOpenWork(s, id, demotedId)
    ensures TakesOver(s, Reassigned(s, demotedId, nextIds), nextIds, s.reviews[id].postId, j)
  {
    var k := EntryOf(s, demotedId, id);
    EntrySucceeded(s, demotedId, nextIds, k);
    j := |s.reviews| + k;
  }

  /** Held by the demoted moderator, active, and of a post that is pending or blocked. */
  ghost predicate WasOpen(posts: map<PostId, PostStatus>, r: Review, demotedId: UserId) {
    r.reviewedById == demotedId && r.isActive && r.postId in posts && posts[r.postId] in {PENDING_REVIEW, BLOCKED}
  }

  /** Exactly the open rows of the demoted moderator are retired; every row added is for one of their posts, rejected
      if the post is blocked and else pending, with the reason of the hand-over. */
  ghost predicate HandedOver(posts: map<PostId, PostStatus>, before: seq<Review>, after: seq<Review>, demotedId: UserId) {
    && |before| <= |after|
    && (forall i :: 0 <= i < |before| ==>
          after[i] == before[i].(isActive := before[i].isActive && !WasOpen(posts, before[i], demotedId)))
    && (forall j :: |before| <= j < |after| ==> Successor(posts, before, after[j], demotedId))
  }

  lemma OpenRowsRetired(s: State, demotedId: UserId, nextIds: seq<UserId>, i: ReviewId)
    requires |nextIds| == |OpenWork(s, demotedId, |s.reviews|)| && i < |s.reviews|
    ensures Reassigned(s, demotedId, nextIds).reviews[i]
            == s.reviews[i].(isActive := s.reviews[i].isActive && !WasOpen(s.posts, s.reviews[i], demotedId))
  {
    if IsOpenWork(s, i, demotedId) {
      var k := OpenWorkComplete(s, demotedId, |s.reviews|, i);
    }
  }

  ghost predicate Successor(posts: map<PostId, PostStatus>, before: seq<Review>, r: Review, demotedId: UserId) {
    && r.isActive && r.roleChanged && r.reviewedById != demotedId
    && r.reviewReason == Some("Reassigned automatically because moderator role changed to USER")
    && r.postId in posts && r.status == (if posts[r.postId] == BLOCKED then TURNED_DOWN else PENDING)
    && exists i :: 0 <= i < |before| && WasOpen(posts, before[i], demotedId) && before[i].postId == r.postId
  }

  lemma AddedRowSucceeds(s: State, demotedId: UserId, nextIds: seq<UserId>, k: nat)
    requires |nextIds| == |OpenWork(s, demotedId, |s.reviews|)| && demotedId !in nextIds && k < |nextIds|
    ensures Successor(s.posts, s.reviews, Assignment(OpenWork(s, demotedId, |s.reviews|)[k], nextIds[k]), demotedId)
  {
    var e := OpenWork(s, demotedId, |s.reviews|)[k];
    assert IsOpenWork(s, e.id, demotedId) && WasOpen(s.posts, s.reviews[e.id], demotedId);
  }

  lemma ReassignedHandsOver(s: State, demotedId: UserId, nextIds: seq<UserId>)
    requires |nextIds| == |OpenWork(s, demotedId, |s.reviews|)| && demotedId !in nextIds
    ensures HandedOver(s.posts, s.reviews, Reassigned(s, demotedId, nextIds).reviews, demotedId)
  {
    var after := Reassigned(s, demotedId, nextIds).reviews;
    forall i | 0 <= i < |s.reviews|
      ensures after[i] == s.reviews[i].(isActive := s.reviews[i].isActive && !WasOpen(s.posts, s.reviews[i], demotedId))
    {
      OpenRowsRetired(s, demotedId, nextIds, i);
    }
    forall j | |s.reviews| <= j < |after| ensures Successor(s.posts, s.reviews, after[j], demotedId) {
      AddedRowSucceeds(s, demotedId, nextIds, j - |s.reviews|);
    }
  }

  // ---- What an assignment or a verdict leaves ----

  /** The step adds a review of this post, or retires this row. */
  ghost predicate Concerns(s: State, e: Event, postId: PostId, row: ReviewId) {
    match e
    case Assign(p, _) => p == postId
    case Modify(p, _, _) => p == postId
    case ReadDemoted(_, _) => false
    case Replace(job, _) =>
      && job in s.jobs
      && exists k :: 0 <= k < |s.jobs[job]| && (s.jobs[job][k].id == row || s.jobs[job][k].postId == postId)
  }

  /** The post has this status, this row is its only active review, and reads so. */
  ghost predicate InForce(s: State, row: ReviewId, review: Review, status: PostStatus) {
    && review.postId in s.posts && s.posts[review.postId] == status
    && row < |s.reviews| && s.reviews[row] == review && review.isActive
    && forall i :: 0 <= i < |s.reviews| && s.reviews[i].isActive && s.reviews[i].postId == review.postId ==> i == row
  }

  lemma OthersReplaced(rs: seq<Review>, entries: seq<Entry>, nextIds: seq<UserId>, row: ReviewId, postId: PostId)
    requires |nextIds| == |entries| && row < |rs|
    requires forall k :: 0 <= k < |entries| ==> entries[k].id != row && entries[k].postId != postId
    ensures var ts := Replacement(rs, entries, nextIds);
            && ts[row] == rs[row]
            && forall i :: 0 <= i < |ts| && ts[i].postId == postId ==>
                 i < |rs| && rs[i].postId == postId && (ts[i].isActive ==> rs[i].isActive)
  {
    var ts := Replacement(rs, entries, nextIds);
    forall i | |rs| <= i < |ts| ensures ts[i].postId != postId {
      assert ts[i] == Assignment(entries[i - |rs|], nextIds[i - |rs|]);
    }
    assert row !in Ids(entries);
  }

  lemma InForceStep(s: State, e: Event, row: ReviewId, review: Review, status: PostStatus)
    requires Enabled(s, e) && InForce(s, row, review, status) && !Concerns(s, e, review.postId, row)
    ensures InForce(Apply(s, e), row, review, status)
  {
    if e.Replace? {
      OthersReplaced(s.reviews, s.jobs[e.job], e.nextIds, row, review.postId);
    }
  }

  lemma {:induction false} InForceUntil(states: seq<State>, events: seq<Event>, k: nat, n: nat, row: ReviewId,
                                        review: Review, status: PostStatus)
    requires IsRun(states, events) && k <= n <= |events| && InForce(states[k], row, review, status)
    requires forall i :: k <= i < n ==> !Concerns(states[i], events[i], review.postId, row)
    ensures InForce(states[n], row, review, status)
    decreases n
  {
    if k < n {
      InForceUntil(states, events, k, n - 1, row, review, status);
      InForceStep(states[n - 1], events[n - 1], row, review, status);
    }
  }

  /** In every run: from a verdict on, until a step concerns the post again, the only active review of the post is the
      judging user's, with the verdict and the reason given, and the post has the status given. */
  lemma VerdictStands(states: seq<State>, events: seq<Event>, k: nat, n: nat)
    requires IsRun(states, events) && k < n <= |events| && events[k].Modify?
    requires forall i :: k < i < n ==>
               !Concerns(states[i], events[i], events[k].postId, |states[k].reviews|)
    ensures var e := events[k];
            var reason := if e.data.reviewReason.Some? then e.data.reviewReason else e.data.statusReason;
            InForce(states[n], |states[k].reviews|,
                    Review(e.postId, e.reviewerId, e.data.reviewStatus, reason, true, false), e.data.postStatus)
  {
    var e := events[k];
    var reason := if e.data.reviewReason.Some? then e.data.reviewReason else e.data.statusReason;
    assert states[k + 1] == Apply(states[k], e);
    InForceUntil(states, events, k + 1, n, |states[k].reviews|,
                 Review(e.postId, e.reviewerId, e.data.reviewStatus, reason, true, false), e.data.postStatus);
  }

  /** From an assignment on likewise: a pending review of the reviewer chosen, for a post that is pending review. */
  lemma AssignmentStands(states: seq<State>, events: seq<Event>, k: nat, n: nat)
    requires IsRun(states, events) && k < n <= |events| && events[k].Assign?
    requires forall i :: k < i < n ==>
               !Concerns(states[i], events[i], events[k].postId, |states[k].reviews|)
    ensures InForce(states[n], |states[k].reviews|,
                    Review(events[k].postId, events[k].reviewerId, PENDING, None, true, false), PENDING_REVIEW)
  {
    assert states[k + 1] == Apply(states[k], events[k]);
    InForceUntil(states, events, k + 1, n, |states[k].reviews|,
                 Review(events[k].postId, events[k].reviewerId, PENDING, None, true, false), PENDING_REVIEW);
  }

  // ---- The services ----

  datatype ReviewError =
    | NoReviewers
    | NoModerators
    | StatusReasonRequired
    | PostStatusMustReject
    | ReviewReasonRequired
    | PostStatusMustApprove
    | NotAssigned

  const REASSIGNMENT_BATCH_SIZE := 250

  /** One row is added, and its post has no other active one; all other rows are as they were. */
  ghost predicate Recorded(before: seq<Review>, after: seq<Review>, review: Review) {
    && |after| == |before| + 1 && after[|before|] == review
    && forall i :: 0 <= i < |before| ==>
         after[i] == before[i].(isActive := before[i].isActive && before[i].postId != review.postId)
  }

  class PostsReviewService {
    var posts: map<PostId, PostStatus>
    var reviews: seq<Review>

    /** The state without the reassignments under way elsewhere. */
    ghost function Abstract(): State reads this { State(posts, reviews, map[]) }

    constructor (statuses: map<PostId, PostStatus>)
      ensures Abstract() == State(statuses, [], map[]) && Inv(Abstract())
    {
      posts, reviews := statuses, [];
    }

    method SuspendPreviousReview(postId: PostId)
      modifies `reviews
      ensures reviews == Suspended(old(reviews), postId)
    {
      var i := 0;
      while i < |reviews|
        invariant 0 <= i <= |reviews| == |old(reviews)|
        invariant forall j :: 0 <= j < i ==> reviews[j] == Suspended(old(reviews), postId)[j]
        invariant forall j :: i <= j < |reviews| ==> reviews[j] == old(reviews)[j]
      {
        if reviews[i].postId == postId {
          reviews := reviews[i := reviews[i].(isActive := false)];
        }
        i := i + 1;
      }
    }

    /** `picked` stands for the random choice from the moderators. */
    method AssignReviewer(postId: PostId, moderators: seq<UserId>, picked: nat) returns (r: Result<(), ReviewError>)
      requires Inv(Abstract()) && postId in posts && (moderators != [] ==> picked < |moderators|)
      modifies this
      ensures Inv(Abstract())
      ensures r == if moderators == [] then Failure(NoReviewers) else Success(())
      ensures r.Failure? ==> posts == old(posts) && reviews == old(reviews)
      ensures r.Success? ==>
                && posts == old(posts)[postId := PENDING_REVIEW]
                && Recorded(old(reviews), reviews, Review(postId, moderators[picked], PENDING, None, true, false))
      ensures r.Success? ==> Abstract() == Apply(old(Abstract()), Event.Assign(postId, moderators[picked]))
    {
      if |moderators| == 0 {
        return Failure(NoReviewers);
      }
      var reviewerId := moderators[picked];
      VerdictInv(Abstract(), Event.Assign(postId, reviewerId));
      SuspendPreviousReview(postId);
      reviews := reviews + [Review(postId, reviewerId, PENDING, None, true, false)];
      posts := posts[postId := PENDING_REVIEW];
      return Success(());
    }

    /** The active review of a post, if there is one. */
    method FindActiveByPost(postId: PostId) returns (id: Option<ReviewId>)
      ensures id.None? <==> !HasActive(reviews, postId)
      ensures id.Some? ==> id.value < |reviews| && reviews[id.value].isActive && reviews[id.value].postId == postId
    {
      var i := 0;
      while i < |reviews|
        invariant 0 <= i <= |reviews|
        invariant forall j :: 0 <= j < i ==> !(reviews[j].isActive && reviews[j].postId == postId)
      {
        if reviews[i].isActive && reviews[i].postId == postId {
          return Some(i);
        }
        i := i + 1;
      }
      return None;
    }

    /** What a verdict must give: the first thing missing, if any. */
    method Validate(data: Lifecycle) returns (error: Option<ReviewError>)
      ensures error.None? <==> IsConsistent(data)
      ensures error.None? <==>
              && (data.postStatus in {REJECTED, BLOCKED} ==> data.statusReason != None && data.statusReason != Some(""))
              && (data.reviewStatus == TURNED_DOWN ==>
                    data.postStatus in {REJECTED, BLOCKED} && data.reviewReason != Some(""))
              && (data.reviewStatus == PASSED ==> data.postStatus == APPROVED)
      ensures data.postStatus in {REJECTED, BLOCKED} && (data.statusReason == None || data.statusReason == Some("")) ==>
                error == Some(StatusReasonRequired)
      ensures data.reviewStatus == TURNED_DOWN && data.postStatus !in {REJECTED, BLOCKED} ==>
                error == Some(PostStatusMustReject)
      ensures data.reviewStatus == PASSED && data.postStatus !in {REJECTED, BLOCKED, APPROVED} ==>
                error == Some(PostStatusMustApprove)
      ensures error != Some(NotAssigned)
    {
      if NeedsReason(data.postStatus) && !Given(data.statusReason) {
        return Some(StatusReasonRequired);
      }
      if data.reviewStatus == TURNED_DOWN {
        if !NeedsReason(data.postStatus) {
          return Some(PostStatusMustReject);
        }
        if !Given(ResolvedReason(data)) {
          return Some(ReviewReasonRequired);
        }
      }
      if data.reviewStatus == PASSED && data.postStatus != APPROVED {
        return Some(PostStatusMustApprove);
      }
      return None;
    }

    method ModifyPostReviewStatus(postId: PostId, userId: UserId, isAdmin: bool, data: Lifecycle)
      returns (r: Result<(), ReviewError>)
      requires Inv(Abstract())
      modifies this
      ensures Inv(Abstract())
      ensures r.Success? <==>
              && IsConsistent(data)
              && exists i :: 0 <= i < |old(reviews)| && old(reviews)[i].isActive && old(reviews)[i].postId == postId
                             && (isAdmin || old(reviews)[i].reviewedById == userId)
      ensures r.Failure? ==> Abstract() == old(Abstract())
      ensures data.postStatus in {REJECTED, BLOCKED} && (data.statusReason == None || data.statusReason == Some("")) ==>
                r == Failure(StatusReasonRequired)
      ensures data.reviewStatus == TURNED_DOWN && data.postStatus !in {REJECTED, BLOCKED} ==>
                r == Failure(PostStatusMustReject)
      ensures data.reviewStatus == PASSED && data.postStatus !in {REJECTED, BLOCKED, APPROVED} ==>
                r == Failure(PostStatusMustApprove)
      ensures IsConsistent(data) && r.Failure? ==> r == Failure(NotAssigned)
      ensures r.Success? ==>
                && posts == old(posts)[postId := data.postStatus]
                && Recorded(old(reviews), reviews,
                            Review(postId, userId, data.reviewStatus,
                                   if data.reviewReason.Some? then data.reviewReason else data.statusReason, true, false))
      ensures r.Success? ==> Enabled(old(Abstract()), Event.Modify(postId, userId, data))
                             && Abstract() == Apply(old(Abstract()), Event.Modify(postId, userId, data))
    {
      var error := Validate(data);
      if error.Some? {
        return Failure(error.value);
      }
      var activeReview := FindActiveByPost(postId);
      if activeReview.None? {
        return Failure(NotAssigned);
      }
      if !isAdmin && reviews[activeReview.value].reviewedById != userId {
        return Failure(NotAssigned);
      }
      VerdictInv(Abstract(), Event.Modify(postId, userId, data));
      SuspendPreviousReview(postId);
      reviews := reviews + [Review(postId, userId, data.reviewStatus, ResolvedReason(data), true, false)];
      posts := posts[postId := data.postStatus];
      return Success(());
    }

    /** Inserts the assignments 250 at a time; each is inserted once and in order. */
    method CreateInBatches(assignments: seq<Review>)
      modifies `reviews
      ensures reviews == old(reviews) + assignments
    {
      var i := 0;
      while i < |assignments|
        invariant 0 <= i
        invariant reviews == old(reviews) + if i < |assignments| then assignments[..i] else assignments
      {
        var end := if i + REASSIGNMENT_BATCH_SIZE < |assignments| then i + REASSIGNMENT_BATCH_SIZE else |assignments|;
        var chunk := assignments[i..end];
        assert assignments[..i] + chunk == assignments[..end];
        reviews := reviews + chunk;
        i := i + REASSIGNMENT_BATCH_SIZE;
      }
    }

    /** A moderator picked at random for each review. */
    method PickModerators(moderators: seq<UserId>, count: nat) returns (nextIds: seq<UserId>)
      requires moderators != []
      ensures |nextIds| == count && forall m :: m in nextIds ==> m in moderators
    {
      nextIds := [];
      while |nextIds| < count
        invariant |nextIds| <= count && forall m :: m in nextIds ==> m in moderators
      {
        var randomIndex :| 0 <= randomIndex < |moderators|;
        nextIds := nextIds + [moderators[randomIndex]];
      }
    }

    /** Hands every review the demoted moderator still holds on a pending or blocked post to another moderator. */
    method ReassignPostsFromDemotedModerator(demotedId: UserId, allModerators: seq<UserId>)
      returns (r: Result<nat, ReviewError>, ghost nextIds: seq<UserId>)
      requires Inv(Abstract())
      modifies this
      ensures Inv(Abstract())
      ensures r.Failure? <==> forall m :: m in allModerators ==> m == demotedId
      ensures r.Failure? ==> r == Failure(NoModerators) && Abstract() == old(Abstract())
      ensures r.Success? ==>
                && |nextIds| == |OpenWork(old(Abstract()), demotedId, |old(reviews)|)| == r.value
                && (forall m :: m in nextIds ==> m in allModerators && m != demotedId)
                && Abstract() == Reassigned(old(Abstract()), demotedId, nextIds)
      ensures posts == old(posts) && |reviews| >= |old(reviews)|
      ensures r.Success? ==> HandedOver(old(posts), old(reviews), reviews, demotedId)
    {
      var moderators := OtherThan(allModerators, demotedId);
      if |moderators| == 0 {
        return Failure(NoModerators), [];
      }
      assert moderators[0] in moderators;
      var count: nat;
      count, nextIds := ReassignTo(demotedId, moderators);
      ReassignedHandsOver(old(Abstract()), demotedId, nextIds);
      return Success(count), nextIds;
    }

    method ReassignTo(demotedId: UserId, moderators: seq<UserId>) returns (count: nat, ghost nextIds: seq<UserId>)
      requires Inv(Abstract()) && moderators != []
      modifies this
      ensures Inv(Abstract())
      ensures |nextIds| == |OpenWork(old(Abstract()), demotedId, |old(reviews)|)| == count
      ensures forall m :: m in nextIds ==> m in moderators
      ensures Abstract() == Reassigned(old(Abstract()), demotedId, nextIds)
    {
      ghost var s := Abstract();
      var reviewsToReassign := OpenWork(State(posts, reviews, map[]), demotedId, |reviews|);
      count := |reviewsToReassign|;
      var picked := PickModerators(moderators, count);
      nextIds := picked;
      ReassignedKeeps(s, demotedId, nextIds);
      if count != 0 {
        RetireAndInsert(reviewsToReassign, picked);
      }
    }

    method RetireAndInsert(entries: seq<Entry>, nextIds: seq<UserId>)
      requires |nextIds| == |entries|
      modifies `reviews
      ensures reviews == Replacement(old(reviews), entries, nextIds)
    {
      reviews := Retired(reviews, Ids(entries));
      CreateInBatches(Assignments(entries, nextIds));
    }
  }

  lemma ReassignedKeeps(s: State, demotedId: UserId, nextIds: seq<UserId>)
    requires Inv(s) && s.jobs == map[] && |nextIds| == |OpenWork(s, demotedId, |s.reviews|)|
    ensures Inv(Reassigned(s, demotedId, nextIds))
    ensures nextIds == [] ==> Reassigned(s, demotedId, nextIds) == s
  {
    ReassignedIsReadThenReplace(s, demotedId, nextIds, 0);
    if nextIds == [] {
      assert Replacement(s.reviews, [], []) == s.reviews;
    }
  }

  function OtherThan(users: seq<UserId>, id: UserId): (r: seq<UserId>)
    ensures forall u :: u in r <==> u in users && u != id
  {
    if users == [] then []
    else if users[0] == id then OtherThan(users[1..], id)
    else [users[0]] + OtherThan(users[1..], id)
  }
}
