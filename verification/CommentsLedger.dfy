/** Comment rows, and the counter each post keeps of its published comments. Every repository call is one
    transaction. */
module CommentsLedger {
  import opened Wrappers

  type CommentId = nat
  type PostId = nat

  datatype Status = PENDING | PROCESSING | APPROVED | REJECTED | FAILED | DELETED

  datatype ModeratorType = LOCAL | AGENT

  datatype Comment = Comment(
    postId: PostId, status: Status, moderatorType: Option<ModeratorType>, moderationReason: Option<string>,
    moderatedAt: Option<nat>)

  datatype State = State(comments: map<CommentId, Comment>, totals: map<PostId, int>)

  datatype Op =
    | Create(id: CommentId, postId: PostId)
    | Update(id: CommentId)
    | SetProcessing(id: CommentId)
    | SetProcessingIfFailed(id: CommentId)
    | Approve(id: CommentId, at: nat)
    | Reject(id: CommentId, reason: string, at: nat)
    | MarkUnavailable(id: CommentId, reason: string, at: nat)
    | Delete(id: CommentId)
    | HardDeleteMany(ids: set<CommentId>)

  predicate IsCounted(c: Comment) {
    c.status == APPROVED && c.moderatorType == Some(AGENT) && c.moderatedAt.Some? && c.moderationReason.None?
  }

  function CountedOn(s: State, postId: PostId): set<CommentId> {
    set id | id in s.comments && s.comments[id].postId == postId && IsCounted(s.comments[id])
  }

  function Put(s: State, id: CommentId, c: Comment): State {
    s.(comments := s.comments[id := c])
  }

  function Bump(s: State, postId: PostId, delta: int): State {
    if postId in s.totals then s.(totals := s.totals[postId := s.totals[postId] + delta]) else s
  }

  function TotalsWithout(s: State, ids: set<CommentId>): map<PostId, int> {
    map p | p in s.totals :: s.totals[p] - |CountedOn(s, p) * ids|
  }

  /** What one repository call leaves behind. A call on a missing row changes nothing. */
  function Step(s: State, op: Op): State {
    match op
    case Create(id, postId) =>
      if id in s.comments || postId !in s.totals then s else Put(s, id, Comment(postId, PENDING, None, None, None))
    case HardDeleteMany(ids) =>
      State(s.comments - ids, TotalsWithout(s, ids))
    case _ =>
      if op.id !in s.comments then s else RowStep(s, op, s.comments[op.id])
  }

  function RowStep(s: State, op: Op, c: Comment): State
    requires !op.Create? && !op.HardDeleteMany?
  {
    match op
    case Update(id) => Put(s, id, c.(status := PENDING))
    case SetProcessing(id) => Put(s, id, c.(status := PROCESSING))
    case SetProcessingIfFailed(id) => if c.status == FAILED then Put(s, id, c.(status := PROCESSING)) else s
    case Approve(id, at) =>
      if c.status == DELETED || c.status == REJECTED then s
      else
        var t := Put(s, id, c.(status := APPROVED, moderationReason := None, moderatedAt := Some(at),
                               moderatorType := Some(AGENT)));
        if IsCounted(c) then t else Bump(t, c.postId, 1)
    case Reject(id, reason, at) =>
      var t := Put(s, id, c.(status := REJECTED, moderationReason := Some(reason), moderatedAt := Some(at),
                             moderatorType := Some(AGENT)));
      if IsCounted(c) then Bump(t, c.postId, -1) else t
    case MarkUnavailable(id, reason, at) =>
      Put(s, id, c.(status := FAILED, moderationReason := Some(reason), moderatorType := Some(LOCAL),
                    moderatedAt := Some(at)))
    case Delete(id) =>
      var t := Put(s, id, c.(status := DELETED));
      if IsCounted(c) then Bump(t, c.postId, -1) else t
  }

  // ---- The ledger ----

  /** The three calls that rewrite a status without looking at the counter. */
  predicate Unaccounted(op: Op) { op.Update? || op.SetProcessing? || op.MarkUnavailable? }

  /** Such a call has hit a counted comment of this post. */
  predicate Drifts(s: State, op: Op, postId: PostId) {
    Unaccounted(op) && op.id in s.comments && s.comments[op.id].postId == postId && IsCounted(s.comments[op.id])
  }

  function Initial(posts: set<PostId>): State { State(map[], map p | p in posts :: 0) }

  function Run(s: State, ops: seq<Op>): State
    decreases |ops|
  {
    if ops == [] then s else Run(Step(s, ops[0]), ops[1..])
  }

  function Drift(s: State, ops: seq<Op>, postId: PostId): nat
    decreases |ops|
  {
    if ops == [] then 0 else (if Drifts(s, ops[0], postId) then 1 else 0) + Drift(Step(s, ops[0]), ops[1..], postId)
  }

  ghost predicate PostsExist(s: State) {
    forall id :: id in s.comments ==> s.comments[id].postId in s.totals
  }

  /** A call on one row changes whether that row counts, and nothing else about who counts. */
  lemma RowStepCounted(s: State, op: Op, postId: PostId)
    requires !op.Create? && !op.HardDeleteMany? && op.id in s.comments
    ensures var t := Step(s, op);
            && op.id in t.comments && t.comments[op.id].postId == s.comments[op.id].postId
            && CountedOn(t, postId) - {op.id} == CountedOn(s, postId) - {op.id}
  {
    var t := Step(s, op);
    assert forall id :: id in s.comments && id != op.id ==> id in t.comments && t.comments[id] == s.comments[id];
    assert forall id :: id in t.comments ==> id in s.comments;
  }

  lemma HardDeleteCounted(s: State, ids: set<CommentId>, postId: PostId)
    ensures CountedOn(Step(s, HardDeleteMany(ids)), postId) == CountedOn(s, postId) - ids
    ensures |CountedOn(s, postId)| == |CountedOn(s, postId) - ids| + |CountedOn(s, postId) * ids|
  {
    var c := CountedOn(s, postId);
    assert c == (c - ids) + (c * ids);
  }

  lemma CreateCounted(s: State, id: CommentId, p: PostId, postId: PostId)
    ensures CountedOn(Step(s, Create(id, p)), postId) == CountedOn(s, postId)
  {
  }

  /** A set counted with and without one member. */
  lemma CountWithout(ids: set<CommentId>, id: CommentId)
    ensures |ids| == |ids - {id}| + if id in ids then 1 else 0
  {
    if id in ids {
      assert ids == (ids - {id}) + {id};
    } else {
      assert ids == ids - {id};
    }
  }

  /** The counter follows the row: up when it starts to count, down when it stops, short of a drift. */
  lemma RowStepTotals(s: State, op: Op, postId: PostId)
    requires !op.Create? && !op.HardDeleteMany? && op.id in s.comments && PostsExist(s) && postId in s.totals
    ensures var t := RowStep(s, op, s.comments[op.id]);
            && t.totals.Keys == s.totals.Keys && t.comments.Keys == s.comments.Keys
            && t.totals[postId] - s.totals[postId]
               == (if op.id in CountedOn(t, postId) then 1 else 0) - (if op.id in CountedOn(s, postId) then 1 else 0)
                  + if Drifts(s, op, postId) then 1 else 0
  {
  }

  lemma RowStepLedger(s: State, op: Op, postId: PostId)
    requires !op.Create? && !op.HardDeleteMany? && op.id in s.comments && PostsExist(s) && postId in s.totals
    ensures var t := Step(s, op);
            t.totals.Keys == s.totals.Keys && t.comments.Keys == s.comments.Keys
            && t.totals[postId] - s.totals[postId]
               == |CountedOn(t, postId)| - |CountedOn(s, postId)| + if Drifts(s, op, postId) then 1 else 0
  {
    var t := Step(s, op);
    assert t == RowStep(s, op, s.comments[op.id]);
    RowStepTotals(s, op, postId);
    RowStepCounted(s, op, postId);
    CountWithout(CountedOn(s, postId), op.id);
    CountWithout(CountedOn(t, postId), op.id);
  }

  lemma StepKeepsPosts(s: State, op: Op)
    requires PostsExist(s)
    ensures PostsExist(Step(s, op)) && Step(s, op).totals.Keys == s.totals.Keys
  {
  }

  /** One call keeps the books: the counter moves with the number of counted comments, short of a drift. */
  lemma LedgerStep(s: State, op: Op, postId: PostId)
    requires PostsExist(s) && postId in s.totals
    ensures var t := Step(s, op);
            && PostsExist(t) && t.totals.Keys == s.totals.Keys
            && t.totals[postId] - s.totals[postId]
               == |CountedOn(t, postId)| - |CountedOn(s, postId)| + if Drifts(s, op, postId) then 1 else 0
  {
    StepKeepsPosts(s, op);
    match op {
      case Create(id, p) => CreateCounted(s, id, p, postId);
      case HardDeleteMany(ids) => HardDeleteCounted(s, ids, postId);
      case _ =>
        if op.id in s.comments {
          RowStepLedger(s, op, postId);
        }
    }
  }

  lemma {:induction false} LedgerFrom(s: State, ops: seq<Op>, postId: PostId)
    requires PostsExist(s) && postId in s.totals
    ensures var t := Run(s, ops);
            && postId in t.totals
            && t.totals[postId] - s.totals[postId]
               == |CountedOn(t, postId)| - |CountedOn(s, postId)| + Drift(s, ops, postId)
    decreases |ops|
  {
    if ops != [] {
      LedgerStep(s, ops[0], postId);
      LedgerFrom(Step(s, ops[0]), ops[1..], postId);
    }
  }

  /** In every run, a post's total is its number of counted comments plus the number of times an unaccounted call hit
      one; so it never falls below the true count, and it is exact precisely when that never happened. */
  lemma TotalIsCountPlusDrift(posts: set<PostId>, ops: seq<Op>, postId: PostId)
    requires postId in posts
    ensures var t := Run(Initial(posts), ops);
            var drift := Drift(Initial(posts), ops, postId);
            && postId in t.totals
            && t.totals[postId] == |CountedOn(t, postId)| + drift
            && (t.totals[postId] == |CountedOn(t, postId)| <==> drift == 0)
  {
    LedgerFrom(Initial(posts), ops, postId);
    assert CountedOn(Initial(posts), postId) == {};
  }

  lemma {:induction false} NoDrift(s: State, ops: seq<Op>, postId: PostId)
    requires forall i :: 0 <= i < |ops| ==> !Unaccounted(ops[i])
    ensures Drift(s, ops, postId) == 0
    decreases |ops|
  {
    if ops != [] {
      assert !Unaccounted(ops[0]);
      NoDrift(Step(s, ops[0]), ops[1..], postId);
    }
  }

  /** Runs of creations, verdicts, retries and deletions, single or in bulk, keep every total exact. */
  lemma ExactWithoutUnaccountedCalls(posts: set<PostId>, ops: seq<Op>, postId: PostId)
    requires postId in posts && forall i :: 0 <= i < |ops| ==> !Unaccounted(ops[i])
    ensures var t := Run(Initial(posts), ops);
            postId in t.totals && t.totals[postId] == |CountedOn(t, postId)|
  {
    NoDrift(Initial(posts), ops, postId);
    TotalIsCountPlusDrift(posts, ops, postId);
  }

  /** A deleted or rejected comment is settled: no verdict, retry or deletion brings it back into the count. */
  predicate Settled(s: State, id: CommentId) {
    id !in s.comments || s.comments[id].status == DELETED || s.comments[id].status == REJECTED
  }

  lemma {:induction false} SettledStaysSettled(s: State, ops: seq<Op>, id: CommentId)
    requires Settled(s, id)
    requires forall i :: 0 <= i < |ops| ==> !Unaccounted(ops[i]) && !(ops[i].Create? && ops[i].id == id)
    ensures Settled(Run(s, ops), id)
    ensures forall p :: id !in CountedOn(Run(s, ops), p)
    decreases |ops|
  {
    if ops != [] {
      assert !Unaccounted(ops[0]);
      SettledStaysSettled(Step(s, ops[0]), ops[1..], id);
    }
  }

  /** An approved comment whose author edits it: the drift the counter keeps. */
  lemma EditAfterApprovalDrifts(id: CommentId, postId: PostId, at: nat)
    ensures var ops := [Create(id, postId), Approve(id, at), Update(id)];
            var t := Run(Initial({postId}), ops);
            t.totals == map[postId := 1] && CountedOn(t, postId) == {}
  {
    var ops := [Create(id, postId), Approve(id, at), Update(id)];
    var s1 := Step(Initial({postId}), ops[0]);
    var s2 := Step(s1, ops[1]);
    var s3 := Step(s2, ops[2]);
    assert ops[1..] == [ops[1], ops[2]] && ops[1..][1..] == [ops[2]] && ops[1..][1..][1..] == [];
    assert Run(Initial({postId}), ops) == Run(s1, ops[1..]) == Run(s2, ops[1..][1..]) == s3;
  }

  /** Of all rows that a run can leave, exactly the approved ones count: the other columns the test looks at follow. */
  lemma {:induction false} CountedIsApproved(posts: set<PostId>, ops: seq<Op>, id: CommentId)
    requires id in Run(Initial(posts), ops).comments
    ensures IsCounted(Run(Initial(posts), ops).comments[id])
            <==> Run(Initial(posts), ops).comments[id].status == APPROVED
  {
    ApprovedFrom(Initial(posts), ops);
  }

  ghost predicate ApprovedByAgent(s: State) {
    forall id :: id in s.comments && s.comments[id].status == APPROVED ==>
      && s.comments[id].moderatorType == Some(AGENT) && s.comments[id].moderationReason == None
      && s.comments[id].moderatedAt.Some?
  }

  lemma {:induction false} ApprovedFrom(s: State, ops: seq<Op>)
    requires ApprovedByAgent(s)
    ensures ApprovedByAgent(Run(s, ops))
    decreases |ops|
  {
    if ops != [] {
      ApprovedFrom(Step(s, ops[0]), ops[1..]);
    }
  }

  /** A comment that failed is claimed for a retry by one caller only. */
  lemma FailedIsClaimedOnce(s: State, id: CommentId, reason: string, at: nat)
    requires id in s.comments
    ensures var failed := Step(s, MarkUnavailable(id, reason, at));
            var claimed := Step(failed, SetProcessingIfFailed(id));
            && failed.comments[id].status == FAILED
            && claimed.comments == failed.comments[id := failed.comments[id].(status := PROCESSING)]
            && Step(claimed, SetProcessingIfFailed(id)) == claimed
  {
  }

  // ---- The repository ----

  function CountFor(postCounts: map<PostId, nat>, p: PostId): nat {
    if p in postCounts then postCounts[p] else 0
  }

  /** One step of the grouping. */
  function Tally(postCounts: map<PostId, nat>, c: Comment): map<PostId, nat> {
    if !IsCounted(c) then postCounts else postCounts[c.postId := CountFor(postCounts, c.postId) + 1]
  }

  /** The effect of the decrements a bulk deletion issues, one post at a time. */
  function Decremented(totals: map<PostId, int>, postCounts: map<PostId, nat>): map<PostId, int> {
    map p | p in totals :: totals[p] - CountFor(postCounts, p)
  }

  /** `postCounts` holds, for each post with any, how many of the rows `done` are counted comments of it. */
  ghost predicate Grouped(s: State, done: set<CommentId>, postCounts: map<PostId, nat>) {
    forall p {:trigger CountFor(postCounts, p)} :: CountFor(postCounts, p) == |CountedOn(s, p) * done|
  }

  lemma CountNext(counted: set<CommentId>, done: set<CommentId>, id: CommentId)
    requires id !in done
    ensures |counted * (done + {id})| == |counted * done| + if id in counted then 1 else 0
  {
    if id in counted {
      assert counted * (done + {id}) == counted * done + {id};
    } else {
      assert counted * (done + {id}) == counted * done;
    }
  }

  lemma GroupNext(s: State, done: set<CommentId>, id: CommentId, postCounts: map<PostId, nat>)
    requires id in s.comments && id !in done && Grouped(s, done, postCounts)
    ensures Grouped(s, done + {id}, Tally(postCounts, s.comments[id]))
  {
    var next := Tally(postCounts, s.comments[id]);
    forall p ensures CountFor(next, p) == |CountedOn(s, p) * (done + {id})| {
      CountNext(CountedOn(s, p), done, id);
      assert CountFor(postCounts, p) == |CountedOn(s, p) * done|;
    }
  }

  lemma GroupIsTheCount(s: State, wanted: set<CommentId>, postCounts: map<PostId, nat>, p: PostId)
    requires Grouped(s, s.comments.Keys * wanted, postCounts)
    ensures CountFor(postCounts, p) == |CountedOn(s, p) * wanted|
  {
    var counted := CountedOn(s, p);
    assert counted * wanted == counted * (s.comments.Keys * wanted);
  }

  /** Decrementing by the groups of the rows that were found is what the bulk deletion means. */
  lemma GroupsAreTheDeletion(s: State, wanted: set<CommentId>, postCounts: map<PostId, nat>)
    requires Grouped(s, s.comments.Keys * wanted, postCounts)
    ensures Decremented(s.totals, postCounts) == TotalsWithout(s, wanted)
  {
    forall p | p in s.totals ensures Decremented(s.totals, postCounts)[p] == TotalsWithout(s, wanted)[p] {
      GroupIsTheCount(s, wanted, postCounts, p);
    }
  }

  /** Each post's total has moved with its number of counted comments. */
  ghost predicate BooksKept(s: State, t: State) {
    t.totals.Keys == s.totals.Keys
    && forall p :: p in s.totals ==> t.totals[p] - |CountedOn(t, p)| == s.totals[p] - |CountedOn(s, p)|
  }

  lemma StepBooks(s: State, op: Op)
    requires PostsExist(s) && !Unaccounted(op)
    ensures BooksKept(s, Step(s, op))
  {
    StepKeepsPosts(s, op);
    forall p | p in s.totals
      ensures Step(s, op).totals[p] - |CountedOn(Step(s, op), p)| == s.totals[p] - |CountedOn(s, p)|
    {
      LedgerStep(s, op, p);
    }
  }

  class CommentsRepo {
    var comments: map<CommentId, Comment>
    var totals: map<PostId, int>

    ghost function Abstract(): State reads this { State(comments, totals) }

    /** Every comment belongs to a post that exists: the foreign key. */
    ghost predicate Valid() reads this { PostsExist(Abstract()) }

    constructor (posts: set<PostId>)
      ensures Valid() && Abstract() == Initial(posts)
    {
      comments := map[];
      totals := map p | p in posts :: 0;
    }

    method Create(id: CommentId, postId: PostId) returns (created: bool)
      requires Valid()
      modifies this
      ensures Valid() && Abstract() == Step(old(Abstract()), Op.Create(id, postId))
      ensures created <==> id !in old(comments) && postId in totals
      ensures totals == old(totals)
      ensures comments == if created then old(comments)[id := Comment(postId, PENDING, None, None, None)] else old(comments)
    {
      created := id !in comments && postId in totals;
      if created {
        comments := comments[id := Comment(postId, PENDING, None, None, None)];
      }
    }

    method Update(id: CommentId) returns (found: bool)
      requires Valid()
      modifies this
      ensures Valid() && Abstract() == Step(old(Abstract()), Op.Update(id)) && found == (id in old(comments))
      ensures totals == old(totals)
      ensures comments == if found then old(comments)[id := old(comments)[id].(status := PENDING)] else old(comments)
    {
      found := id in comments;
      if found {
        comments := comments[id := comments[id].(status := PENDING)];
      }
    }

    method SetModerationProcessing(id: CommentId) returns (found: bool)
      requires Valid()
      modifies this
      ensures Valid() && Abstract() == Step(old(Abstract()), SetProcessing(id)) && found == (id in old(comments))
      ensures totals == old(totals)
      ensures comments == if found then old(comments)[id := old(comments)[id].(status := PROCESSING)] else old(comments)
    {
      found := id in comments;
      if found {
        comments := comments[id := comments[id].(status := PROCESSING)];
      }
    }

    /** Tells the caller whether it is the one that took the comment out of FAILED. */
    method SetModerationProcessingIfFailed(id: CommentId) returns (won: bool)
      requires Valid()
      modifies this
      ensures Valid() && Abstract() == Step(old(Abstract()), SetProcessingIfFailed(id))
      ensures won <==> id in old(comments) && old(comments)[id].status == FAILED
      ensures totals == old(totals)
      ensures comments == if won then old(comments)[id := old(comments)[id].(status := PROCESSING)] else old(comments)
    {
      won := id in comments && comments[id].status == FAILED;
      if won {
        comments := comments[id := comments[id].(status := PROCESSING)];
      }
    }

    method MarkModeratedApproved(id: CommentId, at: nat)
      requires Valid()
      modifies this
      ensures Valid() && Abstract() == Step(old(Abstract()), Approve(id, at))
      ensures comments == if id in old(comments) && old(comments)[id].status !in {DELETED, REJECTED}
                          then old(comments)[id := Comment(old(comments)[id].postId, APPROVED, Some(AGENT), None, Some(at))]
                          else old(comments)
      ensures BooksKept(old(Abstract()), Abstract())
    {
      StepBooks(Abstract(), Approve(id, at));
      if id !in comments || comments[id].status == DELETED || comments[id].status == REJECTED {
        return;
      }
      var comment := comments[id];
      var alreadyCounted := IsCounted(comment);
      comments := comments[id := comment.(status := APPROVED, moderationReason := None, moderatedAt := Some(at),
                                          moderatorType := Some(AGENT))];
      if !alreadyCounted {
        totals := totals[comment.postId := totals[comment.postId] + 1];
      }
    }

    method MarkModeratedRejected(id: CommentId, reason: string, at: nat)
      requires Valid()
      modifies this
      ensures Valid() && Abstract() == Step(old(Abstract()), Reject(id, reason, at))
      ensures comments == if id in old(comments)
                          then old(comments)[id := Comment(old(comments)[id].postId, REJECTED, Some(AGENT), Some(reason),
                                                           Some(at))]
                          else old(comments)
      ensures BooksKept(old(Abstract()), Abstract())
    {
      StepBooks(Abstract(), Reject(id, reason, at));
      if id !in comments {
        return;
      }
      var comment := comments[id];
      var alreadyCounted := IsCounted(comment);
      comments := comments[id := comment.(status := REJECTED, moderationReason := Some(reason),
                                          moderatedAt := Some(at), moderatorType := Some(AGENT))];
      if alreadyCounted {
        totals := totals[comment.postId := totals[comment.postId] - 1];
      }
    }

    method MarkModerationServiceUnavailable(id: CommentId, reason: string, at: nat)
      requires Valid()
      modifies this
      ensures Valid() && Abstract() == Step(old(Abstract()), MarkUnavailable(id, reason, at))
      ensures totals == old(totals)
      ensures comments == if id in old(comments)
                          then old(comments)[id := Comment(old(comments)[id].postId, FAILED, Some(LOCAL), Some(reason),
                                                           Some(at))]
                          else old(comments)
    {
      if id in comments {
        comments := comments[id := comments[id].(status := FAILED, moderationReason := Some(reason),
                                                 moderatorType := Some(LOCAL), moderatedAt := Some(at))];
      }
    }

    method Delete(id: CommentId) returns (found: bool)
      requires Valid()
      modifies this
      ensures Valid() && Abstract() == Step(old(Abstract()), Op.Delete(id)) && found == (id in old(comments))
      ensures comments == if found then old(comments)[id := old(comments)[id].(status := DELETED)] else old(comments)
      ensures BooksKept(old(Abstract()), Abstract())
    {
      StepBooks(Abstract(), Op.Delete(id));
      found := id in comments;
      if !found {
        return;
      }
      var existing := comments[id];
      comments := comments[id := existing.(status := DELETED)];
      if IsCounted(existing) {
        totals := totals[existing.postId := totals[existing.postId] - 1];
      }
    }

    /** Groups the counted rows by post, deletes the rows, then lowers each post's counter by its group. */
    method HardDeleteMany(ids: set<CommentId>) returns (count: nat)
      requires Valid()
      modifies this
      ensures Valid() && Abstract() == Step(old(Abstract()), Op.HardDeleteMany(ids))
      ensures count == |old(comments).Keys * ids| && comments == old(comments) - ids
      ensures BooksKept(old(Abstract()), Abstract())
    {
      StepBooks(Abstract(), Op.HardDeleteMany(ids));
      ghost var s := Abstract();
      var postCounts := GroupByPost(ids);
      count := |comments.Keys * ids|;
      StepKeepsPosts(s, Op.HardDeleteMany(ids));
      GroupsAreTheDeletion(s, ids, postCounts);
      comments := comments - ids;
      DecrementTotals(postCounts);
    }

    method GroupByPost(wanted: set<CommentId>) returns (postCounts: map<PostId, nat>)
      requires Valid()
      ensures Grouped(Abstract(), comments.Keys * wanted, postCounts) && postCounts.Keys <= totals.Keys
    {
      ghost var s := Abstract();
      var rows := comments.Keys * wanted;
      ghost var done: set<CommentId> := {};
      postCounts := map[];
      while rows != {}
        invariant rows !! done && rows + done == comments.Keys * wanted
        invariant Grouped(s, done, postCounts) && postCounts.Keys <= totals.Keys
        decreases |rows|
      {
        var id :| id in rows;
        GroupNext(s, done, id, postCounts);
        postCounts := Tally(postCounts, comments[id]);
        rows, done := rows - {id}, done + {id};
      }
    }

    method DecrementTotals(postCounts: map<PostId, nat>)
      requires postCounts.Keys <= totals.Keys
      modifies `totals
      ensures totals == Decremented(old(totals), postCounts)
    {
      var posts := postCounts.Keys;
      while posts != {}
        invariant posts <= postCounts.Keys && totals.Keys == old(totals).Keys
        invariant forall p :: p in totals ==>
          totals[p] == old(totals)[p] - if p !in posts then CountFor(postCounts, p) else 0
        decreases |posts|
      {
        var postId :| postId in posts;
        totals := totals[postId := totals[postId] - postCounts[postId]];
        posts := posts - {postId};
      }
    }

    /** Calls of others. */
    method Meanwhile(ops: seq<Op>)
      requires Valid()
      modifies this
      ensures Valid() && Abstract() == Run(old(Abstract()), ops)
    {
      RunKeepsPosts(Abstract(), ops);
      var s := Run(State(comments, totals), ops);
      comments, totals := s.comments, s.totals;
    }

    /** Hands a comment to the moderation queue. A queue failure, or a failure to note that it is being processed, marks
        the comment failed on a best-effort basis and reaches the caller. The three flags say which foreign call works:
        the enqueueing, the processing update and the marking. Once the job is queued its verdict may come at any time:
        `meanwhile` are the calls of others before the status is written, `later` those before a failure is marked. */
    method EnqueueOrThrow(id: CommentId, setProcessing: bool, queueUp: bool, processingUp: bool, markUp: bool, at: nat,
                          meanwhile: seq<Op>, later: seq<Op>)
      returns (ok: bool)
      requires Valid()
      modifies this
      ensures Valid()
      ensures ok <==>
              queueUp && (!setProcessing || (processingUp && id in Run(old(Abstract()), meanwhile).comments))
      ensures var s := Run(old(Abstract()), meanwhile);
              Abstract() == if ok then (if setProcessing then Step(s, SetProcessing(id)) else s)
                            else if markUp then Step(Run(s, later), MarkUnavailable(id, "queue enqueue failed", at))
                            else Run(s, later)
      ensures ok && setProcessing ==> id in comments && comments[id].status == PROCESSING
      ensures !ok && markUp && id in comments ==>
                comments[id].status == FAILED && comments[id].moderationReason == Some("queue enqueue failed")
    {
      ok := queueUp;
      Meanwhile(meanwhile);
      if ok && setProcessing {
        if processingUp {
          ok := SetModerationProcessing(id);
        } else {
          ok := false;
        }
      }
      if !ok {
        Meanwhile(later);
        if markUp {
          MarkModerationServiceUnavailable(id, "queue enqueue failed", at);
        }
      }
    }
  }

  lemma {:induction false} RunKeepsPosts(s: State, ops: seq<Op>)
    requires PostsExist(s)
    ensures PostsExist(Run(s, ops))
    decreases |ops|
  {
    if ops != [] {
      StepKeepsPosts(s, ops[0]);
      RunKeepsPosts(Step(s, ops[0]), ops[1..]);
    }
  }

  lemma {:induction false} RunThen(s: State, ops: seq<Op>, op: Op)
    ensures Run(s, ops + [op]) == Step(Run(s, ops), op)
    ensures forall p :: Drift(s, ops + [op], p) == Drift(s, ops, p) + if Drifts(Run(s, ops), op, p) then 1 else 0
    decreases |ops|
  {
    if ops != [] {
      RunThen(Step(s, ops[0]), ops[1..], op);
      assert (ops + [op])[1..] == ops[1..] + [op];
    } else {
      assert [op][1..] == [];
    }
  }

  /** Noting that a queued comment is being processed drifts the total exactly when its approval has come first. */
  lemma ProcessingDriftsExactly(s: State, id: CommentId, meanwhile: seq<Op>, postId: PostId)
    ensures Drift(s, meanwhile + [SetProcessing(id)], postId) == Drift(s, meanwhile, postId) + 1 <==>
            var c := Run(s, meanwhile).comments;
            id in c && c[id].postId == postId && IsCounted(c[id])
  {
    RunThen(s, meanwhile, SetProcessing(id));
  }

  predicate Counts(s: State, id: CommentId) { id in s.comments && IsCounted(s.comments[id]) }

  /** An approval that finds the comment neither deleted nor rejected. */
  predicate Publishes(s: State, op: Op, id: CommentId) { op.Approve? && op.id == id && !Settled(s, id) }

  predicate TakesOut(op: Op, id: CommentId) {
    || ((Unaccounted(op) || op.Reject? || op.Delete?) && op.id == id)
    || (op.HardDeleteMany? && id in op.ids)
  }

  lemma CountsStep(s: State, op: Op, id: CommentId)
    ensures Counts(Step(s, op), id) <==> Publishes(s, op, id) || (Counts(s, id) && !TakesOut(op, id))
  {
  }

  /** The approval at `j` takes effect, and nothing after it takes the comment out of the count again. */
  ghost predicate PublishedAt(s: State, ops: seq<Op>, id: CommentId, j: nat)
    requires j < |ops|
  {
    Publishes(Run(s, ops[..j]), ops[j], id) && forall i :: j < i < |ops| ==> !TakesOut(ops[i], id)
  }

  lemma PublishedThen(s: State, ops: seq<Op>, op: Op, id: CommentId, j: nat)
    requires j <= |ops|
    ensures PublishedAt(s, ops + [op], id, j) <==>
            if j < |ops| then PublishedAt(s, ops, id, j) && !TakesOut(op, id) else Publishes(Run(s, ops), op, id)
  {
    var all := ops + [op];
    if j < |ops| {
      assert all[..j] == ops[..j];
      assert forall i :: 0 <= i < |ops| ==> all[i] == ops[i];
      assert all[|ops|] == op;
    } else {
      assert all[..j] == ops;
    }
  }

  /** A comment that does not count to begin with counts after these calls exactly when one of them publishes it and
      none after that takes it out. */
  lemma {:induction false} CountsExactly(s: State, ops: seq<Op>, id: CommentId)
    requires !Counts(s, id)
    ensures Counts(Run(s, ops), id) <==> exists j: nat :: j < |ops| && PublishedAt(s, ops, id, j)
  {
    if ops != [] {
      var last, rest := ops[|ops| - 1], ops[..|ops| - 1];
      assert ops == rest + [last];
      CountsExactly(s, rest, id);
      RunThen(s, rest, last);
      CountsStep(Run(s, rest), last, id);
      forall j: nat | j <= |rest|
        ensures PublishedAt(s, ops, id, j) <==>
                if j < |rest| then PublishedAt(s, rest, id, j) && !TakesOut(last, id)
                else Publishes(Run(s, rest), last, id)
      {
        PublishedThen(s, rest, last, id, j);
      }
      if j: nat :| j < |rest| && PublishedAt(s, rest, id, j) && !TakesOut(last, id) {
        assert PublishedAt(s, ops, id, j);
      }
      if Publishes(Run(s, rest), last, id) {
        assert PublishedAt(s, ops, id, |rest|);
      }
    }
  }

  lemma {:induction false} PostStays(s: State, ops: seq<Op>, id: CommentId)
    requires forall i :: 0 <= i < |ops| ==> !(ops[i].Create? && ops[i].id == id)
    ensures id in Run(s, ops).comments ==>
              id in s.comments && Run(s, ops).comments[id].postId == s.comments[id].postId
    decreases |ops|
  {
    if ops != [] {
      assert !(ops[0].Create? && ops[0].id == id);
      PostStays(Step(s, ops[0]), ops[1..], id);
    }
  }

  /** Noting that a comment is being processed, when it did not count at its enqueueing, drifts the total exactly when
      one of the calls in between publishes the comment and none after that takes it out. */
  lemma NoteDriftsExactly(s: State, id: CommentId, meanwhile: seq<Op>, postId: PostId)
    requires id in s.comments && !Counts(s, id)
    requires forall i :: 0 <= i < |meanwhile| ==> !(meanwhile[i].Create? && meanwhile[i].id == id)
    ensures Drift(s, meanwhile + [SetProcessing(id)], postId) == Drift(s, meanwhile, postId) + 1 <==>
            && s.comments[id].postId == postId
            && exists j: nat :: j < |meanwhile| && PublishedAt(s, meanwhile, id, j)
  {
    CountsExactly(s, meanwhile, id);
    ProcessingDriftsExactly(s, id, meanwhile, postId);
    PostStays(s, meanwhile, id);
  }

  /** The verdict can overtake the note: create, enqueue, approve, note. */
  lemma VerdictBeforeNoteDrifts(id: CommentId, postId: PostId, at: nat)
    ensures var t := Run(Initial({postId}), [Create(id, postId), Approve(id, at), SetProcessing(id)]);
            t.totals == map[postId := 1] && CountedOn(t, postId) == {}
  {
    var ops := [Create(id, postId), Approve(id, at), SetProcessing(id)];
    var s1 := Step(Initial({postId}), ops[0]);
    var s2 := Step(s1, ops[1]);
    assert ops[1..] == [ops[1], ops[2]] && ops[1..][1..] == [ops[2]] && ops[1..][1..][1..] == [];
    assert Run(Initial({postId}), ops) == Run(s1, ops[1..]) == Run(s2, ops[1..][1..]) == Step(s2, ops[2]);
  }
}
