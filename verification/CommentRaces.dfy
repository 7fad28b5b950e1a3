/** The comment transactions statement by statement. A verdict, a deletion or a bulk deletion reads its rows without a
    lock and decides by what it has read how to move the counter; then it writes. The rows it writes are locked from the
    write to the commit, so that the write and all that follows it is one step for everybody else. */
module CommentRaces {
  import opened CommentsLedger
  import opened Wrappers

  type ProcId = nat

  predicate IsTransaction(op: Op) { op.Approve? || op.Reject? || op.Delete? || op.HardDeleteMany? }

  type Transaction = op: Op | IsTransaction(op) witness Delete(0)

  /** A transaction that has read. */
  datatype Proc = Proc(op: Transaction, seen: map<CommentId, Comment>)

  /** `used` are the ids ever given to a comment: none is given twice. */
  datatype World = World(s: State, procs: map<ProcId, Proc>, used: set<CommentId>)

  datatype Event =
    /** A creation, or one of the calls that are a single statement. */
    | Call(op: Op)
    | Read(proc: ProcId, wanted: Transaction)
    | Write(proc: ProcId)
    | Abort(proc: ProcId)

  function Ids(op: Op): set<CommentId> { if op.HardDeleteMany? then op.ids else {op.id} }

  predicate Enabled(w: World, e: Event) {
    match e
    case Call(op) => !IsTransaction(op) && (op.Create? ==> op.id !in w.used)
    case Read(proc, _) => proc !in w.procs
    case Write(proc) => proc in w.procs
    case Abort(proc) => proc in w.procs
  }

  function RowsOf(s: State, op: Op): map<CommentId, Comment> {
    map id | id in s.comments && id in Ids(op) :: s.comments[id]
  }

  /** What it has read leaves nothing to do: no row, or for an approval a row that is deleted or rejected. */
  predicate GivesUp(p: Proc) {
    if p.op.HardDeleteMany? then false
    else p.op.id !in p.seen || (p.op.Approve? && p.seen[p.op.id].status in {DELETED, REJECTED})
  }

  /** The columns a verdict or a deletion writes, over whatever the row holds by then. */
  function WrittenRow(op: Transaction, c: Comment): Comment
    requires !op.HardDeleteMany?
  {
    match op
    case Approve(_, at) => c.(status := APPROVED, moderationReason := None, moderatedAt := Some(at),
                              moderatorType := Some(AGENT))
    case Reject(_, reason, at) => c.(status := REJECTED, moderationReason := Some(reason), moderatedAt := Some(at),
                                     moderatorType := Some(AGENT))
    case Delete(_) => c.(status := DELETED)
  }

  /** How the row it has read makes it move the counter. */
  function Delta(op: Op, c: Comment): int {
    if op.Approve? then (if IsCounted(c) then 0 else 1) else if IsCounted(c) then -1 else 0
  }

  function CountedAmong(rows: map<CommentId, Comment>, postId: PostId): set<CommentId> {
    set id | id in rows && rows[id].postId == postId && IsCounted(rows[id])
  }

  /** Each post's total less its counted comments among these rows. */
  function TotalsLess(totals: map<PostId, int>, rows: map<CommentId, Comment>): map<PostId, int> {
    map q | q in totals :: totals[q] - |CountedAmong(rows, q)|
  }

  /** Writing a row that is gone is an error, and rolls back. */
  function AfterWrite(s: State, p: Proc): State {
    if GivesUp(p) then s
    else if p.op.HardDeleteMany? then
      State(s.comments - p.op.ids, TotalsLess(s.totals, p.seen))
    else if p.op.id !in s.comments then s
    else
      Bump(Put(s, p.op.id, WrittenRow(p.op, s.comments[p.op.id])), p.seen[p.op.id].postId,
           Delta(p.op, p.seen[p.op.id]))
  }

  function Apply(w: World, e: Event): World
    requires Enabled(w, e)
  {
    match e
    case Call(op) => w.(s := Step(w.s, op), used := if op.Create? then w.used + {op.id} else w.used)
    case Read(proc, op) => w.(procs := w.procs[proc := Proc(op, RowsOf(w.s, op))])
    case Write(proc) => w.(s := AfterWrite(w.s, w.procs[proc]), procs := w.procs - {proc})
    case Abort(proc) => w.(procs := w.procs - {proc})
  }

  ghost predicate IsRun(posts: set<PostId>, ws: seq<World>, events: seq<Event>) {
    && |ws| == |events| + 1
    && ws[0] == World(Initial(posts), map[], {})
    && forall i {:trigger Enabled(ws[i], events[i])} :: 0 <= i < |events| ==>
         Enabled(ws[i], events[i]) && ws[i + 1] == Apply(ws[i], events[i])
  }

  lemma ExtendRun(posts: set<PostId>, ws: seq<World>, events: seq<Event>, e: Event)
    requires IsRun(posts, ws, events) && Enabled(ws[|events|], e)
    ensures IsRun(posts, ws + [Apply(ws[|events|], e)], events + [e])
  {
    var more, others := ws + [Apply(ws[|events|], e)], events + [e];
    forall i | 0 <= i < |others| ensures Enabled(more[i], others[i]) && more[i + 1] == Apply(more[i], others[i]) {
      if i < |events| {
        assert Enabled(ws[i], events[i]);
      }
    }
  }

  // ---- Rows and readings ----

  /** A reading is of rows that still belong to the same posts, or are gone for good. */
  predicate ReadingOk(w: World, p: Proc) {
    forall id :: id in p.seen ==>
      && id in w.used && id in Ids(p.op) && p.seen[id].postId in w.s.totals
      && (id in w.s.comments ==> w.s.comments[id].postId == p.seen[id].postId)
  }

  ghost predicate Inv(w: World) {
    && PostsExist(w.s) && w.s.comments.Keys <= w.used
    && forall q :: q in w.procs ==> ReadingOk(w, w.procs[q])
  }

  /** Rows stay with their posts, and only a creation makes one. */
  lemma RowsStep(w: World, e: Event)
    requires Inv(w) && Enabled(w, e)
    ensures var t := Apply(w, e);
            && PostsExist(t.s) && t.s.totals.Keys == w.s.totals.Keys && w.used <= t.used && t.s.comments.Keys <= t.used
            && forall id :: id in t.s.comments && id in w.used ==>
                 id in w.s.comments && t.s.comments[id].postId == w.s.comments[id].postId
  {
    if e.Call? {
      StepKeepsPosts(w.s, e.op);
    } else if e.Write? {
      assert ReadingOk(w, w.procs[e.proc]);
    }
  }

  lemma InvStep(w: World, e: Event)
    requires Inv(w) && Enabled(w, e)
    ensures Inv(Apply(w, e))
  {
    RowsStep(w, e);
    var t := Apply(w, e);
    forall q | q in t.procs ensures ReadingOk(t, t.procs[q]) {
      if q in w.procs {
        assert ReadingOk(w, w.procs[q]);
      }
    }
  }

  lemma {:induction false} RunInv(posts: set<PostId>, ws: seq<World>, events: seq<Event>, n: nat)
    requires IsRun(posts, ws, events) && n <= |events|
    ensures Inv(ws[n]) && ws[n].s.totals.Keys == posts
  {
    if n > 0 {
      RunInv(posts, ws, events, n - 1);
      assert Enabled(ws[n - 1], events[n - 1]);
      InvStep(ws[n - 1], events[n - 1]);
      RowsStep(ws[n - 1], events[n - 1]);
    }
  }

  // ---- The ledger ----

  /** Nothing is written after all. */
  predicate Idle(s: State, p: Proc) { GivesUp(p) || (!p.op.HardDeleteMany? && p.op.id !in s.comments) }

  /** By how much a step moves the counter of a post more than it should: a write, by the comments it hits that count by
      then, less those that counted when they were read; a single statement, by one when it hits a counted comment. */
  function Skew(w: World, e: Event, postId: PostId): int
    requires Enabled(w, e)
  {
    match e
    case Call(op) => if Drifts(w.s, op, postId) then 1 else 0
    case Write(proc) =>
      var p := w.procs[proc];
      if Idle(w.s, p) then 0 else |CountedAmong(RowsOf(w.s, p.op), postId)| - |CountedAmong(p.seen, postId)|
    case _ => 0
  }

  lemma BulkRows(s: State, op: Transaction, postId: PostId)
    requires op.HardDeleteMany?
    ensures CountedAmong(RowsOf(s, op), postId) == CountedOn(s, postId) * op.ids
  {
  }

  lemma BulkCounted(s: State, p: Proc, postId: PostId)
    requires p.op.HardDeleteMany?
    ensures CountedOn(AfterWrite(s, p), postId) == CountedOn(s, postId) - p.op.ids
  {
  }

  lemma SplitSize(a: set<CommentId>, b: set<CommentId>)
    ensures |a| == |a - b| + |a * b|
  {
    assert a == (a - b) + (a * b);
  }

  lemma BulkLedger(s: State, p: Proc, postId: PostId)
    requires p.op.HardDeleteMany? && postId in s.totals
    ensures var t := AfterWrite(s, p);
            t.totals[postId] - s.totals[postId] == |CountedOn(t, postId)| - |CountedOn(s, postId)|
              + |CountedAmong(RowsOf(s, p.op), postId)| - |CountedAmong(p.seen, postId)|
  {
    BulkCounted(s, p, postId);
    BulkRows(s, p.op, postId);
    SplitSize(CountedOn(s, postId), p.op.ids);
  }

  /** A single row is one counted comment of its post, or none. */
  lemma OneRow(rows: map<CommentId, Comment>, id: CommentId, postId: PostId)
    requires rows.Keys == {id}
    ensures CountedAmong(rows, postId) == if rows[id].postId == postId && IsCounted(rows[id]) then {id} else {}
  {
  }

  /** One row that is overwritten starts or stops to count, and no other does. */
  lemma PutCounted(s: State, id: CommentId, c: Comment, postId: PostId)
    requires id in s.comments && s.comments[id].postId == c.postId
    ensures |CountedOn(Put(s, id, c), postId)| - |CountedOn(s, postId)| ==
            if c.postId != postId || IsCounted(c) == IsCounted(s.comments[id]) then 0 else if IsCounted(c) then 1 else -1
  {
    var before, after := CountedOn(s, postId), CountedOn(Put(s, id, c), postId);
    assert after - {id} == before - {id};
    CountWithout(before, id);
    CountWithout(after, id);
  }

  lemma WrittenCounts(op: Transaction, c: Comment)
    requires !op.HardDeleteMany?
    ensures IsCounted(WrittenRow(op, c)) <==> op.Approve?
    ensures WrittenRow(op, c).postId == c.postId
  {
  }

  lemma RowLedger(s: State, p: Proc, postId: PostId)
    requires !p.op.HardDeleteMany? && !Idle(s, p) && p.seen.Keys == {p.op.id}
    requires s.comments[p.op.id].postId == p.seen[p.op.id].postId && postId in s.totals
    requires p.seen[p.op.id].postId in s.totals
    ensures var t := AfterWrite(s, p);
            t.totals[postId] - s.totals[postId] == |CountedOn(t, postId)| - |CountedOn(s, postId)|
              + |CountedAmong(RowsOf(s, p.op), postId)| - |CountedAmong(p.seen, postId)|
  {
    var id := p.op.id;
    var c := s.comments[id];
    OneRow(RowsOf(s, p.op), id, postId);
    OneRow(p.seen, id, postId);
    PutCounted(s, id, WrittenRow(p.op, c), postId);
    WrittenCounts(p.op, c);
    BumpKeepsRows(Put(s, id, WrittenRow(p.op, c)), p.seen[id].postId, Delta(p.op, p.seen[id]), postId);
  }

  lemma BumpKeepsRows(s: State, bumped: PostId, delta: int, postId: PostId)
    requires bumped in s.totals && postId in s.totals
    ensures var t := Bump(s, bumped, delta);
            && CountedOn(t, postId) == CountedOn(s, postId) && postId in t.totals
            && t.totals[postId] == s.totals[postId] + if bumped == postId then delta else 0
  {
  }

  lemma SkewStep(w: World, e: Event, postId: PostId)
    requires Inv(w) && Enabled(w, e) && postId in w.s.totals
    ensures var t := Apply(w, e).s;
            && postId in t.totals
            && t.totals[postId] - w.s.totals[postId]
               == |CountedOn(t, postId)| - |CountedOn(w.s, postId)| + Skew(w, e, postId)
  {
    match e {
      case Call(op) => LedgerStep(w.s, op, postId);
      case Write(proc) =>
        var p := w.procs[proc];
        assert ReadingOk(w, p);
        if !Idle(w.s, p) {
          if p.op.HardDeleteMany? {
            BulkLedger(w.s, p, postId);
          } else {
            assert p.seen.Keys == {p.op.id};
            RowLedger(w.s, p, postId);
          }
        }
      case _ =>
    }
  }

  ghost function Skews(ws: seq<World>, events: seq<Event>, n: nat, postId: PostId): int
    requires n <= |events| < |ws| && forall i :: 0 <= i < |events| ==> Enabled(ws[i], events[i])
  {
    if n == 0 then 0 else Skews(ws, events, n - 1, postId) + Skew(ws[n - 1], events[n - 1], postId)
  }

  /** In every interleaving of transactions and calls: a post's total is its number of counted comments and the skews of
      all steps so far. */
  lemma {:induction false} TotalIsCountPlusSkews(posts: set<PostId>, ws: seq<World>, events: seq<Event>, n: nat,
                                                 postId: PostId)
    requires IsRun(posts, ws, events) && n <= |events| && postId in posts
    ensures postId in ws[n].s.totals
    ensures ws[n].s.totals[postId] == |CountedOn(ws[n].s, postId)| + Skews(ws, events, n, postId)
  {
    RunInv(posts, ws, events, n);
    if n > 0 {
      TotalIsCountPlusSkews(posts, ws, events, n - 1, postId);
      RunInv(posts, ws, events, n - 1);
      assert Enabled(ws[n - 1], events[n - 1]);
      SkewStep(ws[n - 1], events[n - 1], postId);
    } else {
      assert CountedOn(ws[0].s, postId) == {};
    }
  }

  lemma SameTotals(s: State, op: Transaction)
    requires op.HardDeleteMany?
    ensures TotalsLess(s.totals, RowsOf(s, op)) == TotalsWithout(s, op.ids)
  {
    forall q | q in s.totals ensures TotalsLess(s.totals, RowsOf(s, op))[q] == TotalsWithout(s, op.ids)[q] {
      BulkRows(s, op, q);
    }
  }

  lemma RowIsStep(s: State, p: Proc)
    requires !p.op.HardDeleteMany? && p.seen == RowsOf(s, p.op) && p.op.id in s.comments
    ensures AfterWrite(s, p) == RowStep(s, p.op, s.comments[p.op.id])
  {
    assert p.seen[p.op.id] == s.comments[p.op.id];
    assert Bump(s, s.comments[p.op.id].postId, 0) == s;
  }

  /** A write over rows that are as they were read is the call of the run theorems. */
  lemma UndisturbedWriteIsStep(s: State, p: Proc)
    requires p.seen == RowsOf(s, p.op)
    ensures AfterWrite(s, p) == Step(s, p.op)
  {
    if p.op.HardDeleteMany? {
      SameTotals(s, p.op);
    } else if p.op.id in s.comments {
      RowIsStep(s, p);
    }
  }

  // ---- From the reading to the write ----

  /** A transaction reads at `k` and writes at `n`. */
  ghost predicate Spans(posts: set<PostId>, ws: seq<World>, events: seq<Event>, k: nat, n: nat) {
    && IsRun(posts, ws, events) && k < n < |events|
    && events[k].Read? && events[n] == Write(events[k].proc)
    && forall j :: k < j <= n ==> events[k].proc in ws[j].procs
  }

  lemma {:induction false} SameReading(posts: set<PostId>, ws: seq<World>, events: seq<Event>, k: nat, n: nat)
    requires IsRun(posts, ws, events) && k < n <= |events| && events[k].Read?
    requires forall j :: k < j <= n ==> events[k].proc in ws[j].procs
    ensures ws[n].procs[events[k].proc] == Proc(events[k].wanted, RowsOf(ws[k].s, events[k].wanted))
    decreases n
  {
    var j := n - 1;
    assert Enabled(ws[j], events[j]) && ws[j + 1] == Apply(ws[j], events[j]);
    if j > k {
      SameReading(posts, ws, events, k, j);
    }
  }

  /** A write that does something keeps every total less its counted comments as it was exactly when on every post as
      many of its rows count at the write as did at the reading. */
  lemma WriteKeepsBooksExactly(posts: set<PostId>, ws: seq<World>, events: seq<Event>, k: nat, n: nat)
    requires Spans(posts, ws, events, k, n) && !Idle(ws[n].s, ws[n].procs[events[n].proc])
    ensures var op := events[k].wanted;
            BooksKept(ws[n].s, ws[n + 1].s) <==>
              forall p :: p in posts ==> |CountedAmong(RowsOf(ws[n].s, op), p)| == |CountedAmong(RowsOf(ws[k].s, op), p)|
  {
    SameReading(posts, ws, events, k, n);
    RunInv(posts, ws, events, n);
    assert Enabled(ws[n], events[n]);
    RowsStep(ws[n], events[n]);
    var op := events[k].wanted;
    forall p | p in posts
      ensures ws[n + 1].s.totals[p] - |CountedOn(ws[n + 1].s, p)| - (ws[n].s.totals[p] - |CountedOn(ws[n].s, p)|)
              == |CountedAmong(RowsOf(ws[n].s, op), p)| - |CountedAmong(RowsOf(ws[k].s, op), p)|
    {
      SkewStep(ws[n], events[n], p);
    }
  }

  /** For a verdict or the deletion of one comment: exactly when the comment counts at the write just if it did at the
      reading. */
  lemma VerdictKeepsBooksExactly(posts: set<PostId>, ws: seq<World>, events: seq<Event>, k: nat, n: nat)
    requires Spans(posts, ws, events, k, n) && !Idle(ws[n].s, ws[n].procs[events[n].proc])
    requires !events[k].wanted.HardDeleteMany?
    ensures var id := events[k].wanted.id;
            && id in ws[k].s.comments && id in ws[n].s.comments
            && (BooksKept(ws[n].s, ws[n + 1].s) <==>
                  (IsCounted(ws[n].s.comments[id]) <==> IsCounted(ws[k].s.comments[id])))
  {
    var op := events[k].wanted;
    SameReading(posts, ws, events, k, n);
    RunInv(posts, ws, events, n);
    assert ReadingOk(ws[n], ws[n].procs[events[n].proc]);
    assert RowsOf(ws[k].s, op).Keys == {op.id} && RowsOf(ws[n].s, op).Keys == {op.id};
    forall p | p in posts
      ensures CountedAmong(RowsOf(ws[n].s, op), p)
              == if ws[n].s.comments[op.id].postId == p && IsCounted(ws[n].s.comments[op.id]) then {op.id} else {}
      ensures CountedAmong(RowsOf(ws[k].s, op), p)
              == if ws[k].s.comments[op.id].postId == p && IsCounted(ws[k].s.comments[op.id]) then {op.id} else {}
    {
      OneRow(RowsOf(ws[n].s, op), op.id, p);
      OneRow(RowsOf(ws[k].s, op), op.id, p);
    }
    WriteKeepsBooksExactly(posts, ws, events, k, n);
    assert ws[n].s.comments[op.id].postId in posts;
  }

  // ---- Deleted comments ----

  /** An approval that had read the comment while it could still be approved, and writes it now that it is deleted or
      rejected. */
  predicate Revives(w: World, e: Event, id: CommentId) {
    && e.Write? && e.proc in w.procs
    && (var p := w.procs[e.proc]; p.op.Approve? && p.op.id == id && !GivesUp(p))
    && id in w.s.comments && Settled(w.s, id)
  }

  /** The calls that set a status without looking at it, and a creation under this id. */
  predicate Overwrites(e: Event, id: CommentId) {
    e.Call? && (Unaccounted(e.op) || (e.op.Create? && e.op.id == id))
  }

  lemma SettledStepExactly(w: World, e: Event, id: CommentId)
    requires Enabled(w, e) && Settled(w.s, id) && !Overwrites(e, id)
    ensures Settled(Apply(w, e).s, id) <==> !Revives(w, e, id)
  {
  }

  /** While the comment is settled, no approval reads it as one it may approve. */
  lemma {:induction false} ReadBefore(posts: set<PostId>, ws: seq<World>, events: seq<Event>, k: nat, n: nat,
                                      q: ProcId, id: CommentId)
    requires IsRun(posts, ws, events) && k <= n <= |events| && forall j :: k <= j <= n ==> Settled(ws[j].s, id)
    requires q in ws[n].procs
    requires var p := ws[n].procs[q]; p.op.Approve? && p.op.id == id && !GivesUp(p)
    ensures q in ws[k].procs && ws[k].procs[q] == ws[n].procs[q]
    decreases n
  {
    if n > k {
      var j := n - 1;
      assert Enabled(ws[j], events[j]) && ws[j + 1] == Apply(ws[j], events[j]);
      assert Settled(ws[j].s, id);
      ReadBefore(posts, ws, events, k, j, q, id);
    }
  }

  /** A deleted or rejected comment is brought back only by an approval that had read it before: if there is none under
      way, it stays settled whatever verdicts, deletions and retries come. */
  lemma {:induction false} SettledUnlessReadBefore(posts: set<PostId>, ws: seq<World>, events: seq<Event>, k: nat, n: nat,
                                                   id: CommentId)
    requires IsRun(posts, ws, events) && k <= n <= |events| && Settled(ws[k].s, id)
    requires forall i :: k <= i < n ==> !Overwrites(events[i], id)
    requires forall q :: q in ws[k].procs && ws[k].procs[q].op.Approve? && ws[k].procs[q].op.id == id ==>
                           GivesUp(ws[k].procs[q])
    ensures forall j :: k <= j <= n ==> Settled(ws[j].s, id)
    decreases n
  {
    if n > k {
      var j := n - 1;
      SettledUnlessReadBefore(posts, ws, events, k, j, id);
      assert Enabled(ws[j], events[j]) && ws[j + 1] == Apply(ws[j], events[j]);
      SettledStepExactly(ws[j], events[j], id);
      if Revives(ws[j], events[j], id) {
        ReadBefore(posts, ws, events, k, j, events[j].proc, id);
        assert false;
      }
    }
  }

  // ---- What overlapping transactions do ----

  function Posted(status: Status, judge: Option<ModeratorType>, at: Option<nat>): Comment {
    Comment(7, status, judge, None, at)
  }

  function Scene(c: Comment, total: int, procs: map<ProcId, Proc>): World {
    World(State(map[1 := c], map[7 := total]), procs, {1})
  }

  lemma ReadAt(c: Comment, total: int, procs: map<ProcId, Proc>, proc: ProcId, op: Transaction)
    requires Ids(op) == {1} && proc !in procs
    ensures Apply(Scene(c, total, procs), Read(proc, op)) == Scene(c, total, procs[proc := Proc(op, map[1 := c])])
  {
    assert RowsOf(State(map[1 := c], map[7 := total]), op) == map[1 := c];
  }

  lemma BothRead(first: Transaction, second: Transaction, posts: set<PostId>, ws0: seq<World>, events0: seq<Event>,
                 c: Comment, total: int)
    returns (ws: seq<World>, events: seq<Event>)
    requires Ids(first) == Ids(second) == {1} && IsRun(posts, ws0, events0) && ws0[|events0|] == Scene(c, total, map[])
    ensures IsRun(posts, ws, events)
    ensures ws[|events|] == Scene(c, total, map[1 := Proc(first, map[1 := c]), 2 := Proc(second, map[1 := c])])
  {
    ReadAt(c, total, map[], 1, first);
    ExtendRun(posts, ws0, events0, Read(1, first));
    ws, events := ws0 + [Apply(ws0[|events0|], Read(1, first))], events0 + [Read(1, first)];
    var procs := map[1 := Proc(first, map[1 := c])];
    assert ws[|events|] == Scene(c, total, procs);
    ReadAt(c, total, procs, 2, second);
    ExtendRun(posts, ws, events, Read(2, second));
    ws, events := ws + [Apply(ws[|events|], Read(2, second))], events + [Read(2, second)];
  }

  lemma Write12(posts: set<PostId>, ws0: seq<World>, events0: seq<Event>, first: ProcId, second: ProcId)
    returns (ws: seq<World>, events: seq<Event>)
    requires IsRun(posts, ws0, events0) && ws0[|events0|].procs.Keys == {first, second} && first != second
    ensures IsRun(posts, ws, events)
    ensures var w := ws0[|events0|];
            ws[|events|] == World(AfterWrite(AfterWrite(w.s, w.procs[first]), w.procs[second]), map[], w.used)
  {
    ExtendRun(posts, ws0, events0, Write(first));
    ws, events := ws0 + [Apply(ws0[|events0|], Write(first))], events0 + [Write(first)];
    ExtendRun(posts, ws, events, Write(second));
    ws, events := ws + [Apply(ws[|events|], Write(second))], events + [Write(second)];
    assert ws[|events|].procs == map[];
  }

  lemma Commented() returns (ws: seq<World>, events: seq<Event>)
    ensures IsRun({7}, ws, events) && ws[|events|] == Scene(Posted(PENDING, None, None), 0, map[])
  {
    ws, events := [World(Initial({7}), map[], {})], [];
    ExtendRun({7}, ws, events, Call(Create(1, 7)));
    ws, events := ws + [Apply(ws[|events|], Call(Create(1, 7)))], events + [Call(Create(1, 7))];
    assert ws[|events|].s.totals == map[7 := 0];
  }

  /** Two approvals of one comment that both read it before either writes: the total is two, with one comment
      counted. */
  lemma TwoApprovalsCountTwice(at: nat) returns (ws: seq<World>, events: seq<Event>)
    ensures IsRun({7}, ws, events) && ws[|events|].procs == map[]
    ensures ws[|events|].s.totals == map[7 := 2] && CountedOn(ws[|events|].s, 7) == {1}
  {
    var c := Posted(PENDING, None, None);
    ws, events := Commented();
    ws, events := BothRead(Approve(1, at), Approve(1, at), {7}, ws, events, c, 0);
    ws, events := Write12({7}, ws, events, 1, 2);
  }

  /** An approval and a deletion that both read the comment: the deletion writes first, and the comment is back,
      published and counted. */
  lemma ApprovalRevives(at: nat) returns (ws: seq<World>, events: seq<Event>)
    ensures IsRun({7}, ws, events) && ws[|events|].procs == map[] && 1 in ws[|events|].s.comments
    ensures ws[|events|].s.comments[1].status == APPROVED && CountedOn(ws[|events|].s, 7) == {1}
    ensures exists k :: 0 <= k < |events| && 1 in ws[k].s.comments && ws[k].s.comments[1].status == DELETED
  {
    var c := Posted(PENDING, None, None);
    ws, events := Commented();
    ws, events := BothRead(Approve(1, at), Delete(1), {7}, ws, events, c, 0);
    ExtendRun({7}, ws, events, Write(2));
    ws, events := ws + [Apply(ws[|events|], Write(2))], events + [Write(2)];
    var k := |events|;
    assert ws[k].s.comments[1].status == DELETED;
    ExtendRun({7}, ws, events, Write(1));
    ws, events := ws + [Apply(ws[|events|], Write(1))], events + [Write(1)];
    assert ws[|events|].procs == map[];
    assert ws[k].s.comments[1].status == DELETED;
  }

  lemma Approved(at: nat) returns (ws: seq<World>, events: seq<Event>)
    ensures IsRun({7}, ws, events) && ws[|events|] == Scene(Posted(APPROVED, Some(AGENT), Some(at)), 1, map[])
  {
    var c := Posted(PENDING, None, None);
    ws, events := Commented();
    ReadAt(c, 0, map[], 1, Approve(1, at));
    ExtendRun({7}, ws, events, Read(1, Approve(1, at)));
    ws, events := ws + [Apply(ws[|events|], Read(1, Approve(1, at)))], events + [Read(1, Approve(1, at))];
    ExtendRun({7}, ws, events, Write(1));
    ws, events := ws + [Apply(ws[|events|], Write(1))], events + [Write(1)];
    assert ws[|events|].procs == map[];
  }

  /** Two deletions of one published comment at once: the total falls below zero. */
  lemma TwoDeletionsGoBelowZero(at: nat) returns (ws: seq<World>, events: seq<Event>)
    ensures IsRun({7}, ws, events) && ws[|events|].procs == map[]
    ensures ws[|events|].s.totals == map[7 := -1] && CountedOn(ws[|events|].s, 7) == {}
  {
    var c := Posted(APPROVED, Some(AGENT), Some(at));
    ws, events := Approved(at);
    ws, events := BothRead(Delete(1), Delete(1), {7}, ws, events, c, 1);
    ws, events := Write12({7}, ws, events, 1, 2);
  }
}
