/** Cursor paging through a chat: each page holds the newest messages strictly older than the cursor. */
module MessagePaging {
  import opened Wrappers

  type Time = nat
  type ChatId = nat

  datatype Msg = Msg(id: nat, createdAt: Time)

  datatype Page = Page(data: seq<Msg>, nextCursor: Option<Time>, hasMore: bool)

  const DEFAULT_LIMIT := 20

  /** The limit that is used; `None` stands for one that is not finite. */
  function SafeLimit(limit: Option<int>): (r: nat)
    ensures 1 <= r <= 50
    ensures limit.Some? && 1 <= limit.value <= 50 ==> r == limit.value
  {
    match limit
    case None => DEFAULT_LIMIT
    case Some(n) => if n < 1 then 1 else if n > 50 then 50 else n
  }

  function Eligible(live: set<Msg>, cursor: Option<Time>): set<Msg> {
    set m | m in live && (cursor.Some? ==> m.createdAt < cursor.value)
  }

  /** Different messages in descending order of creation, and none left out that is newer. */
  ghost predicate NewestOf(ms: set<Msg>, rows: seq<Msg>) {
    && (forall i :: 0 <= i < |rows| ==> rows[i] in ms)
    && (forall i, j :: 0 <= i < j < |rows| ==> rows[i] != rows[j] && rows[i].createdAt >= rows[j].createdAt)
    && (forall m, i :: m in ms && m !in rows && 0 <= i < |rows| ==> m.createdAt <= rows[i].createdAt)
  }

  /** What a page promises. Messages created at the same instant may come in any order, and be cut anywhere. */
  ghost predicate IsPage(live: set<Msg>, cursor: Option<Time>, limit: nat, p: Page) {
    var eligible := Eligible(live, cursor);
    && |p.data| == (if |eligible| > limit then limit else |eligible|)
    && NewestOf(eligible, p.data)
    && p.hasMore == (|eligible| > limit)
    && p.nextCursor == if p.hasMore && limit > 0 then Some(p.data[limit - 1].createdAt) else None
  }

  lemma {:induction false} NewestExists(ms: set<Msg>)
    requires ms != {}
    ensures exists m :: m in ms && forall x :: x in ms ==> x.createdAt <= m.createdAt
    decreases |ms|
  {
    var m :| m in ms;
    if ms != {m} {
      NewestExists(ms - {m});
      var n :| n in ms - {m} && forall x :: x in ms - {m} ==> x.createdAt <= n.createdAt;
      var top := if n.createdAt < m.createdAt then m else n;
      assert top in ms && forall x :: x in ms ==> x.createdAt <= top.createdAt;
    }
  }

  /** The first `take` rows of the query in descending order of creation; the order of equals is the database's. */
  method Newest(eligible: set<Msg>, take: nat) returns (rows: seq<Msg>)
    ensures |rows| == if take < |eligible| then take else |eligible|
    ensures NewestOf(eligible, rows)
  {
    rows := [];
    var rest := eligible;
    while |rows| < take && rest != {}
      invariant rest <= eligible && |rows| + |rest| == |eligible| && |rows| <= take
      invariant forall m :: m in eligible <==> m in rest || m in rows
      invariant forall i :: 0 <= i < |rows| ==> rows[i] !in rest
      invariant forall i, j :: 0 <= i < j < |rows| ==> rows[i] != rows[j] && rows[i].createdAt >= rows[j].createdAt
      invariant forall m, i :: m in rest && 0 <= i < |rows| ==> m.createdAt <= rows[i].createdAt
      decreases |rest|
    {
      NewestExists(rest);
      var m :| m in rest && forall x :: x in rest ==> x.createdAt <= m.createdAt;
      rows := rows + [m];
      rest := rest - {m};
    }
  }

  lemma NewestPrefix(ms: set<Msg>, rows: seq<Msg>, n: nat)
    requires NewestOf(ms, rows) && n <= |rows|
    ensures NewestOf(ms, rows[..n])
  {
    forall m, i | m in ms && m !in rows[..n] && 0 <= i < n ensures m.createdAt <= rows[i].createdAt {
      if j :| 0 <= j < |rows| && rows[j] == m {
        assert i < n <= j;
      }
    }
  }

  /** Reads one row more than asked for, to tell whether there is a next page. */
  method FindMessages(live: set<Msg>, cursor: Option<Time>, limit: nat) returns (page: Page)
    requires limit > 0
    ensures IsPage(live, cursor, limit, page)
    ensures page.hasMore <==> exists m :: m in live && (cursor.Some? ==> m.createdAt < cursor.value) && m !in page.data
    ensures page.nextCursor.Some? <==> page.hasMore
    ensures page.hasMore ==> |page.data| == limit && page.nextCursor == Some(page.data[limit - 1].createdAt)
  {
    var eligible := Eligible(live, cursor);
    var rows := Newest(eligible, limit + 1);
    var hasMore := |rows| > limit;
    var slice := if hasMore then rows[..limit] else rows;
    var nextCursor := if hasMore then Some(slice[|slice| - 1].createdAt) else None;
    page := Page(slice, nextCursor, hasMore);
    if hasMore {
      NewestPrefix(eligible, rows, limit);
    }
    MoreExactly(live, cursor, limit, page);
  }

  /** There is more exactly when the page leaves something out. */
  lemma MoreExactly(live: set<Msg>, cursor: Option<Time>, limit: nat, p: Page)
    requires IsPage(live, cursor, limit, p)
    ensures p.hasMore <==> exists m :: m in live && (cursor.Some? ==> m.createdAt < cursor.value) && m !in p.data
  {
    var eligible := Eligible(live, cursor);
    DataSize(p.data, eligible);
    if p.hasMore && forall m :: m in eligible ==> m in p.data {
      assert eligible <= SetOf(p.data);
      FullPageSize(p.data);
      SubsetSize(eligible, SetOf(p.data));
    }
    assert forall m :: m in eligible <==> m in live && (cursor.Some? ==> m.createdAt < cursor.value);
  }

  datatype PageError = NotAMember

  /** The service: members only, and between 1 and 50 messages a page whatever is asked for. */
  method GetMessages(live: set<Msg>, isMember: bool, cursor: Option<Time>, limit: Option<int>)
    returns (r: Result<Page, PageError>)
    ensures r.Success? <==> isMember
    ensures limit == None && isMember ==> IsPage(live, cursor, 20, r.value)
    ensures limit.Some? && isMember ==>
              IsPage(live, cursor, if limit.value < 1 then 1 else if limit.value <= 50 then limit.value else 50, r.value)
    ensures r.Failure? ==> r.error == NotAMember
  {
    if !isMember {
      return Failure(NotAMember);
    }
    var page := FindMessages(live, cursor, SafeLimit(limit));
    return Success(page);
  }

  // ---- Walking from page to page ----

  function CursorOf(pages: seq<Page>, i: nat): Option<Time>
    requires i <= |pages|
  {
    if i == 0 then None else pages[i - 1].nextCursor
  }

  /** From one page to the next, messages may be deleted, and any that arrive are newer than those there at the
      start. */
  ghost predicate Follows(first: set<Msg>, before: set<Msg>, after: set<Msg>) {
    forall m, x :: m in after - before && x in first ==> x.createdAt < m.createdAt
  }

  ghost predicate PageAt(live: seq<set<Msg>>, pages: seq<Page>, limit: nat, i: nat)
    requires i < |pages| == |live|
  {
    && IsPage(live[i], CursorOf(pages, i), limit, pages[i])
    && (i + 1 < |pages| ==> pages[i].nextCursor.Some? && Follows(live[0], live[i], live[i + 1]))
  }

  ghost predicate IsWalk(live: seq<set<Msg>>, pages: seq<Page>, limit: nat) {
    && limit > 0 && |pages| == |live| > 0
    && forall i {:trigger PageAt(live, pages, limit, i)} :: 0 <= i < |pages| ==> PageAt(live, pages, limit, i)
  }

  /** The cursor a page hands on. */
  function Next(p: Page): Time { if p.nextCursor.Some? then p.nextCursor.value else 0 }

  lemma PageBelowCursor(live: seq<set<Msg>>, pages: seq<Page>, limit: nat, i: nat, m: Msg)
    requires IsWalk(live, pages, limit) && 0 < i < |pages| && m in pages[i].data
    ensures m in live[i] && m.createdAt < Next(pages[i - 1])
  {
    assert PageAt(live, pages, limit, i - 1) && PageAt(live, pages, limit, i);
    var k :| 0 <= k < |pages[i].data| && pages[i].data[k] == m;
    assert m in Eligible(live[i], CursorOf(pages, i));
  }

  lemma PageAboveNext(live: seq<set<Msg>>, pages: seq<Page>, limit: nat, i: nat, m: Msg)
    requires IsWalk(live, pages, limit) && i < |pages| - 1 && m in pages[i].data
    ensures m.createdAt >= Next(pages[i])
  {
    assert PageAt(live, pages, limit, i);
    var k :| 0 <= k < |pages[i].data| && pages[i].data[k] == m;
  }

  /** The cursor is the creation time of a message of the page. */
  lemma CursorWitness(live: seq<set<Msg>>, pages: seq<Page>, limit: nat, i: nat) returns (m: Msg)
    requires IsWalk(live, pages, limit) && i < |pages| - 1
    ensures m in pages[i].data && m.createdAt == Next(pages[i])
  {
    assert PageAt(live, pages, limit, i);
    m := pages[i].data[limit - 1];
  }

  lemma {:induction false} CursorsDescend(live: seq<set<Msg>>, pages: seq<Page>, limit: nat, i: nat, j: nat)
    requires IsWalk(live, pages, limit) && i < j < |pages| - 1
    ensures Next(pages[j]) < Next(pages[i])
    decreases j
  {
    var m := CursorWitness(live, pages, limit, j);
    PageBelowCursor(live, pages, limit, j, m);
    if i < j - 1 {
      CursorsDescend(live, pages, limit, i, j - 1);
    }
  }

  /** Following the cursor never shows a message twice: every message of a later page is strictly older than every
      message of an earlier one. This needs no assumption on creation times. */
  lemma LaterPagesOlder(live: seq<set<Msg>>, pages: seq<Page>, limit: nat, i: nat, j: nat, a: Msg, b: Msg)
    requires IsWalk(live, pages, limit) && i < j < |pages| && a in pages[i].data && b in pages[j].data
    ensures b.createdAt < a.createdAt
  {
    PageAboveNext(live, pages, limit, i, a);
    PageBelowCursor(live, pages, limit, j, b);
    if i < j - 1 {
      CursorsDescend(live, pages, limit, i, j - 1);
    }
  }

  // ---- What arrives on the way does not matter ----

  lemma {:induction false} ArrivalsNewer(live: seq<set<Msg>>, pages: seq<Page>, limit: nat, i: nat, m: Msg, x: Msg)
    requires IsWalk(live, pages, limit) && i < |pages| && m in live[i] && m !in live[0] && x in live[0]
    ensures x.createdAt < m.createdAt
    decreases i
  {
    if i > 0 {
      if m in live[i - 1] {
        ArrivalsNewer(live, pages, limit, i - 1, m, x);
      } else {
        assert PageAt(live, pages, limit, i - 1);
      }
    }
  }

  /** Every page shows messages that were there at the start. */
  lemma {:induction false} PagesFromStart(live: seq<set<Msg>>, pages: seq<Page>, limit: nat, i: nat, m: Msg)
    requires IsWalk(live, pages, limit) && i < |pages| && m in pages[i].data
    ensures m in live[0] && m in live[i]
    decreases i
  {
    assert PageAt(live, pages, limit, i);
    var k :| 0 <= k < |pages[i].data| && pages[i].data[k] == m;
    assert m in Eligible(live[i], CursorOf(pages, i));
    if i > 0 && m !in live[0] {
      PageBelowCursor(live, pages, limit, i, m);
      var w := CursorWitness(live, pages, limit, i - 1);
      PagesFromStart(live, pages, limit, i - 1, w);
      ArrivalsNewer(live, pages, limit, i, m, w);
    }
  }

  // ---- Completeness ----

  /** There all along. */
  ghost predicate Stays(live: seq<set<Msg>>, m: Msg) {
    forall i :: 0 <= i < |live| ==> m in live[i]
  }

  ghost predicate Visited(pages: seq<Page>, m: Msg) {
    exists i :: 0 <= i < |pages| && m in pages[i].data
  }

  /** The page ends within a group of messages created at the same instant, and leaves out this one. */
  predicate CutOff(p: Page, m: Msg) {
    p.nextCursor == Some(m.createdAt) && m !in p.data
  }

  lemma {:induction false} DataSize(data: seq<Msg>, all: set<Msg>)
    requires forall i :: 0 <= i < |data| ==> data[i] in all
    requires forall i, j :: 0 <= i < j < |data| ==> data[i] != data[j]
    ensures |data| <= |all|
    ensures |data| == |all| ==> forall m :: m in all ==> m in data
    decreases |data|
  {
    if data != [] {
      assert data[0] in all;
      DataSize(data[1..], all - {data[0]});
      forall m | m in all && |data| == |all| ensures m in data {
        if m != data[0] {
          assert m in all - {data[0]};
          assert m in data[1..];
        }
      }
    } else {
      assert |all| == 0 ==> all == {};
    }
  }

  /** The last page shows all that is left. */
  lemma LastPageShowsRest(live: set<Msg>, cursor: Option<Time>, limit: nat, p: Page, m: Msg)
    requires IsPage(live, cursor, limit, p) && limit > 0 && p.nextCursor.None? && m in Eligible(live, cursor)
    ensures m in p.data
  {
    DataSize(p.data, Eligible(live, cursor));
  }

  /** From page `i` on, a message older than its cursor is shown, unless a page cuts it off. */
  lemma {:induction false} ShownFrom(live: seq<set<Msg>>, pages: seq<Page>, limit: nat, i: nat, m: Msg)
    requires IsWalk(live, pages, limit) && pages[|pages| - 1].nextCursor.None? && i < |pages| && Stays(live, m)
    requires m in Eligible(live[i], CursorOf(pages, i))
    requires forall k :: 0 <= k < |pages| ==> !CutOff(pages[k], m)
    ensures Visited(pages, m)
    decreases |pages| - i
  {
    assert PageAt(live, pages, limit, i);
    if m in pages[i].data {
    } else if i == |pages| - 1 {
      LastPageShowsRest(live[i], CursorOf(pages, i), limit, pages[i], m);
    } else {
      var w := CursorWitness(live, pages, limit, i);
      var k :| 0 <= k < |pages[i].data| && pages[i].data[k] == w;
      assert m.createdAt <= w.createdAt;
      assert !CutOff(pages[i], m);
      assert m in live[i + 1];
      ShownFrom(live, pages, limit, i + 1, m);
    }
  }

  /** A message cut off by a page is not on any other. */
  lemma CutOffIsLost(live: seq<set<Msg>>, pages: seq<Page>, limit: nat, i: nat, m: Msg)
    requires IsWalk(live, pages, limit) && i < |pages| - 1 && CutOff(pages[i], m)
    ensures !Visited(pages, m)
  {
    var w := CursorWitness(live, pages, limit, i);
    forall j | 0 <= j < |pages| ensures m !in pages[j].data {
      if m in pages[j].data {
        if j < i {
          LaterPagesOlder(live, pages, limit, j, i, m, w);
        } else if i < j {
          LaterPagesOlder(live, pages, limit, i, j, w, m);
        }
      }
    }
  }

  /** Following the cursor to the end shows a message that stays live exactly when no page cuts it off, that is, ends
      within a group of messages of the same instant and leaves it out. */
  lemma WalkShowsExactly(live: seq<set<Msg>>, pages: seq<Page>, limit: nat, m: Msg)
    requires IsWalk(live, pages, limit) && pages[|pages| - 1].nextCursor.None? && Stays(live, m)
    ensures Visited(pages, m) <==> forall i :: 0 <= i < |pages| ==> !CutOff(pages[i], m)
  {
    if i :| 0 <= i < |pages| && CutOff(pages[i], m) {
      assert i < |pages| - 1;
      CutOffIsLost(live, pages, limit, i, m);
    } else {
      assert m in live[0];
      ShownFrom(live, pages, limit, 0, m);
    }
  }

  ghost predicate DistinctTimes(ms: set<Msg>) {
    forall a, b :: a in ms && b in ms && a.createdAt == b.createdAt ==> a == b
  }

  lemma NoTieNoCut(live: seq<set<Msg>>, pages: seq<Page>, limit: nat, i: nat, m: Msg)
    requires IsWalk(live, pages, limit) && i < |pages| && pages[|pages| - 1].nextCursor.None?
    requires m in live[0] && DistinctTimes(live[0])
    ensures !CutOff(pages[i], m)
  {
    if i + 1 < |pages| {
      var w := CursorWitness(live, pages, limit, i);
      PagesFromStart(live, pages, limit, i, w);
      assert PageAt(live, pages, limit, i);
    }
  }

  /** With distinct creation times, every message that stays live is shown on exactly one page, however many newer ones
      arrive and others are deleted on the way. */
  lemma WalkShowsAllOnce(live: seq<set<Msg>>, pages: seq<Page>, limit: nat, m: Msg)
    requires IsWalk(live, pages, limit) && pages[|pages| - 1].nextCursor.None?
    requires Stays(live, m) && DistinctTimes(live[0])
    ensures exists i :: 0 <= i < |pages| && m in pages[i].data
                        && forall j :: 0 <= j < |pages| && m in pages[j].data ==> j == i
  {
    assert m in live[0];
    forall i | 0 <= i < |pages| ensures !CutOff(pages[i], m) {
      NoTieNoCut(live, pages, limit, i, m);
    }
    WalkShowsExactly(live, pages, limit, m);
    var i :| 0 <= i < |pages| && m in pages[i].data;
    forall j | 0 <= j < |pages| && m in pages[j].data ensures j == i {
      if j < i {
        LaterPagesOlder(live, pages, limit, j, i, m, m);
      } else if i < j {
        LaterPagesOlder(live, pages, limit, i, j, m, m);
      }
    }
  }

  // ---- The condition on the data ----

  function SetOf(data: seq<Msg>): set<Msg> { set m | m in data }

  lemma {:induction false} FullPageSize(data: seq<Msg>)
    requires forall i, j :: 0 <= i < j < |data| ==> data[i] != data[j]
    ensures |SetOf(data)| == |data|
  {
    if data != [] {
      var rest := data[1..];
      FullPageSize(rest);
      assert data[0] !in SetOf(rest);
      assert SetOf(data) == SetOf(rest) + {data[0]};
    }
  }

  function NewerThan(ms: set<Msg>, t: Time): set<Msg> { set m | m in ms && m.createdAt > t }

  function NotOlderThan(ms: set<Msg>, t: Time): set<Msg> { set m | m in ms && m.createdAt >= t }

  /** A page of this limit ends among the messages created at `t`: fewer are newer, and at least as many are not
      older. */
  predicate EndsAt(eligible: set<Msg>, limit: nat, t: Time) {
    |NewerThan(eligible, t)| < limit <= |NotOlderThan(eligible, t)|
  }

  /** It ends there and cannot show all of them. */
  predicate SplitsInstant(eligible: set<Msg>, limit: nat, t: Time) {
    |NewerThan(eligible, t)| < limit < |NotOlderThan(eligible, t)|
  }

  lemma SubsetSize(a: set<Msg>, b: set<Msg>)
    requires a <= b
    ensures |a| <= |b|
  {
    assert b == a + (b - a);
  }

  /** Some choice of the newest messages, in descending order, is always possible. */
  lemma {:induction false} NewestPossible(ms: set<Msg>, take: nat) returns (rows: seq<Msg>)
    requires take <= |ms|
    ensures |rows| == take && NewestOf(ms, rows)
    decreases take
  {
    if take == 0 {
      rows := [];
    } else {
      NewestExists(ms);
      var m :| m in ms && forall x :: x in ms ==> x.createdAt <= m.createdAt;
      var rest := NewestPossible(ms - {m}, take - 1);
      rows := [m] + rest;
    }
  }

  /** Where descending rows that leave out nothing newer end. */
  lemma RowsEndAt(ms: set<Msg>, rows: seq<Msg>)
    requires rows != [] && NewestOf(ms, rows)
    ensures EndsAt(ms, |rows|, rows[|rows| - 1].createdAt)
  {
    var last := rows[|rows| - 1];
    FullPageSize(rows);
    forall m | m in NewerThan(ms, last.createdAt) ensures m in SetOf(rows) - {last} {
    }
    SubsetSize(NewerThan(ms, last.createdAt), SetOf(rows) - {last});
    assert last in SetOf(rows);
    forall m | m in SetOf(rows) ensures m in NotOlderThan(ms, last.createdAt) {
      var i :| 0 <= i < |rows| && rows[i] == m;
    }
    SubsetSize(SetOf(rows), NotOlderThan(ms, last.createdAt));
  }

  /** There is only one such instant. */
  lemma EndUnique(ms: set<Msg>, limit: nat, t: Time, u: Time)
    requires EndsAt(ms, limit, t) && EndsAt(ms, limit, u)
    ensures t == u
  {
    if t < u {
      SubsetSize(NotOlderThan(ms, u), NewerThan(ms, t));
    } else if u < t {
      SubsetSize(NotOlderThan(ms, t), NewerThan(ms, u));
    }
  }

  lemma EndExists(ms: set<Msg>, limit: nat)
    requires 0 < limit <= |ms|
    ensures exists t :: EndsAt(ms, limit, t)
  {
    var rows := NewestPossible(ms, limit);
    RowsEndAt(ms, rows);
  }

  /** The cursor the next page will get, from the data alone. */
  ghost function EndOf(ms: set<Msg>, limit: nat): Option<Time> {
    if 0 < limit < |ms| then
      EndExists(ms, limit);
      var t :| EndsAt(ms, limit, t);
      Some(t)
    else None
  }

  lemma PageCursor(live: set<Msg>, cursor: Option<Time>, limit: nat, p: Page)
    requires IsPage(live, cursor, limit, p)
    ensures p.nextCursor == EndOf(Eligible(live, cursor), limit)
  {
    var eligible := Eligible(live, cursor);
    if 0 < limit < |eligible| {
      RowsEndAt(eligible, p.data);
      EndExists(eligible, limit);
      EndUnique(eligible, limit, p.data[limit - 1].createdAt, EndOf(eligible, limit).value);
    }
  }

  /** A page that shows a given choice of the newest messages of the others. */
  lemma CuttingPage(live: set<Msg>, cursor: Option<Time>, limit: nat, m: Msg) returns (p: Page)
    requires m in Eligible(live, cursor) && SplitsInstant(Eligible(live, cursor), limit, m.createdAt)
    ensures IsPage(live, cursor, limit, p) && CutOff(p, m)
  {
    var eligible := Eligible(live, cursor);
    var others := eligible - {m};
    SubsetSize(NotOlderThan(eligible, m.createdAt), eligible);
    var rows := NewestPossible(others, limit);
    RowsEndAt(others, rows);
    OthersEndAt(eligible, limit, m);
    EndUnique(others, limit, rows[limit - 1].createdAt, m.createdAt);
    LeftOutAtEnd(eligible, rows, m);
    p := Page(rows, Some(m.createdAt), true);
  }

  lemma LeftOutAtEnd(ms: set<Msg>, rows: seq<Msg>, m: Msg)
    requires NewestOf(ms - {m}, rows) && rows != [] && rows[|rows| - 1].createdAt == m.createdAt
    ensures NewestOf(ms, rows) && m !in rows
  {
    assert m !in rows;
    forall x, i | x in ms && x !in rows && 0 <= i < |rows| ensures x.createdAt <= rows[i].createdAt {
      assert x != m ==> x in ms - {m};
    }
  }

  lemma OthersEndAt(ms: set<Msg>, limit: nat, m: Msg)
    requires m in ms && SplitsInstant(ms, limit, m.createdAt)
    ensures EndsAt(ms - {m}, limit, m.createdAt)
  {
    assert NewerThan(ms - {m}, m.createdAt) == NewerThan(ms, m.createdAt);
    assert NotOlderThan(ms - {m}, m.createdAt) == NotOlderThan(ms, m.createdAt) - {m};
    assert m in NotOlderThan(ms, m.createdAt);
  }

  lemma CutSplits(live: set<Msg>, cursor: Option<Time>, limit: nat, p: Page, m: Msg)
    requires IsPage(live, cursor, limit, p) && limit > 0 && m in Eligible(live, cursor) && CutOff(p, m)
    ensures SplitsInstant(Eligible(live, cursor), limit, m.createdAt)
  {
    var eligible := Eligible(live, cursor);
    RowsEndAt(eligible, p.data);
    FullPageSize(p.data);
    forall x | x in SetOf(p.data) ensures x in NotOlderThan(eligible, m.createdAt) - {m} {
      var i :| 0 <= i < |p.data| && p.data[i] == x;
    }
    SubsetSize(SetOf(p.data), NotOlderThan(eligible, m.createdAt) - {m});
    assert m in NotOlderThan(eligible, m.createdAt);
  }

  /** Whether a page can cut a message off is settled by the data before the call: exactly when fewer messages than the
      limit are newer and more than the limit are not older. */
  lemma CutPossibleExactly(live: set<Msg>, cursor: Option<Time>, limit: nat, m: Msg)
    requires limit > 0 && m in Eligible(live, cursor)
    ensures (exists p :: IsPage(live, cursor, limit, p) && CutOff(p, m))
            <==> SplitsInstant(Eligible(live, cursor), limit, m.createdAt)
  {
    if SplitsInstant(Eligible(live, cursor), limit, m.createdAt) {
      var p := CuttingPage(live, cursor, limit, m);
    }
    forall p | IsPage(live, cursor, limit, p) && CutOff(p, m)
      ensures SplitsInstant(Eligible(live, cursor), limit, m.createdAt)
    {
      CutSplits(live, cursor, limit, p, m);
    }
  }

  /** The cursor of each page of a walk, from the messages live at each of its pages. */
  ghost function CursorAt(live: seq<set<Msg>>, limit: nat, i: nat): Option<Time>
    requires i <= |live|
  {
    if i == 0 then None else EndOf(Eligible(live[i - 1], CursorAt(live, limit, i - 1)), limit)
  }

  /** However ties are broken, every walk over the same messages follows the same cursors. */
  lemma {:induction false} WalkCursors(live: seq<set<Msg>>, pages: seq<Page>, limit: nat, i: nat)
    requires IsWalk(live, pages, limit) && i <= |pages|
    ensures CursorOf(pages, i) == CursorAt(live, limit, i)
  {
    if i > 0 {
      WalkCursors(live, pages, limit, i - 1);
      assert PageAt(live, pages, limit, i - 1);
      PageCursor(live[i - 1], CursorOf(pages, i - 1), limit, pages[i - 1]);
    }
  }

  /** The message is in danger at page `i`: the page splits its instant. */
  ghost predicate InDanger(live: seq<set<Msg>>, limit: nat, i: nat, m: Msg)
    requires i < |live|
  {
    var eligible := Eligible(live[i], CursorAt(live, limit, i));
    m in eligible && SplitsInstant(eligible, limit, m.createdAt)
  }

  lemma CutInDanger(live: seq<set<Msg>>, pages: seq<Page>, limit: nat, i: nat, m: Msg)
    requires IsWalk(live, pages, limit) && i < |pages| && Stays(live, m) && CutOff(pages[i], m)
    ensures InDanger(live, limit, i, m)
  {
    assert PageAt(live, pages, limit, i);
    WalkCursors(live, pages, limit, i);
    assert m in live[i];
    if i > 0 {
      assert PageAt(live, pages, limit, i - 1);
      var k := limit - 1;
      assert pages[i].data[k] in pages[i].data;
      PageBelowCursor(live, pages, limit, i, pages[i].data[k]);
    }
    CutSplits(live[i], CursorOf(pages, i), limit, pages[i], m);
  }

  /** Any page that breaks ties differently can take the place of another. */
  lemma ReplacedPage(live: seq<set<Msg>>, pages: seq<Page>, limit: nat, i: nat, p: Page)
    requires IsWalk(live, pages, limit) && i < |pages| && IsPage(live[i], CursorOf(pages, i), limit, p)
    ensures IsWalk(live, pages[i := p], limit)
  {
    var other := pages[i := p];
    assert PageAt(live, pages, limit, i);
    PageCursor(live[i], CursorOf(pages, i), limit, p);
    PageCursor(live[i], CursorOf(pages, i), limit, pages[i]);
    forall j | 0 <= j < |other| ensures PageAt(live, other, limit, j) {
      assert PageAt(live, pages, limit, j);
      assert CursorOf(other, j) == CursorOf(pages, j);
    }
  }

  /** The walk with one page replaced by one that cuts the message off. */
  lemma CuttingWalk(live: seq<set<Msg>>, pages: seq<Page>, limit: nat, i: nat, m: Msg) returns (other: seq<Page>)
    requires IsWalk(live, pages, limit) && pages[|pages| - 1].nextCursor.None? && i < |pages|
    requires InDanger(live, limit, i, m)
    ensures IsWalk(live, other, limit) && !Visited(other, m)
  {
    WalkCursors(live, pages, limit, i);
    var p := CuttingPage(live[i], CursorOf(pages, i), limit, m);
    ReplacedPage(live, pages, limit, i, p);
    other := pages[i := p];
    assert PageAt(live, pages, limit, i);
    PageCursor(live[i], CursorOf(pages, i), limit, p);
    PageCursor(live[i], CursorOf(pages, i), limit, pages[i]);
    assert i < |pages| - 1;
    CutOffIsLost(live, other, limit, i, m);
  }

  /** Of all the walks to the end over the same messages, every one shows a message that stays live exactly when no page
      splits its instant. Nothing here looks at a page: the condition is about the data and the limit. */
  lemma EveryWalkShowsExactly(live: seq<set<Msg>>, pages: seq<Page>, limit: nat, m: Msg)
    requires IsWalk(live, pages, limit) && pages[|pages| - 1].nextCursor.None? && Stays(live, m)
    ensures (forall other :: IsWalk(live, other, limit) ==> Visited(other, m))
            <==> forall i :: 0 <= i < |live| ==> !InDanger(live, limit, i, m)
  {
    if i :| 0 <= i < |live| && InDanger(live, limit, i, m) {
      var other := CuttingWalk(live, pages, limit, i, m);
    } else {
      forall other | IsWalk(live, other, limit) ensures Visited(other, m) {
        WalkCursors(live, other, limit, |other|);
        WalkCursors(live, pages, limit, |pages|);
        forall i | 0 <= i < |other| ensures !CutOff(other[i], m) {
          if CutOff(other[i], m) {
            CutInDanger(live, other, limit, i, m);
          }
        }
        WalkShowsExactly(live, other, limit, m);
      }
    }
  }

  /** Two messages of one instant and a page of one: the walk ends without ever showing the second. */
  lemma TieLosesMessage(a: Msg, b: Msg) returns (live: seq<set<Msg>>, pages: seq<Page>)
    requires a != b && a.createdAt == b.createdAt
    ensures IsWalk(live, pages, 1) && pages[|pages| - 1].nextCursor.None? && Stays(live, b) && !Visited(pages, b)
    ensures InDanger(live, 1, 0, b)
  {
    var all := {a, b};
    live := [all, all];
    pages := [Page([a], Some(a.createdAt), true), Page([], None, false)];
    assert Eligible(all, None) == all;
    assert |all| == 2;
    assert Eligible(all, Some(a.createdAt)) == {};
    assert CursorOf(pages, 0) == None && CursorOf(pages, 1) == Some(a.createdAt);
    assert PageAt(live, pages, 1, 0);
    assert PageAt(live, pages, 1, 1);
    assert CutOff(pages[0], b);
    CutInDanger(live, pages, 1, 0, b);
  }

  // ---- Termination ----

  ghost function ShownBy(pages: seq<Page>, n: nat): set<Msg>
    requires n <= |pages|
  {
    if n == 0 then {} else ShownBy(pages, n - 1) + SetOf(pages[n - 1].data)
  }

  lemma {:induction false} ShownMember(pages: seq<Page>, n: nat, m: Msg)
    requires n <= |pages|
    ensures m in ShownBy(pages, n) <==> exists i :: 0 <= i < n && m in pages[i].data
  {
    if n > 0 {
      ShownMember(pages, n - 1, m);
    }
  }

  lemma NewOnPage(live: seq<set<Msg>>, pages: seq<Page>, limit: nat, n: nat, m: Msg)
    requires IsWalk(live, pages, limit) && n < |pages| && m in pages[n].data
    ensures m !in ShownBy(pages, n) && m in live[0]
  {
    PagesFromStart(live, pages, limit, n, m);
    ShownMember(pages, n, m);
    forall i | 0 <= i < n ensures m !in pages[i].data {
      if m in pages[i].data {
        LaterPagesOlder(live, pages, limit, i, n, m, m);
      }
    }
  }

  lemma FullPage(live: seq<set<Msg>>, pages: seq<Page>, limit: nat, n: nat)
    requires IsWalk(live, pages, limit) && n + 1 < |pages|
    ensures |SetOf(pages[n].data)| == limit
  {
    assert PageAt(live, pages, limit, n);
    FullPageSize(pages[n].data);
  }

  lemma PageIsNew(live: seq<set<Msg>>, pages: seq<Page>, limit: nat, n: nat)
    requires IsWalk(live, pages, limit) && n < |pages|
    ensures SetOf(pages[n].data) <= live[0]
    ensures forall m :: m in SetOf(pages[n].data) ==> m !in ShownBy(pages, n)
  {
    forall m | m in SetOf(pages[n].data) ensures m !in ShownBy(pages, n) && m in live[0] {
      NewOnPage(live, pages, limit, n, m);
    }
  }

  lemma OneMore(n: nat, limit: nat)
    ensures (n + 1) * limit == n * limit + limit
  {
  }

  lemma {:induction false} FullPagesCount(live: seq<set<Msg>>, pages: seq<Page>, limit: nat, n: nat)
    requires IsWalk(live, pages, limit) && n < |pages|
    ensures |ShownBy(pages, n)| == n * limit && ShownBy(pages, n) <= live[0]
  {
    if n > 0 {
      FullPagesCount(live, pages, limit, n - 1);
      FullPage(live, pages, limit, n - 1);
      PageIsNew(live, pages, limit, n - 1);
      OneMore(n - 1, limit);
    }
  }

  /** Following the cursor stops: all pages but the last are full, with messages that were there at the start. */
  lemma WalkStops(live: seq<set<Msg>>, pages: seq<Page>, limit: nat)
    requires IsWalk(live, pages, limit)
    ensures (|pages| - 1) * limit <= |live[0]|
  {
    FullPagesCount(live, pages, limit, |pages| - 1);
    var shown := ShownBy(pages, |pages| - 1);
    assert live[0] == shown + (live[0] - shown);
  }
}
