/** Files linked to posts: quotas, one main image a post, and inserts that skip duplicates. Linking runs under the
    post's row lock; each operation is one step. */
module PostFiles {
  import opened Wrappers

  type PostId = nat
  type FileId = nat

  const MAX_FILES_PER_POST := 10
  const MAX_TOTAL_FILE_SIZE_PER_POST_BYTES := 25 * 1024 * 1024

  datatype Provider = CLOUDINARY | OTHER_PROVIDER

  datatype NewFile = NewFile(postId: PostId, uploadedById: string, storageKey: string, provider: Provider, size: nat,
                             mainImage: Option<bool>)

  datatype Row = Row(id: FileId, postId: PostId, uploadedById: string, storageKey: string, provider: Provider, size: nat,
                     mainImage: bool)

  /** The unique key of the table. */
  datatype Key = Key(postId: PostId, provider: Provider, storageKey: string)

  datatype State = State(rows: seq<Row>, nextId: FileId)

  datatype Op =
    | Link(data: seq<NewFile>)
    | SetMain(postId: PostId, fileId: FileId)
    | DeleteById(fileId: FileId)
    | DeleteByKeys(postId: PostId, storageKeys: set<string>)

  datatype DeleteReply = FileNotFound | KeptForRetry | FileDeleted

  datatype DeleteAllReply = NoFilesToDelete | SomeKeptForRetry | AllDeleted(count: nat)

  datatype LinkReply = NoFiles | InvalidScope | TooManyFiles | TooLarge | NothingLinked | Linked(count: nat)

  // ---- What a post has ----

  function Count(rows: seq<Row>, postId: PostId): nat {
    if rows == [] then 0
    else Count(rows[..|rows| - 1], postId) + if rows[|rows| - 1].postId == postId then 1 else 0
  }

  function TotalSize(rows: seq<Row>, postId: PostId): nat {
    if rows == [] then 0
    else TotalSize(rows[..|rows| - 1], postId) + if rows[|rows| - 1].postId == postId then rows[|rows| - 1].size else 0
  }

  function Mains(rows: seq<Row>, postId: PostId): nat {
    if rows == [] then 0
    else
      var last := rows[|rows| - 1];
      Mains(rows[..|rows| - 1], postId) + if last.postId == postId && last.mainImage then 1 else 0
  }

  lemma Appended(rows: seq<Row>, r: Row, postId: PostId)
    ensures Count(rows + [r], postId) == Count(rows, postId) + if r.postId == postId then 1 else 0
    ensures TotalSize(rows + [r], postId) == TotalSize(rows, postId) + if r.postId == postId then r.size else 0
    ensures Mains(rows + [r], postId) == Mains(rows, postId) + if r.postId == postId && r.mainImage then 1 else 0
  {
    assert (rows + [r])[..|rows|] == rows;
  }

  ghost function FilesOf(rows: seq<Row>, postId: PostId): set<nat> {
    set i: nat | i < |rows| && rows[i].postId == postId
  }

  ghost function MainsOf(rows: seq<Row>, postId: PostId): set<nat> {
    set i: nat | i < |rows| && rows[i].postId == postId && rows[i].mainImage
  }

  lemma OneMore(rows: seq<Row>, r: Row, postId: PostId)
    ensures FilesOf(rows + [r], postId) == FilesOf(rows, postId) + if r.postId == postId then {|rows|} else {}
    ensures MainsOf(rows + [r], postId)
            == MainsOf(rows, postId) + if r.postId == postId && r.mainImage then {|rows|} else {}
  {
  }

  /** The counting queries count the rows of the post, and its main images. */
  lemma {:induction false} CountedExactly(rows: seq<Row>, postId: PostId)
    ensures Count(rows, postId) == |FilesOf(rows, postId)|
    ensures Mains(rows, postId) == |MainsOf(rows, postId)|
  {
    if rows != [] {
      CountedExactly(rows[..|rows| - 1], postId);
      OneMore(rows[..|rows| - 1], rows[|rows| - 1], postId);
      assert rows == rows[..|rows| - 1] + [rows[|rows| - 1]];
    }
  }

  // ---- The scope check ----

  function NormalizedSlashes(s: string): string {
    seq(|s|, i requires 0 <= i < |s| => if s[i] == '\\' then '/' else s[i])
  }

  predicate OccursAt(s: string, fragment: string, i: nat) {
    i + |fragment| <= |s| && s[i..i + |fragment|] == fragment
  }

  predicate Includes(s: string, fragment: string) {
    exists i :: 0 <= i <= |s| && OccursAt(s, fragment, i)
  }

  predicate InScope(f: NewFile, first: NewFile) {
    && f.postId == first.postId && f.uploadedById == first.uploadedById
    && Includes(NormalizedSlashes(f.storageKey), "/" + first.uploadedById + "/posts/")
  }

  predicate ScopeValid(data: seq<NewFile>) {
    data != [] && forall i :: 0 <= i < |data| ==> InScope(data[i], data[0])
  }

  /** The characters are equal, a backslash in the key standing for a slash. */
  predicate Matches(c: char, d: char) { if c == '\\' then d == '/' else c == d }

  ghost predicate HasFolderAt(key: string, folder: string, i: nat) {
    i + |folder| <= |key| && forall j :: 0 <= j < |folder| ==> Matches(key[i + j], folder[j])
  }

  /** The key has the folder of the user's posts somewhere in it. */
  ghost predicate UnderPostsOf(key: string, user: string) {
    exists i: nat :: HasFolderAt(key, "/" + user + "/posts/", i)
  }

  lemma IncludesExactly(key: string, folder: string)
    ensures Includes(NormalizedSlashes(key), folder) <==> exists i: nat :: HasFolderAt(key, folder, i)
  {
    var s := NormalizedSlashes(key);
    if i :| 0 <= i <= |s| && OccursAt(s, folder, i) {
      forall j | 0 <= j < |folder| ensures Matches(key[i + j], folder[j]) {
        assert s[i..i + |folder|][j] == s[i + j];
      }
      assert HasFolderAt(key, folder, i);
    }
    if i: nat :| HasFolderAt(key, folder, i) {
      assert s[i..i + |folder|] == folder;
      assert OccursAt(s, folder, i);
    }
  }

  ghost predicate InScopeOf(f: NewFile, postId: PostId, user: string) {
    f.postId == postId && f.uploadedById == user && UnderPostsOf(f.storageKey, user)
  }

  /** A batch passes exactly when it has files, all of one post and one user, each stored under that user's posts. */
  lemma ScopeValidExactly(data: seq<NewFile>)
    ensures ScopeValid(data) <==>
            data != [] && forall i :: 0 <= i < |data| ==> InScopeOf(data[i], data[0].postId, data[0].uploadedById)
  {
    forall i | 0 <= i < |data| ensures InScope(data[i], data[0]) <==>
                                       InScopeOf(data[i], data[0].postId, data[0].uploadedById) {
      IncludesExactly(data[i].storageKey, "/" + data[0].uploadedById + "/posts/");
    }
  }

  // ---- The main image of a batch ----

  predicate AsksMain(f: NewFile) { f.mainImage == Some(true) }

  /** The first asking index from `i` on, or zero. */
  function FindAsking(data: seq<NewFile>, i: nat): (m: nat)
    ensures data != [] ==> m < |data|
    decreases |data| - i
  {
    if i >= |data| then 0 else if AsksMain(data[i]) then i else FindAsking(data, i + 1)
  }

  /** The file that becomes the main image: the first that asks, else the first. */
  function DesignatedMain(data: seq<NewFile>): (m: nat)
    ensures data != [] ==> m < |data|
  {
    FindAsking(data, 0)
  }

  /** No earlier file asks; and this one does, unless none does and it is the first. */
  ghost predicate IsDesignated(data: seq<NewFile>, m: nat) {
    && m < |data|
    && (forall j :: 0 <= j < m ==> !AsksMain(data[j]))
    && (AsksMain(data[m]) || (m == 0 && forall j :: 0 <= j < |data| ==> !AsksMain(data[j])))
  }

  lemma {:induction false} FindAskingFrom(data: seq<NewFile>, i: nat)
    requires data != [] && i <= |data| && forall j :: 0 <= j < i ==> !AsksMain(data[j])
    ensures IsDesignated(data, FindAsking(data, i))
    decreases |data| - i
  {
    if i < |data| && !AsksMain(data[i]) {
      FindAskingFrom(data, i + 1);
    }
  }

  /** The batch as it is inserted. */
  function Normalized(data: seq<NewFile>, hasExistingMain: bool): (r: seq<NewFile>)
    ensures |r| == |data|
  {
    seq(|data|, i requires 0 <= i < |data| => data[i].(mainImage := Some(!hasExistingMain && i == DesignatedMain(data))))
  }

  /** How many files of a batch would become main images. */
  function MainCount(data: seq<NewFile>): nat {
    if data == [] then 0 else MainCount(data[..|data| - 1]) + if AsksMain(data[|data| - 1]) then 1 else 0
  }

  lemma {:induction false} CountOfOne(data: seq<NewFile>, m: nat)
    requires forall i :: 0 <= i < |data| && AsksMain(data[i]) ==> i == m
    ensures MainCount(data) == if m < |data| && AsksMain(data[m]) then 1 else 0
  {
    if data != [] {
      var init := data[..|data| - 1];
      assert forall i :: 0 <= i < |init| ==> init[i] == data[i];
      CountOfOne(init, m);
    }
  }

  /** A normalised batch has no main image if the post has one already or the batch is empty, and otherwise exactly one:
      the first file that asked, or the first of all if none did. Nothing else about the files changes. */
  lemma NormalizedMains(data: seq<NewFile>, hasExistingMain: bool)
    ensures var r := Normalized(data, hasExistingMain);
            && MainCount(r) == (if hasExistingMain || data == [] then 0 else 1)
            && (forall m: nat :: m < |r| && AsksMain(r[m]) ==> IsDesignated(data, m))
            && (forall i :: 0 <= i < |data| ==> r[i].(mainImage := data[i].mainImage) == data[i])
  {
    if data != [] {
      FindAskingFrom(data, 0);
    }
    CountOfOne(Normalized(data, hasExistingMain), DesignatedMain(data));
  }

  /** The batch with every main image as it was asked for, or with none. */
  function AsAsked(data: seq<NewFile>, hasExistingMain: bool): (r: seq<NewFile>)
    ensures |r| == |data|
  {
    seq(|data|, i requires 0 <= i < |data| => data[i].(mainImage := Some(AsksMain(data[i]) && !hasExistingMain)))
  }

  /** Clears every request but the first, in place; without any, the first file becomes the main image. */
  method KeepOneRequest(normalized: array<NewFile>, ghost data: seq<NewFile>)
    requires normalized[..] == AsAsked(data, false)
    modifies normalized
    ensures normalized[..] == Normalized(data, false)
  {
    if data != [] {
      FindAskingFrom(data, 0);
    }
    var mainAssigned := false;
    var i := 0;
    while i < normalized.Length
      invariant 0 <= i <= normalized.Length == |data|
      invariant mainAssigned <==> exists j :: 0 <= j < i && AsksMain(data[j])
      invariant forall j :: 0 <= j < i ==>
        normalized[j] == data[j].(mainImage := Some(AsksMain(data[j]) && j == DesignatedMain(data)))
      invariant forall j :: i <= j < |data| ==> normalized[j] == data[j].(mainImage := Some(AsksMain(data[j])))
    {
      if normalized[i].mainImage == Some(true) && !mainAssigned {
        mainAssigned := true;
      } else if normalized[i].mainImage == Some(true) && mainAssigned {
        normalized[i] := normalized[i].(mainImage := Some(false));
      }
      i := i + 1;
    }
    if !mainAssigned && normalized.Length > 0 {
      normalized[0] := normalized[0].(mainImage := Some(true));
    }
  }

  method NormalizeMainImageValues(data: seq<NewFile>, hasExistingMain: bool) returns (r: seq<NewFile>)
    ensures r == Normalized(data, hasExistingMain)
    ensures MainCount(r) == if hasExistingMain || data == [] then 0 else 1
    ensures forall m: nat :: m < |r| && AsksMain(r[m]) ==> IsDesignated(data, m)
    ensures forall i :: 0 <= i < |data| ==> r[i].(mainImage := data[i].mainImage) == data[i]
  {
    var normalized := new NewFile[|data|](i requires 0 <= i < |data| =>
      data[i].(mainImage := Some(AsksMain(data[i]) && !hasExistingMain)));
    assert normalized[..] == AsAsked(data, hasExistingMain);
    if hasExistingMain {
      assert normalized[..] == Normalized(data, true);
    } else {
      KeepOneRequest(normalized, data);
    }
    NormalizedMains(data, hasExistingMain);
    return normalized[..];
  }

  // ---- Inserting ----

  function KeyOf(f: NewFile): Key { Key(f.postId, f.provider, f.storageKey) }

  function RowKey(r: Row): Key { Key(r.postId, r.provider, r.storageKey) }

  predicate Taken(rows: seq<Row>, k: Key) {
    exists i :: 0 <= i < |rows| && RowKey(rows[i]) == k
  }

  function RowFor(f: NewFile, id: FileId): Row {
    Row(id, f.postId, f.uploadedById, f.storageKey, f.provider, f.size, AsksMain(f))
  }

  /** A bulk insert that skips rows whose key is taken. */
  function InsertAll(s: State, data: seq<NewFile>): State
    decreases |data|
  {
    if data == [] then s
    else if Taken(s.rows, KeyOf(data[0])) then InsertAll(s, data[1..])
    else InsertAll(State(s.rows + [RowFor(data[0], s.nextId)], s.nextId + 1), data[1..])
  }

  function SizeOf(data: seq<NewFile>): nat {
    if data == [] then 0 else data[0].size + SizeOf(data[1..])
  }

  /** At most the whole batch is added, and to its own post only. */
  lemma {:induction false} InsertedAtMost(s: State, data: seq<NewFile>, postId: PostId, p: PostId)
    requires forall i :: 0 <= i < |data| ==> data[i].postId == postId
    ensures var t := InsertAll(s, data);
            && s.rows <= t.rows
            && Count(t.rows, p) == Count(s.rows, p) + (if p == postId then |t.rows| - |s.rows| else 0)
            && |t.rows| - |s.rows| <= |data|
            && TotalSize(s.rows, p) <= TotalSize(t.rows, p)
            && TotalSize(t.rows, p) <= TotalSize(s.rows, p) + (if p == postId then SizeOf(data) else 0)
            && (p != postId ==> Mains(t.rows, p) == Mains(s.rows, p))
    decreases |data|
  {
    if data != [] {
      if Taken(s.rows, KeyOf(data[0])) {
        InsertedAtMost(s, data[1..], postId, p);
      } else {
        Appended(s.rows, RowFor(data[0], s.nextId), p);
        InsertedAtMost(State(s.rows + [RowFor(data[0], s.nextId)], s.nextId + 1), data[1..], postId, p);
      }
    }
  }

  /** Without a main image in the batch none is added. */
  lemma {:induction false} NoMainInserted(s: State, data: seq<NewFile>, p: PostId)
    requires forall i :: 0 <= i < |data| ==> !AsksMain(data[i])
    ensures Mains(InsertAll(s, data).rows, p) == Mains(s.rows, p)
    decreases |data|
  {
    if data != [] {
      assert !AsksMain(data[0]);
      if Taken(s.rows, KeyOf(data[0])) {
        NoMainInserted(s, data[1..], p);
      } else {
        Appended(s.rows, RowFor(data[0], s.nextId), p);
        NoMainInserted(State(s.rows + [RowFor(data[0], s.nextId)], s.nextId + 1), data[1..], p);
      }
    }
  }

  /** The file is skipped: its key is taken already, or comes earlier in the batch. */
  ghost predicate IsSkipped(s: State, data: seq<NewFile>, m: nat)
    requires m < |data|
  {
    Taken(s.rows, KeyOf(data[m])) || exists j :: 0 <= j < m && KeyOf(data[j]) == KeyOf(data[m])
  }

  /** With one main image in the batch, one is added exactly when that file is not skipped. */
  lemma {:induction false} OneMainInserted(s: State, data: seq<NewFile>, m: nat)
    requires m < |data| && forall i :: 0 <= i < |data| ==> (AsksMain(data[i]) <==> i == m)
    ensures Mains(InsertAll(s, data).rows, data[m].postId)
            == Mains(s.rows, data[m].postId) + if IsSkipped(s, data, m) then 0 else 1
    decreases |data|
  {
    var p, rest := data[m].postId, data[1..];
    var skipped := Taken(s.rows, KeyOf(data[0]));
    var t := if skipped then s else State(s.rows + [RowFor(data[0], s.nextId)], s.nextId + 1);
    assert InsertAll(s, data) == InsertAll(t, rest);
    Appended(s.rows, RowFor(data[0], s.nextId), p);
    if m == 0 {
      assert forall i :: 0 <= i < |rest| ==> rest[i] == data[i + 1];
      NoMainInserted(t, rest, p);
    } else {
      assert forall i :: 0 <= i < |rest| ==> rest[i] == data[i + 1];
      OneMainInserted(t, rest, m - 1);
      SkippedShifts(s, data, m, t);
    }
  }

  lemma SkippedShifts(s: State, data: seq<NewFile>, m: nat, t: State)
    requires 0 < m < |data|
    requires t == if Taken(s.rows, KeyOf(data[0])) then s
                  else State(s.rows + [RowFor(data[0], s.nextId)], s.nextId + 1)
    ensures IsSkipped(t, data[1..], m - 1) <==> IsSkipped(s, data, m)
  {
    var rest, k := data[1..], KeyOf(data[m]);
    assert rest[m - 1] == data[m];
    TakenAfter(s, data[0], t, k);
    if j :| 0 <= j < m && KeyOf(data[j]) == k {
      if j > 0 {
        assert KeyOf(rest[j - 1]) == k;
      }
    }
    if j :| 0 <= j < m - 1 && KeyOf(rest[j]) == k {
      assert KeyOf(data[j + 1]) == k;
    }
  }

  lemma TakenAfter(s: State, f: NewFile, t: State, k: Key)
    requires t == if Taken(s.rows, KeyOf(f)) then s else State(s.rows + [RowFor(f, s.nextId)], s.nextId + 1)
    ensures Taken(t.rows, k) <==> Taken(s.rows, k) || k == KeyOf(f)
  {
    if !Taken(s.rows, KeyOf(f)) {
      assert t.rows[|s.rows|] == RowFor(f, s.nextId);
      if i :| 0 <= i < |s.rows| && RowKey(s.rows[i]) == k {
        assert RowKey(t.rows[i]) == k;
      }
      if k == KeyOf(f) {
        assert RowKey(t.rows[|s.rows|]) == k;
      }
    }
  }

  /** The row was made from the file, whose key comes first in the batch. */
  ghost predicate MadeFrom(r: Row, data: seq<NewFile>, m: nat) {
    && m < |data| && (forall j :: 0 <= j < m ==> KeyOf(data[j]) != KeyOf(data[m]))
    && r.postId == data[m].postId && r.uploadedById == data[m].uploadedById && r.storageKey == data[m].storageKey
    && r.provider == data[m].provider && r.size == data[m].size && r.mainImage == (data[m].mainImage == Some(true))
  }

  /** The rows after those of `s` are numbered on, and each was made from a file of the batch. */
  ghost predicate AddsRows(s: State, data: seq<NewFile>, t: State) {
    && s.rows <= t.rows && t.nextId == s.nextId + |t.rows| - |s.rows|
    && forall n :: |s.rows| <= n < |t.rows| ==>
         t.rows[n].id == s.nextId + n - |s.rows| && exists m: nat :: MadeFrom(t.rows[n], data, m)
  }

  /** No old row changes, and every new one is a file of the batch, whole. */
  lemma {:induction false} InsertedRows(s: State, data: seq<NewFile>)
    ensures AddsRows(s, data, InsertAll(s, data))
    ensures forall n, j :: |s.rows| <= n < |InsertAll(s, data).rows| && 0 <= j < |s.rows| ==>
              RowKey(InsertAll(s, data).rows[n]) != RowKey(s.rows[j])
    decreases |data|
  {
    if data != [] {
      var t := InsertAll(s, data);
      var u := if Taken(s.rows, KeyOf(data[0])) then s
               else State(s.rows + [RowFor(data[0], s.nextId)], s.nextId + 1);
      InsertedRows(u, data[1..]);
      TakenAfter(s, data[0], u, KeyOf(data[0]));
      forall n | |s.rows| <= n < |t.rows| ensures exists m: nat :: MadeFrom(t.rows[n], data, m) {
        if n < |u.rows| {
          assert MadeFrom(t.rows[n], data, 0);
        } else {
          var m: nat :| MadeFrom(t.rows[n], data[1..], m);
          MadeFromLater(s, data, u, t.rows[n], m);
        }
      }
    }
  }

  lemma MadeFromLater(s: State, data: seq<NewFile>, u: State, r: Row, m: nat)
    requires data != [] && MadeFrom(r, data[1..], m)
    requires Taken(u.rows, KeyOf(data[0])) && !Taken(u.rows, RowKey(r))
    ensures MadeFrom(r, data, m + 1)
  {
    assert forall j :: 1 <= j <= m + 1 ==> data[1..][j - 1] == data[j];
  }

  ghost predicate UniqueKeys(rows: seq<Row>) {
    forall i, j :: 0 <= i < j < |rows| ==> RowKey(rows[i]) != RowKey(rows[j])
  }

  lemma AppendedKey(rows: seq<Row>, r: Row)
    requires UniqueKeys(rows) && !Taken(rows, RowKey(r))
    ensures UniqueKeys(rows + [r])
  {
  }

  /** Afterwards exactly the old keys and those of the batch are taken, each by one row. */
  lemma {:induction false} InsertedKeys(s: State, data: seq<NewFile>, k: Key)
    ensures UniqueKeys(s.rows) ==> UniqueKeys(InsertAll(s, data).rows)
    ensures Taken(InsertAll(s, data).rows, k) <==>
            Taken(s.rows, k) || exists j :: 0 <= j < |data| && KeyOf(data[j]) == k
    decreases |data|
  {
    if data != [] {
      var t := if Taken(s.rows, KeyOf(data[0])) then s
               else State(s.rows + [RowFor(data[0], s.nextId)], s.nextId + 1);
      if t != s && UniqueKeys(s.rows) {
        AppendedKey(s.rows, RowFor(data[0], s.nextId));
      }
      TakenAfter(s, data[0], t, k);
      InsertedKeys(t, data[1..], k);
      assert forall j :: 1 <= j < |data| ==> data[1..][j - 1] == data[j];
    }
  }

  /** Nothing is added exactly when every file of the batch is there already. */
  lemma {:induction false} NothingInsertedExactly(s: State, data: seq<NewFile>)
    ensures |InsertAll(s, data).rows| == |s.rows| <==>
            forall j :: 0 <= j < |data| ==> Taken(s.rows, KeyOf(data[j]))
    ensures |InsertAll(s, data).rows| >= |s.rows|
    decreases |data|
  {
    if data != [] {
      if Taken(s.rows, KeyOf(data[0])) {
        NothingInsertedExactly(s, data[1..]);
        assert forall j :: 1 <= j < |data| ==> data[1..][j - 1] == data[j];
      } else {
        NothingInsertedExactly(State(s.rows + [RowFor(data[0], s.nextId)], s.nextId + 1), data[1..]);
      }
    }
  }

  // ---- The other operations ----

  function Without(rows: seq<Row>, gone: Row -> bool): seq<Row> {
    if rows == [] then []
    else if gone(rows[|rows| - 1]) then Without(rows[..|rows| - 1], gone)
    else Without(rows[..|rows| - 1], gone) + [rows[|rows| - 1]]
  }

  lemma {:induction false} WithoutFewer(rows: seq<Row>, gone: Row -> bool, p: PostId)
    ensures Count(Without(rows, gone), p) <= Count(rows, p)
    ensures TotalSize(Without(rows, gone), p) <= TotalSize(rows, p)
    ensures Mains(Without(rows, gone), p) <= Mains(rows, p)
  {
    if rows != [] {
      WithoutFewer(rows[..|rows| - 1], gone, p);
      Appended(Without(rows[..|rows| - 1], gone), rows[|rows| - 1], p);
    }
  }

  lemma {:induction false} WithoutMember(rows: seq<Row>, gone: Row -> bool)
    ensures forall r :: r in Without(rows, gone) <==> r in rows && !gone(r)
    ensures forall r :: multiset(Without(rows, gone))[r] == if gone(r) then 0 else multiset(rows)[r]
  {
    if rows != [] {
      WithoutMember(rows[..|rows| - 1], gone);
      assert rows == rows[..|rows| - 1] + [rows[|rows| - 1]];
    }
  }

  lemma {:induction false} WithoutIdle(rows: seq<Row>, gone: Row -> bool)
    requires forall i :: 0 <= i < |rows| ==> !gone(rows[i])
    ensures Without(rows, gone) == rows
  {
    if rows != [] {
      WithoutIdle(rows[..|rows| - 1], gone);
    }
  }

  predicate IsTarget(r: Row, postId: PostId, fileId: FileId) { r.id == fileId && r.postId == postId }

  /** Clears the main images of the post and marks one file. */
  function MainSet(rows: seq<Row>, postId: PostId, fileId: FileId): (r: seq<Row>)
    ensures |r| == |rows|
  {
    seq(|rows|, i requires 0 <= i < |rows| =>
      if rows[i].postId != postId then rows[i] else rows[i].(mainImage := rows[i].id == fileId))
  }

  lemma {:induction false} MainSetSame(rows: seq<Row>, postId: PostId, fileId: FileId, p: PostId)
    ensures Count(MainSet(rows, postId, fileId), p) == Count(rows, p)
    ensures TotalSize(MainSet(rows, postId, fileId), p) == TotalSize(rows, p)
    ensures p != postId ==> Mains(MainSet(rows, postId, fileId), p) == Mains(rows, p)
  {
    if rows != [] {
      var init, last := rows[..|rows| - 1], rows[|rows| - 1];
      MainSetSame(init, postId, fileId, p);
      var r := MainSet(rows, postId, fileId);
      assert r == MainSet(init, postId, fileId) + [r[|rows| - 1]];
      Appended(MainSet(init, postId, fileId), r[|rows| - 1], p);
    }
  }

  ghost predicate UniqueIds(rows: seq<Row>) {
    forall i, j :: 0 <= i < j < |rows| ==> rows[i].id != rows[j].id
  }

  /** Afterwards the target is the one main image of its post. */
  lemma {:induction false} MainSetOne(rows: seq<Row>, postId: PostId, fileId: FileId)
    requires UniqueIds(rows)
    ensures Mains(MainSet(rows, postId, fileId), postId)
            == if exists i :: 0 <= i < |rows| && IsTarget(rows[i], postId, fileId) then 1 else 0
  {
    if rows != [] {
      var n := |rows| - 1;
      var init := rows[..n];
      MainSetOne(init, postId, fileId);
      var r := MainSet(rows, postId, fileId);
      assert r == MainSet(init, postId, fileId) + [r[n]];
      Appended(MainSet(init, postId, fileId), r[n], postId);
      assert forall i :: 0 <= i < n ==> init[i] == rows[i];
    }
  }

  predicate HasTarget(rows: seq<Row>, postId: PostId, fileId: FileId) {
    exists i :: 0 <= i < |rows| && IsTarget(rows[i], postId, fileId)
  }

  predicate TargetIsMain(rows: seq<Row>, postId: PostId, fileId: FileId) {
    exists i :: 0 <= i < |rows| && IsTarget(rows[i], postId, fileId) && rows[i].mainImage
  }

  // ---- Steps ----

  function LinkStep(s: State, data: seq<NewFile>): (State, LinkReply) {
    if data == [] then (s, NoFiles)
    else if !ScopeValid(data) then (s, InvalidScope)
    else
      var postId := data[0].postId;
      if Count(s.rows, postId) + |data| > MAX_FILES_PER_POST then (s, TooManyFiles)
      else if TotalSize(s.rows, postId) + SizeOf(data) > MAX_TOTAL_FILE_SIZE_PER_POST_BYTES then (s, TooLarge)
      else
        var t := InsertAll(s, Normalized(data, Mains(s.rows, postId) > 0));
        if |t.rows| <= |s.rows| then (t, NothingLinked) else (t, Linked(|t.rows| - |s.rows|))
  }

  function Step(s: State, op: Op): State {
    match op
    case Link(data) => LinkStep(s, data).0
    case SetMain(postId, fileId) =>
      if HasTarget(s.rows, postId, fileId) && !TargetIsMain(s.rows, postId, fileId) then
        s.(rows := MainSet(s.rows, postId, fileId))
      else s
    case DeleteById(fileId) => s.(rows := Without(s.rows, (r: Row) => r.id == fileId))
    case DeleteByKeys(postId, storageKeys) =>
      s.(rows := Without(s.rows, (r: Row) => r.postId == postId && r.storageKey in storageKeys))
  }

  function Run(s: State, ops: seq<Op>): State {
    if ops == [] then s else Step(Run(s, ops[..|ops| - 1]), ops[|ops| - 1])
  }

  const Initial := State([], 0)

  ghost predicate Within(rows: seq<Row>, p: PostId) {
    && Count(rows, p) <= MAX_FILES_PER_POST
    && TotalSize(rows, p) <= MAX_TOTAL_FILE_SIZE_PER_POST_BYTES
    && Mains(rows, p) <= 1
  }

  ghost predicate IdsOk(s: State) {
    UniqueIds(s.rows) && forall i :: 0 <= i < |s.rows| ==> s.rows[i].id < s.nextId
  }

  lemma {:induction false} NormalizedSize(data: seq<NewFile>, more: seq<NewFile>)
    requires |more| == |data| && forall i :: 0 <= i < |data| ==> more[i].size == data[i].size
    ensures SizeOf(more) == SizeOf(data)
  {
    if data != [] {
      NormalizedSize(data[1..], more[1..]);
    }
  }

  /** A link adds a main image exactly when the post has none and the designated file is not a duplicate. */
  lemma LinkMainExactly(s: State, data: seq<NewFile>)
    requires LinkStep(s, data).1.Linked? || LinkStep(s, data).1.NothingLinked?
    ensures data != [] && ScopeValid(data)
    ensures var p := data[0].postId;
            Mains(Step(s, Link(data)).rows, p)
            == if Mains(s.rows, p) > 0 then Mains(s.rows, p)
               else if IsSkipped(s, data, DesignatedMain(data)) then 0 else 1
  {
    var p, m := data[0].postId, DesignatedMain(data);
    FindAskingFrom(data, 0);
    var has := Mains(s.rows, p) > 0;
    var batch := Normalized(data, has);
    if has {
      NoMainInserted(s, batch, p);
    } else {
      OneMainInserted(s, batch, m);
      SkippedAlike(s, data, batch, m);
    }
  }

  lemma SkippedAlike(s: State, data: seq<NewFile>, batch: seq<NewFile>, m: nat)
    requires m < |data| == |batch| && forall i :: 0 <= i < |data| ==> KeyOf(batch[i]) == KeyOf(data[i])
    ensures IsSkipped(s, data, m) <==> IsSkipped(s, batch, m)
  {
    if j :| 0 <= j < m && KeyOf(data[j]) == KeyOf(data[m]) {
      assert KeyOf(batch[j]) == KeyOf(batch[m]);
    }
    if j :| 0 <= j < m && KeyOf(batch[j]) == KeyOf(batch[m]) {
      assert KeyOf(data[j]) == KeyOf(data[m]);
    }
  }

  lemma LinkWithin(s: State, data: seq<NewFile>, p: PostId)
    requires Within(s.rows, p)
    ensures Within(LinkStep(s, data).0.rows, p)
  {
    if LinkStep(s, data).1.Linked? || LinkStep(s, data).1.NothingLinked? {
      var postId := data[0].postId;
      var batch := Normalized(data, Mains(s.rows, postId) > 0);
      InsertedAtMost(s, batch, postId, p);
      NormalizedSize(data, batch);
      LinkMainExactly(s, data);
    }
  }

  lemma {:induction false} InsertedIds(s: State, data: seq<NewFile>)
    requires IdsOk(s)
    ensures IdsOk(InsertAll(s, data))
    decreases |data|
  {
    if data != [] {
      if Taken(s.rows, KeyOf(data[0])) {
        InsertedIds(s, data[1..]);
      } else {
        InsertedIds(State(s.rows + [RowFor(data[0], s.nextId)], s.nextId + 1), data[1..]);
      }
    }
  }

  lemma {:induction false} WithoutIds(rows: seq<Row>, gone: Row -> bool, nextId: FileId)
    requires IdsOk(State(rows, nextId))
    ensures IdsOk(State(Without(rows, gone), nextId))
  {
    if rows != [] {
      var init, last := rows[..|rows| - 1], rows[|rows| - 1];
      WithoutIds(init, gone, nextId);
      WithoutMember(init, gone);
      var less := Without(init, gone);
      forall i | 0 <= i < |less| ensures less[i].id != last.id {
        assert less[i] in init;
      }
    }
  }

  lemma StepWithin(s: State, op: Op, p: PostId)
    requires IdsOk(s) && Within(s.rows, p)
    ensures Within(Step(s, op).rows, p)
  {
    match op {
      case Link(data) => LinkWithin(s, data, p);
      case SetMain(postId, fileId) =>
        MainSetSame(s.rows, postId, fileId, p);
        MainSetOne(s.rows, postId, fileId);
      case DeleteById(fileId) => WithoutFewer(s.rows, (r: Row) => r.id == fileId, p);
      case DeleteByKeys(postId, storageKeys) =>
        WithoutFewer(s.rows, (r: Row) => r.postId == postId && r.storageKey in storageKeys, p);
    }
  }

  lemma StepIds(s: State, op: Op)
    requires IdsOk(s)
    ensures IdsOk(Step(s, op))
  {
    match op {
      case Link(data) =>
        if data != [] {
          InsertedIds(s, Normalized(data, Mains(s.rows, data[0].postId) > 0));
        }
      case SetMain(postId, fileId) =>
      case DeleteById(fileId) => WithoutIds(s.rows, (r: Row) => r.id == fileId, s.nextId);
      case DeleteByKeys(postId, storageKeys) =>
        WithoutIds(s.rows, (r: Row) => r.postId == postId && r.storageKey in storageKeys, s.nextId);
    }
  }

  /** Ids are unique, and every post is within its quotas with at most one main image. */
  ghost predicate QuotasOk(s: State) { IdsOk(s) && forall p :: Within(s.rows, p) }

  lemma StepQuotas(s: State, op: Op)
    requires QuotasOk(s)
    ensures QuotasOk(Step(s, op))
  {
    StepIds(s, op);
    forall p ensures Within(Step(s, op).rows, p) {
      StepWithin(s, op, p);
    }
  }

  lemma {:induction false} RunIds(ops: seq<Op>)
    ensures IdsOk(Run(Initial, ops))
  {
    if ops != [] {
      RunIds(ops[..|ops| - 1]);
      StepIds(Run(Initial, ops[..|ops| - 1]), ops[|ops| - 1]);
    }
  }

  /** Every run of links, main-image changes and deletions keeps each post within its quotas, with at most one main
      image, whatever duplicates an insert skips. */
  lemma QuotasHold(ops: seq<Op>, p: PostId)
    ensures var rows := Run(Initial, ops).rows;
            && |FilesOf(rows, p)| <= 10
            && TotalSize(rows, p) <= 26_214_400
            && |MainsOf(rows, p)| <= 1
  {
    QuotasKept(ops, p);
    CountedExactly(Run(Initial, ops).rows, p);
  }

  lemma {:induction false} QuotasKept(ops: seq<Op>, p: PostId)
    ensures Within(Run(Initial, ops).rows, p)
  {
    if ops != [] {
      QuotasKept(ops[..|ops| - 1], p);
      RunIds(ops[..|ops| - 1]);
      StepWithin(Run(Initial, ops[..|ops| - 1]), ops[|ops| - 1], p);
    }
  }

  lemma SetMainOnes(s: State, postId: PostId, fileId: FileId)
    requires QuotasOk(s) && HasTarget(s.rows, postId, fileId)
    ensures var rows := Step(s, SetMain(postId, fileId)).rows;
            Mains(rows, postId) == 1 && TargetIsMain(rows, postId, fileId)
  {
    assert Within(s.rows, postId);
    var i :| 0 <= i < |s.rows| && IsTarget(s.rows[i], postId, fileId);
    if TargetIsMain(s.rows, postId, fileId) {
      MainCounted(s.rows, postId, fileId);
    } else {
      MainSetOne(s.rows, postId, fileId);
      var rows := MainSet(s.rows, postId, fileId);
      assert IsTarget(rows[i], postId, fileId) && rows[i].mainImage;
    }
  }

  /** A successful change makes the file the one main image of its post. */
  lemma SetMainMakesMain(ops: seq<Op>, postId: PostId, fileId: FileId)
    requires HasTarget(Run(Initial, ops).rows, postId, fileId)
    ensures var rows := Step(Run(Initial, ops), SetMain(postId, fileId)).rows;
            Mains(rows, postId) == 1 && TargetIsMain(rows, postId, fileId)
  {
    RunIds(ops);
    forall p ensures Within(Run(Initial, ops).rows, p) {
      QuotasKept(ops, p);
    }
    SetMainOnes(Run(Initial, ops), postId, fileId);
  }

  ghost predicate AllInScope(data: seq<NewFile>) {
    data != [] && forall i :: 0 <= i < |data| ==> InScopeOf(data[i], data[0].postId, data[0].uploadedById)
  }

  /** The row is the file's, but for its main image. */
  ghost predicate LinkedFrom(r: Row, data: seq<NewFile>, m: nat) {
    && m < |data| && (forall j :: 0 <= j < m ==> KeyOf(data[j]) != KeyOf(data[m]))
    && r.postId == data[m].postId && r.uploadedById == data[m].uploadedById && r.storageKey == data[m].storageKey
    && r.provider == data[m].provider && r.size == data[m].size
  }

  /** The old rows stay; each new one is a file of the batch with the next id, and a main image only if the post had
      none and the file is the designated one. */
  ghost predicate LinksRows(s: State, data: seq<NewFile>, t: State)
    requires data != []
  {
    && s.rows <= t.rows && t.nextId == s.nextId + |t.rows| - |s.rows|
    && forall n :: |s.rows| <= n < |t.rows| ==>
         && t.rows[n].id == s.nextId + n - |s.rows|
         && (exists m: nat :: LinkedFrom(t.rows[n], data, m))
         && (t.rows[n].mainImage ==> MainsOf(s.rows, data[0].postId) == {}
                                     && exists m: nat :: LinkedFrom(t.rows[n], data, m) && IsDesignated(data, m))
  }

  /** Each key of the batch is there, by one row; and there is a main image, unless the designated file was skipped. */
  ghost predicate LinksKeys(s: State, data: seq<NewFile>, t: State)
    requires data != []
  {
    && (forall k :: Taken(t.rows, k) <==> Taken(s.rows, k) || exists j :: 0 <= j < |data| && KeyOf(data[j]) == k)
    && (UniqueKeys(s.rows) ==> UniqueKeys(t.rows))
    && |MainsOf(t.rows, data[0].postId)|
       == if MainsOf(s.rows, data[0].postId) != {} then |MainsOf(s.rows, data[0].postId)|
          else if exists m: nat :: IsDesignated(data, m) && IsSkipped(s, data, m) then 0 else 1
  }

  lemma LinkReplies(s: State, data: seq<NewFile>)
    ensures var r := LinkStep(s, data);
            && (r.1.InvalidScope? <==> data != [] && !AllInScope(data))
            && (r.1.TooManyFiles? <==> AllInScope(data) && |FilesOf(s.rows, data[0].postId)| + |data| > 10)
            && (r.1.TooLarge? <==> AllInScope(data) && |FilesOf(s.rows, data[0].postId)| + |data| <= 10
                                   && TotalSize(s.rows, data[0].postId) + SizeOf(data) > 26_214_400)
            && (r.1.NothingLinked? || r.1.Linked? ==>
                  && LinksRows(s, data, r.0) && LinksKeys(s, data, r.0)
                  && (r.1.NothingLinked? <==> forall j :: 0 <= j < |data| ==> Taken(s.rows, KeyOf(data[j]))))
            && (!r.1.Linked? ==> r.0 == s)
            && (r.1.Linked? ==> 0 < r.1.count == |r.0.rows| - |s.rows| <= |data|)
  {
    ScopeValidExactly(data);
    if data != [] {
      CountedExactly(s.rows, data[0].postId);
      var r := LinkStep(s, data);
      if r.1.NothingLinked? || r.1.Linked? {
        var batch := Normalized(data, Mains(s.rows, data[0].postId) > 0);
        RowsLinked(s, data, r.0);
        KeysLinked(s, data, r.0);
        NothingInsertedExactly(s, batch);
        assert forall j :: 0 <= j < |data| ==> KeyOf(batch[j]) == KeyOf(data[j]);
        InsertedAtMost(s, batch, data[0].postId, data[0].postId);
      }
    }
  }

  lemma RowsLinked(s: State, data: seq<NewFile>, t: State)
    requires LinkStep(s, data).1.Linked? || LinkStep(s, data).1.NothingLinked?
    requires t == LinkStep(s, data).0
    ensures data != [] && LinksRows(s, data, t)
  {
    var has := Mains(s.rows, data[0].postId) > 0;
    var batch := Normalized(data, has);
    InsertedRows(s, batch);
    CountedExactly(s.rows, data[0].postId);
    forall n | |s.rows| <= n < |t.rows|
      ensures exists m: nat :: LinkedFrom(t.rows[n], data, m)
      ensures t.rows[n].mainImage ==> !has && exists m: nat :: LinkedFrom(t.rows[n], data, m) && IsDesignated(data, m)
    {
      var m: nat :| MadeFrom(t.rows[n], batch, m);
      MadeFromBatch(t.rows[n], data, has, m);
    }
  }

  lemma MadeFromBatch(r: Row, data: seq<NewFile>, has: bool, m: nat)
    requires MadeFrom(r, Normalized(data, has), m)
    ensures LinkedFrom(r, data, m)
    ensures r.mainImage ==> !has && IsDesignated(data, m)
  {
    var batch := Normalized(data, has);
    FindAskingFrom(data, 0);
    assert forall j :: 0 <= j <= m ==> KeyOf(batch[j]) == KeyOf(data[j]);
  }

  lemma KeysLinked(s: State, data: seq<NewFile>, t: State)
    requires LinkStep(s, data).1.Linked? || LinkStep(s, data).1.NothingLinked?
    requires t == LinkStep(s, data).0
    ensures data != [] && LinksKeys(s, data, t)
  {
    var batch := Normalized(data, Mains(s.rows, data[0].postId) > 0);
    MainsLinked(s, data, t);
    forall k ensures Taken(t.rows, k) <==> Taken(s.rows, k) || exists j :: 0 <= j < |data| && KeyOf(data[j]) == k {
      InsertedKeys(s, batch, k);
      SameKeys(data, batch, k);
    }
    InsertedKeys(s, batch, KeyOf(data[0]));
  }

  lemma MainsLinked(s: State, data: seq<NewFile>, t: State)
    requires LinkStep(s, data).1.Linked? || LinkStep(s, data).1.NothingLinked?
    requires t == LinkStep(s, data).0
    ensures data != []
    ensures |MainsOf(t.rows, data[0].postId)|
            == if MainsOf(s.rows, data[0].postId) != {} then |MainsOf(s.rows, data[0].postId)|
               else if exists m: nat :: IsDesignated(data, m) && IsSkipped(s, data, m) then 0 else 1
  {
    CountedExactly(s.rows, data[0].postId);
    CountedExactly(t.rows, data[0].postId);
    FindAskingFrom(data, 0);
    LinkMainExactly(s, data);
    DesignatedIsOne(data, DesignatedMain(data));
  }

  lemma DesignatedIsOne(data: seq<NewFile>, m: nat)
    requires IsDesignated(data, m)
    ensures forall n: nat :: IsDesignated(data, n) ==> n == m
  {
  }

  lemma SameKeys(data: seq<NewFile>, batch: seq<NewFile>, k: Key)
    requires |batch| == |data| && forall i :: 0 <= i < |data| ==> KeyOf(batch[i]) == KeyOf(data[i])
    ensures (exists j :: 0 <= j < |batch| && KeyOf(batch[j]) == k) <==>
            exists j :: 0 <= j < |data| && KeyOf(data[j]) == k
  {
    if j :| 0 <= j < |data| && KeyOf(data[j]) == k {
      assert KeyOf(batch[j]) == k;
    }
  }

  lemma {:induction false} MainCounted(rows: seq<Row>, postId: PostId, fileId: FileId)
    requires TargetIsMain(rows, postId, fileId)
    ensures Mains(rows, postId) >= 1
  {
    var i :| 0 <= i < |rows| && IsTarget(rows[i], postId, fileId) && rows[i].mainImage;
    if i < |rows| - 1 {
      assert IsTarget(rows[..|rows| - 1][i], postId, fileId);
      MainCounted(rows[..|rows| - 1], postId, fileId);
    }
  }

  // ---- The service ----

  class PostFilesService {
    var rows: seq<Row>
    var nextId: FileId

    ghost function Abstract(): State reads this { State(rows, nextId) }

    constructor ()
      ensures Abstract() == Initial
    {
      rows, nextId := [], 0;
    }

    method InsertMultipleFiles(data: seq<NewFile>) returns (count: nat)
      modifies this
      ensures Abstract() == InsertAll(old(Abstract()), data)
      ensures count == |rows| - |old(rows)|
    {
      count := 0;
      var i := 0;
      while i < |data|
        invariant 0 <= i <= |data| && count == |rows| - |old(rows)|
        invariant InsertAll(Abstract(), data[i..]) == InsertAll(old(Abstract()), data)
      {
        assert data[i..][1..] == data[i + 1..];
        if !Taken(rows, KeyOf(data[i])) {
          rows := rows + [RowFor(data[i], nextId)];
          nextId := nextId + 1;
          count := count + 1;
        }
        i := i + 1;
      }
    }

    method IncomingSize(data: seq<NewFile>) returns (sum: nat)
      ensures sum == SizeOf(data)
    {
      sum := 0;
      var i := |data|;
      while i > 0
        invariant 0 <= i <= |data| && sum == SizeOf(data[i..])
      {
        i := i - 1;
        assert data[i..][1..] == data[i + 1..];
        sum := sum + data[i].size;
      }
    }

    /** Each refusal exactly when it is due, and then nothing changes; otherwise the rows of the batch whose key was
        free are added, whole, with a main image only where the post had none. */
    method UploadFilesToPost(data: seq<NewFile>) returns (reply: LinkReply)
      modifies this
      ensures reply.NoFiles? <==> data == []
      ensures reply.InvalidScope? <==> data != [] && !AllInScope(data)
      ensures reply.TooManyFiles? <==> AllInScope(data) && |FilesOf(old(rows), data[0].postId)| + |data| > 10
      ensures reply.TooLarge? <==> AllInScope(data) && |FilesOf(old(rows), data[0].postId)| + |data| <= 10
                                   && TotalSize(old(rows), data[0].postId) + SizeOf(data) > 26_214_400
      ensures reply.NothingLinked? || reply.Linked? ==>
                && LinksRows(old(Abstract()), data, Abstract()) && LinksKeys(old(Abstract()), data, Abstract())
                && (reply.NothingLinked? <==> forall j :: 0 <= j < |data| ==> Taken(old(rows), KeyOf(data[j])))
      ensures !reply.Linked? ==> Abstract() == old(Abstract())
      ensures reply.Linked? ==> 0 < reply.count == |rows| - |old(rows)| <= |data|
      ensures (Abstract(), reply) == LinkStep(old(Abstract()), data)
      ensures old(QuotasOk(Abstract())) ==> QuotasOk(Abstract())
    {
      if QuotasOk(Abstract()) {
        StepQuotas(Abstract(), Link(data));
      }
      LinkReplies(Abstract(), data);
      if |data| == 0 {
        return NoFiles;
      }
      var postId := data[0].postId;
      if !ScopeValid(data) {
        return InvalidScope;
      }
      var existingCount := Count(rows, postId);
      var totalAfterUpload := existingCount + |data|;
      if totalAfterUpload > MAX_FILES_PER_POST {
        return TooManyFiles;
      }
      var existingTotalSize := TotalSize(rows, postId);
      var incomingTotalSize := IncomingSize(data);
      if existingTotalSize + incomingTotalSize > MAX_TOTAL_FILE_SIZE_PER_POST_BYTES {
        return TooLarge;
      }
      var hasExistingMain := Mains(rows, postId) > 0;
      var normalizedData := NormalizeMainImageValues(data, hasExistingMain);
      var count := InsertMultipleFiles(normalizedData);
      return if count == 0 then NothingLinked else Linked(count);
    }

    method SetMainImage(postId: PostId, fileId: FileId) returns (updated: bool)
      modifies this
      ensures Abstract() == Step(old(Abstract()), SetMain(postId, fileId))
      ensures updated <==> exists i :: 0 <= i < |old(rows)| && IsTarget(old(rows)[i], postId, fileId)
      ensures nextId == old(nextId) && |rows| == |old(rows)|
      ensures forall i :: 0 <= i < |rows| ==> rows[i].(mainImage := old(rows)[i].mainImage) == old(rows)[i]
      ensures forall i :: 0 <= i < |rows| && (rows[i].postId != postId || !updated) ==> rows[i] == old(rows)[i]
      ensures updated && !TargetIsMain(old(rows), postId, fileId) ==>
                forall i :: 0 <= i < |rows| && rows[i].postId == postId ==>
                  (rows[i].mainImage <==> rows[i].id == fileId)
      ensures TargetIsMain(old(rows), postId, fileId) ==> rows == old(rows)
      ensures old(QuotasOk(Abstract())) ==> QuotasOk(Abstract())
      ensures old(QuotasOk(Abstract())) && updated ==> Mains(rows, postId) == 1 && TargetIsMain(rows, postId, fileId)
    {
      if QuotasOk(Abstract()) {
        StepQuotas(Abstract(), SetMain(postId, fileId));
        if HasTarget(rows, postId, fileId) {
          SetMainOnes(Abstract(), postId, fileId);
        }
      }
      if !HasTarget(rows, postId, fileId) {
        return false;
      }
      if TargetIsMain(rows, postId, fileId) {
        return true;
      }
      MarkMain(postId, fileId);
      return true;
    }

    /** Both updates of the transaction in one pass. */
    method MarkMain(postId: PostId, fileId: FileId)
      modifies `rows
      ensures rows == MainSet(old(rows), postId, fileId)
    {
      var i := 0;
      while i < |rows|
        invariant 0 <= i <= |rows| == |old(rows)|
        invariant forall j :: 0 <= j < i ==> rows[j] == MainSet(old(rows), postId, fileId)[j]
        invariant forall j :: i <= j < |rows| ==> rows[j] == old(rows)[j]
      {
        if rows[i].postId == postId {
          rows := rows[i := rows[i].(mainImage := rows[i].id == fileId)];
        }
        i := i + 1;
      }
    }

    /** Removes the file from the storage, and its row only if that works. */
    method DeleteFileById(fileId: FileId, storageUp: bool) returns (reply: DeleteReply)
      modifies this
      ensures nextId == old(nextId)
      ensures reply.FileNotFound? <==> forall i :: 0 <= i < |old(rows)| ==> old(rows)[i].id != fileId
      ensures reply.FileDeleted? <==> storageUp && !reply.FileNotFound?
      ensures !reply.FileDeleted? ==> rows == old(rows)
      ensures reply.FileDeleted? ==> forall r :: multiset(rows)[r] == if r.id == fileId then 0 else multiset(old(rows))[r]
      ensures Abstract() == if storageUp then Step(old(Abstract()), DeleteById(fileId)) else old(Abstract())
    {
      WithoutMember(rows, (r: Row) => r.id == fileId);
      if forall i :: 0 <= i < |rows| ==> rows[i].id != fileId {
        WithoutIdle(rows, (r: Row) => r.id == fileId);
        return FileNotFound;
      }
      if !storageUp {
        return KeptForRetry;
      }
      rows := Without(rows, (r: Row) => r.id == fileId);
      return FileDeleted;
    }

    /** Removes the post's files from the storage, and their rows only if that works. */
    method DeleteFilesByPostId(postId: PostId, storageUp: bool) returns (reply: DeleteAllReply)
      modifies this
      ensures nextId == old(nextId)
      ensures reply.NoFilesToDelete? <==> FilesOf(old(rows), postId) == {}
      ensures reply.AllDeleted? <==> storageUp && !reply.NoFilesToDelete?
      ensures !reply.AllDeleted? ==> rows == old(rows)
      ensures reply.AllDeleted? ==>
                && reply.count == |FilesOf(old(rows), postId)|
                && forall r :: multiset(rows)[r] == if r.postId == postId then 0 else multiset(old(rows))[r]
      ensures Abstract() == if storageUp then
                              Step(old(Abstract()), DeleteByKeys(postId, StorageKeys(old(rows), postId)))
                            else old(Abstract())
    {
      CountedExactly(rows, postId);
      var keys := StorageKeys(rows, postId);
      WithoutMember(rows, (r: Row) => r.postId == postId && r.storageKey in keys);
      if Count(rows, postId) == 0 {
        assert forall i :: 0 <= i < |rows| ==> rows[i].postId != postId by {
          assert forall i: nat :: i < |rows| && rows[i].postId == postId ==> i in FilesOf(rows, postId);
        }
        WithoutIdle(rows, (r: Row) => r.postId == postId && r.storageKey in keys);
        return NoFilesToDelete;
      }
      if !storageUp {
        return SomeKeptForRetry;
      }
      forall r | r in rows && r.postId == postId ensures r.storageKey in keys {
        var i :| 0 <= i < |rows| && rows[i] == r;
      }
      var count := Count(rows, postId);
      rows := Without(rows, (r: Row) => r.postId == postId && r.storageKey in keys);
      return AllDeleted(count);
    }
  }

  function StorageKeys(rows: seq<Row>, postId: PostId): set<string> {
    set i | 0 <= i < |rows| && rows[i].postId == postId :: rows[i].storageKey
  }

  lemma {:induction false} WithoutNone(rows: seq<Row>, gone: Row -> bool, postId: PostId)
    requires forall i :: 0 <= i < |rows| && rows[i].postId == postId ==> gone(rows[i])
    ensures Count(Without(rows, gone), postId) == 0
  {
    if rows != [] {
      WithoutNone(rows[..|rows| - 1], gone, postId);
      Appended(Without(rows[..|rows| - 1], gone), rows[|rows| - 1], postId);
    }
  }

  /** Deleting by the keys just read leaves the post without files, and touches no other post. */
  lemma DeletedAll(s: State, postId: PostId, r: Row)
    ensures var t := Step(s, DeleteByKeys(postId, StorageKeys(s.rows, postId)));
            && Count(t.rows, postId) == 0
            && (r.postId != postId ==> (r in t.rows <==> r in s.rows))
  {
    var keys := StorageKeys(s.rows, postId);
    WithoutNone(s.rows, (r: Row) => r.postId == postId && r.storageKey in keys, postId);
    WithoutMember(s.rows, (r: Row) => r.postId == postId && r.storageKey in keys);
  }
}
