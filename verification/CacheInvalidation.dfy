/** Cache keys and the patterns that invalidate them. */
module CacheInvalidation {
  type PostId = nat

  // ---- Patterns ----

  /** Redis glob matching for patterns whose only special character is the star. */
  predicate Matches(pattern: string, s: string)
    decreases |pattern|, |s|
  {
    if pattern == "" then s == ""
    else if pattern[0] == '*' then Matches(pattern[1..], s) || (s != "" && Matches(pattern, s[1..]))
    else s != "" && s[0] == pattern[0] && Matches(pattern[1..], s[1..])
  }

  /** No character that means something in a glob. */
  predicate IsPlain(s: string) {
    '*' !in s && '?' !in s && '[' !in s && ']' !in s && '\\' !in s && '^' !in s
  }

  lemma {:induction false} MatchPrefix(prefix: string, pattern: string, s: string)
    requires IsPlain(prefix)
    ensures Matches(prefix + pattern, s) <==> prefix <= s && Matches(pattern, s[|prefix|..])
  {
    if prefix == "" {
      assert prefix + pattern == pattern && s[0..] == s;
    } else {
      assert (prefix + pattern)[1..] == prefix[1..] + pattern;
      if s != "" {
        MatchPrefix(prefix[1..], pattern, s[1..]);
        assert prefix <= s <==> s[0] == prefix[0] && prefix[1..] <= s[1..];
        if prefix <= s {
          assert s[1..][|prefix| - 1..] == s[|prefix|..];
        }
      }
    }
  }

  lemma {:induction false} StarMatchesAll(s: string)
    ensures Matches("*", s)
    decreases |s|
  {
    if s != "" {
      StarMatchesAll(s[1..]);
    } else {
      assert "*"[1..] == "";
    }
  }

  lemma {:induction false} MatchPlain(suffix: string, s: string)
    requires IsPlain(suffix)
    ensures Matches(suffix, s) <==> s == suffix
  {
    MatchPrefix(suffix, "", s);
    assert suffix + "" == suffix;
  }

  predicate EndsWith(s: string, suffix: string) {
    |suffix| <= |s| && s[|s| - |suffix|..] == suffix
  }

  lemma {:induction false} MatchSuffix(suffix: string, s: string)
    requires IsPlain(suffix)
    ensures Matches("*" + suffix, s) <==> EndsWith(s, suffix)
    decreases |s|
  {
    assert ("*" + suffix)[1..] == suffix;
    MatchPlain(suffix, s);
    if s != "" {
      MatchSuffix(suffix, s[1..]);
      if |suffix| < |s| {
        assert s[1..][|s| - 1 - |suffix|..] == s[|s| - |suffix|..];
      }
    }
  }

  lemma PrefixPattern(prefix: string, key: string)
    requires IsPlain(prefix)
    ensures Matches(prefix + "*", key) <==> prefix <= key
  {
    MatchPrefix(prefix, "*", key);
    if prefix <= key {
      StarMatchesAll(key[|prefix|..]);
    }
  }

  // ---- Numbers in keys ----

  function Digit(d: nat): char
    requires d < 10
  {
    "0123456789"[d]
  }

  function Decimal(n: nat): (r: string)
    ensures r != "" && forall i :: 0 <= i < |r| ==> '0' <= r[i] <= '9'
  {
    if n < 10 then [Digit(n)] else Decimal(n / 10) + [Digit(n % 10)]
  }

  lemma {:induction false} DecimalInjective(m: nat, n: nat)
    requires Decimal(m) == Decimal(n)
    ensures m == n
  {
    var dm, dn := Decimal(m), Decimal(n);
    assert dm[|dm| - 1] == dn[|dn| - 1];
    assert m % 10 == n % 10;
    if m >= 10 && n >= 10 {
      assert Decimal(m / 10) == dm[..|dm| - 1] == dn[..|dn| - 1] == Decimal(n / 10);
      DecimalInjective(m / 10, n / 10);
    }
  }

  /** The text before the first mark. */
  function Before(s: string, mark: char): string {
    if s == "" || s[0] == mark then "" else [s[0]] + Before(s[1..], mark)
  }

  /** The text after the last mark. */
  function After(s: string, mark: char): string {
    if s == "" || s[|s| - 1] == mark then "" else After(s[..|s| - 1], mark) + [s[|s| - 1]]
  }

  lemma {:induction false} BeforeMark(a: string, mark: char, rest: string)
    requires mark !in a
    ensures Before(a + [mark] + rest, mark) == a
  {
    if a != "" {
      BeforeMark(a[1..], mark, rest);
      assert (a + [mark] + rest)[1..] == a[1..] + [mark] + rest;
    }
  }

  lemma {:induction false} AfterMark(front: string, a: string, mark: char)
    requires mark !in a
    ensures After(front + [mark] + a, mark) == a
  {
    if a != "" {
      var n := |a| - 1;
      AfterMark(front, a[..n], mark);
      assert (front + [mark] + a)[..|front| + 1 + n] == front + [mark] + a[..n];
    }
  }

  /** Two words followed by the same mark, which neither contains: one text starts with the other's only if they are
      equal. */
  lemma SameWordBefore(a: string, b: string, mark: char, rest: string)
    requires mark !in a && mark !in b
    ensures a + [mark] <= b + [mark] + rest <==> a == b
  {
    var t := b + [mark] + rest;
    BeforeMark(b, mark, rest);
    if a + [mark] <= t {
      assert t == a + [mark] + t[|a| + 1..];
      BeforeMark(a, mark, t[|a| + 1..]);
    }
  }

  /** The same at the end of a text. */
  lemma SameWordAfter(front: string, a: string, b: string, mark: char)
    requires mark !in a && mark !in b
    ensures EndsWith(front + [mark] + b, [mark] + a) <==> a == b
  {
    var t, suffix := front + [mark] + b, [mark] + a;
    AfterMark(front, b, mark);
    if EndsWith(t, suffix) {
      assert t == t[..|t| - |suffix|] + [mark] + a;
      AfterMark(t[..|t| - |suffix|], a, mark);
    }
    if a == b {
      assert t == front + suffix;
      assert t[|front|..] == suffix && |t| - |suffix| == |front|;
    }
  }

  // ---- Comment lists ----

  const COMMENTS_CACHE := "cache:comments:"
  const COMMENTS_LISTS := "comments-by-post:"
  const COMMENTS_FIELD := "{\"postId\":"
  const COMMENTS_SCOPE := COMMENTS_CACHE + COMMENTS_LISTS + COMMENTS_FIELD

  /** The key of a comment list: the printed object begins with the post id; `rest` is what follows the comma. */
  function CommentsKey(postId: PostId, rest: string): string {
    COMMENTS_SCOPE + Decimal(postId) + "," + rest
  }

  function CommentsPattern(postId: PostId): string {
    COMMENTS_SCOPE + Decimal(postId) + ",*"
  }

  function CommentsFront(postId: PostId): string { COMMENTS_SCOPE + Decimal(postId) + "," }

  lemma CommentsCachePlain()
    ensures IsPlain(COMMENTS_CACHE)
  {
  }

  lemma CommentsListsPlain()
    ensures IsPlain(COMMENTS_LISTS)
  {
  }

  lemma CommentsFieldPlain()
    ensures IsPlain(COMMENTS_FIELD)
  {
  }

  lemma CommentsScopePlain()
    ensures IsPlain(COMMENTS_SCOPE)
  {
    CommentsCachePlain();
    CommentsListsPlain();
    CommentsFieldPlain();
  }

  lemma CommentsFrontPlain(postId: PostId)
    ensures IsPlain(CommentsFront(postId))
  {
    CommentsScopePlain();
  }

  /** The pattern matches the keys of that post's comment lists and nothing else: 5 never hits 57. */
  lemma CommentsPatternExact(postId: PostId, key: string)
    ensures Matches(CommentsPattern(postId), key) <==> exists rest :: key == CommentsKey(postId, rest)
  {
    var prefix := CommentsFront(postId);
    CommentsFrontPlain(postId);
    assert CommentsPattern(postId) == prefix + "*";
    PrefixPattern(prefix, key);
    if prefix <= key {
      assert key == CommentsKey(postId, key[|prefix|..]);
    }
  }

  lemma CommentsPatternOtherPosts(postId: PostId, other: PostId, rest: string)
    ensures Matches(CommentsPattern(postId), CommentsKey(other, rest)) <==> other == postId
  {
    CommentsPatternExact(postId, CommentsKey(other, rest));
    if r :| CommentsKey(other, rest) == CommentsKey(postId, r) {
      CommentsKeyTells(other, rest, postId, r);
    }
  }

  lemma CommentsKeyTells(m: PostId, a: string, n: PostId, b: string)
    requires CommentsKey(m, a) == CommentsKey(n, b)
    ensures m == n && a == b
  {
    var from := |COMMENTS_SCOPE|;
    assert CommentsKey(m, a)[from..] == Decimal(m) + [','] + a;
    assert CommentsKey(n, b)[from..] == Decimal(n) + [','] + b;
    BeforeMark(Decimal(m), ',', a);
    BeforeMark(Decimal(n), ',', b);
    DecimalInjective(m, n);
    assert a == CommentsKey(m, a)[from..][|Decimal(m)| + 1..];
    assert b == CommentsKey(n, b)[from..][|Decimal(n)| + 1..];
  }

  // ---- Posts ----

  const POSTS_CACHE := "cache:posts:"

  datatype Part = Text(text: string) | Number(n: nat)

  function PartText(p: Part): string {
    match p
    case Text(text) => text
    case Number(n) => Decimal(n)
  }

  function Joined(parts: seq<Part>): string {
    if parts == [] then ""
    else if |parts| == 1 then PartText(parts[0])
    else PartText(parts[0]) + ":" + Joined(parts[1..])
  }

  function BuildKey(scope: string, parts: seq<Part>): string {
    var suffix := Joined(parts);
    POSTS_CACHE + scope + if suffix != "" then ":" + suffix else ""
  }

  /** What the posts cache stores. A query is the text of the object it was printed from. */
  datatype Entry =
    | UserList(userId: string, query: string)
    | PublicList(viewer: string, query: string)
    | StaffList(query: string)
    | ById(viewer: string, postId: PostId)

  function KeyOf(e: Entry): string {
    match e
    case UserList(userId, query) => BuildKey("user", [Text(userId), Text(query)])
    case PublicList(viewer, query) => BuildKey("public", [Text(viewer), Text(query)])
    case StaffList(query) => BuildKey("staff", [Text(query)])
    case ById(viewer, postId) => BuildKey("post", [Text(viewer), Number(postId)])
  }

  /** Ids and viewers contain neither the separator nor anything special to a glob. */
  predicate IsId(s: string) { IsPlain(s) && ':' !in s }

  function Owner(e: Entry): string {
    match e
    case UserList(userId, _) => userId
    case PublicList(viewer, _) => viewer
    case StaffList(_) => ""
    case ById(viewer, _) => viewer
  }

  /** A printed object is never empty. */
  predicate IsEntry(e: Entry) {
    IsId(Owner(e)) && (!e.ById? ==> e.query != "")
  }

  function Front(scope: string): string { POSTS_CACHE + scope + ":" }

  lemma PostsCachePlain()
    ensures IsPlain(POSTS_CACHE)
  {
  }

  lemma TwoParts(scope: string, a: string, b: string)
    ensures BuildKey(scope, [Text(a), Text(b)]) == Front(scope) + (a + [':'] + b)
  {
    var parts := [Text(a), Text(b)];
    assert parts[1..] == [Text(b)];
    assert Joined(parts) == a + ":" + b;
  }

  lemma PostParts(a: string, n: PostId)
    ensures BuildKey("post", [Text(a), Number(n)]) == Front("post") + (a + [':'] + Decimal(n))
  {
    var parts := [Text(a), Number(n)];
    assert parts[1..] == [Number(n)];
    assert Joined(parts) == a + ":" + Decimal(n);
  }

  function ScopeOf(e: Entry): string {
    match e
    case UserList(_, _) => "user"
    case PublicList(_, _) => "public"
    case StaffList(_) => "staff"
    case ById(_, _) => "post"
  }

  /** What follows the scope. */
  function Tail(e: Entry): string {
    match e
    case UserList(userId, query) => userId + [':'] + query
    case PublicList(viewer, query) => viewer + [':'] + query
    case StaffList(query) => query
    case ById(viewer, postId) => viewer + [':'] + Decimal(postId)
  }

  lemma KeyParts(e: Entry)
    requires IsEntry(e)
    ensures KeyOf(e) == Front(ScopeOf(e)) + Tail(e) && ':' !in ScopeOf(e)
  {
    match e {
      case UserList(userId, query) => TwoParts("user", userId, query);
      case PublicList(viewer, query) => TwoParts("public", viewer, query);
      case StaffList(query) => assert Joined([Text(query)]) == query;
      case ById(viewer, postId) => PostParts(viewer, postId);
    }
  }

  /** Keys of different scopes start differently. */
  lemma KeyStarts(e: Entry, scope: string)
    requires IsEntry(e) && ':' !in scope
    ensures Front(scope) <= KeyOf(e) <==> scope == ScopeOf(e)
  {
    var base, own := POSTS_CACHE, ScopeOf(e);
    KeyParts(e);
    assert KeyOf(e) == base + (own + [':'] + Tail(e));
    assert KeyOf(e)[|base|..] == own + [':'] + Tail(e);
    assert Front(scope) == base + (scope + [':']);
    assert Front(scope) <= KeyOf(e) <==> scope + [':'] <= KeyOf(e)[|base|..];
    SameWordBefore(scope, own, ':', Tail(e));
  }

  /** No two lists or posts share a key. */
  lemma KeysSeparate(e: Entry, f: Entry)
    requires IsEntry(e) && IsEntry(f)
    ensures KeyOf(e) == KeyOf(f) <==> e == f
  {
    if KeyOf(e) == KeyOf(f) {
      KeyStarts(e, ScopeOf(e));
      KeyParts(f);
      KeyStarts(f, ScopeOf(e));
      KeyParts(e);
      assert Tail(e) == KeyOf(e)[|Front(ScopeOf(e))|..] == Tail(f);
      if !e.StaffList? {
        var a := if e.ById? then Decimal(e.postId) else e.query;
        var b := if f.ById? then Decimal(f.postId) else f.query;
        BeforeMark(Owner(e), ':', a);
        BeforeMark(Owner(f), ':', b);
        assert a == Tail(e)[|Owner(e)| + 1..] == Tail(f)[|Owner(f)| + 1..] == b;
        if e.ById? {
          DecimalInjective(e.postId, f.postId);
        }
      }
    }
  }

  // ---- The patterns ----

  function ListPattern(scope: string): string { BuildKey(scope, [Text("*")]) }

  function ByIdPattern(postId: PostId): string { BuildKey("post", [Text("*"), Number(postId)]) }

  function OwnListPattern(scope: string, userId: string): string { BuildKey(scope, [Text(userId), Text("*")]) }

  predicate IsScope(scope: string) { scope in {"user", "public", "staff", "post"} }

  lemma ScopesPlain(scope: string)
    requires IsScope(scope)
    ensures IsPlain(Front(scope)) && ':' !in scope
  {
    PostsCachePlain();
  }

  /** A list pattern matches exactly the keys of its scope. */
  lemma ListPatternExact(e: Entry, scope: string)
    requires IsEntry(e) && IsScope(scope)
    ensures Matches(ListPattern(scope), KeyOf(e)) <==> scope == ScopeOf(e)
  {
    ScopesPlain(scope);
    assert Joined([Text("*")]) == "*";
    assert ListPattern(scope) == Front(scope) + "*";
    PrefixPattern(Front(scope), KeyOf(e));
    KeyStarts(e, scope);
  }

  /** The viewer-aware pattern matches exactly that post's entries, whoever the viewer. */
  lemma ByIdPatternExact(e: Entry, postId: PostId)
    requires IsEntry(e)
    ensures Matches(ByIdPattern(postId), KeyOf(e)) <==> e.ById? && e.postId == postId
  {
    var prefix, suffix := Front("post"), [':'] + Decimal(postId);
    PostParts("*", postId);
    ScopesPlain("post");
    assert ByIdPattern(postId) == prefix + ("*" + suffix);
    MatchPrefix(prefix, "*" + suffix, KeyOf(e));
    KeyStarts(e, "post");
    KeyParts(e);
    if e.ById? {
      assert KeyOf(e)[|prefix|..] == Tail(e);
      MatchSuffix(suffix, Tail(e));
      SameWordAfter(e.viewer, Decimal(postId), Decimal(e.postId), ':');
      if Decimal(postId) == Decimal(e.postId) {
        DecimalInjective(postId, e.postId);
      }
    }
  }

  lemma StartsWithBoth(a: string, b: string, s: string)
    ensures a + b <= s <==> a <= s && b <= s[|a|..]
  {
    if a <= s && b <= s[|a|..] {
      assert s == a + s[|a|..];
    }
  }

  /** A user's own pattern matches exactly that user's lists of the scope. */
  lemma OwnListPatternExact(scope: string, userId: string, e: Entry)
    requires IsId(userId) && IsEntry(e) && (scope == "user" || scope == "public")
    ensures Matches(OwnListPattern(scope, userId), KeyOf(e)) <==> scope == ScopeOf(e) && Owner(e) == userId
  {
    var front, own := Front(scope), userId + [':'];
    ScopesPlain(scope);
    TwoParts(scope, userId, "*");
    assert OwnListPattern(scope, userId) == (front + own) + "*";
    PrefixPattern(front + own, KeyOf(e));
    KeyStarts(e, scope);
    KeyParts(e);
    StartsWithBoth(front, own, KeyOf(e));
    if scope == ScopeOf(e) {
      assert KeyOf(e)[|front|..] == Tail(e) == Owner(e) + [':'] + e.query;
      SameWordBefore(userId, Owner(e), ':', e.query);
    }
  }

  predicate HitsPost(key: string, postId: PostId) {
    key == BuildKey("post", [Number(postId)]) || Matches(ByIdPattern(postId), key)
  }

  /** Everything a change to these posts invalidates. */
  predicate HitByMutation(key: string, postIds: set<PostId>) {
    || (exists postId :: postId in postIds && HitsPost(key, postId))
    || Matches(ListPattern("user"), key) || Matches(ListPattern("public"), key) || Matches(ListPattern("staff"), key)
  }

  /** The exact key of a post, without a viewer, is one nothing is stored under. */
  lemma ExactKeyUnused(e: Entry, postId: PostId)
    requires IsEntry(e)
    ensures KeyOf(e) != BuildKey("post", [Number(postId)])
  {
    var k := BuildKey("post", [Number(postId)]);
    assert Joined([Number(postId)]) == Decimal(postId);
    assert k == Front("post") + Decimal(postId) && k[|Front("post")|..] == Decimal(postId);
    KeyStarts(e, "post");
    KeyParts(e);
    if e.ById? {
      assert KeyOf(e)[|Front("post")|..] == Tail(e);
      assert Tail(e)[|e.viewer|] == ':';
      assert ':' in Tail(e) && ':' !in Decimal(postId);
    }
  }

  /** It hits all lists, of users, of the public and of staff, and by-id entries exactly of the posts that changed. */
  lemma MutationHitsExactly(e: Entry, postIds: set<PostId>)
    requires IsEntry(e)
    ensures HitByMutation(KeyOf(e), postIds) <==> !e.ById? || e.postId in postIds
  {
    ListPatternExact(e, "user");
    ListPatternExact(e, "public");
    ListPatternExact(e, "staff");
    forall postId ensures HitsPost(KeyOf(e), postId) <==> e.ById? && e.postId == postId {
      ByIdPatternExact(e, postId);
      ExactKeyUnused(e, postId);
    }
  }

  predicate HitByLike(key: string, postId: PostId, userId: string) {
    || HitsPost(key, postId)
    || Matches(OwnListPattern("public", userId), key) || Matches(OwnListPattern("user", userId), key)
  }

  /** A like hits the post's by-id entries of every viewer, and the lists of the user who likes and of no one else. */
  lemma LikeHitsExactly(e: Entry, postId: PostId, userId: string)
    requires IsEntry(e) && IsId(userId)
    ensures HitByLike(KeyOf(e), postId, userId) <==>
            match e
            case UserList(u, _) => u == userId
            case PublicList(v, _) => v == userId
            case StaffList(_) => false
            case ById(_, p) => p == postId
  {
    ByIdPatternExact(e, postId);
    ExactKeyUnused(e, postId);
    OwnListPatternExact("user", userId, e);
    OwnListPatternExact("public", userId, e);
  }
}
