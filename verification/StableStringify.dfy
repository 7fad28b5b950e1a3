/** Request payloads as parsed JSON values. Strings are sequences of UTF-16 code units, as in JavaScript;
    an object is its list of members in insertion order. */
module Json {

  type CodeUnit = u: int | 0 <= u < 0x1_0000
  type Text = seq<CodeUnit>

  /** A number is known by its printed form. A literal such as 1e999 parses to Infinity, which prints as null. */
  datatype JsNumber = Finite(printed: Text) | NonFinite

  datatype Json =
    | Null
    | Bool(b: bool)
    | Number(n: JsNumber)
    | Str(s: Text)
    | Arr(items: seq<Json>)
    | Obj(members: seq<Member>)

  datatype Member = Member(key: Text, value: Json)

  const COMMA: CodeUnit := 44
  const COLON: CodeUnit := 58
  const QUOTE: CodeUnit := 34
  const BACKSLASH: CodeUnit := 92
  const OPEN_BRACKET: CodeUnit := 91
  const CLOSE_BRACKET: CodeUnit := 93
  const OPEN_BRACE: CodeUnit := 123
  const CLOSE_BRACE: CodeUnit := 125
  const NULL_TEXT: Text := [110, 117, 108, 108]
  const TRUE_TEXT: Text := [116, 114, 117, 101]
  const FALSE_TEXT: Text := [102, 97, 108, 115, 101]

  /** Digits, sign, point and exponent marks: the only units a printed number has. */
  predicate IsNumeric(u: CodeUnit) {
    48 <= u <= 57 || u == 43 || u == 45 || u == 46 || u == 101
  }

  predicate DistinctKeys(members: seq<Member>) {
    forall i, j :: 0 <= i < j < |members| ==> members[i].key != members[j].key
  }

  /** What JSON.parse can return: numbers print as numbers and no object repeats a key. */
  predicate WellFormed(v: Json) {
    match v
    case Number(Finite(printed)) => printed != [] && forall u :: u in printed ==> IsNumeric(u)
    case Arr(items) => forall i :: 0 <= i < |items| ==> WellFormed(items[i])
    case Obj(members) => DistinctKeys(members) && forall i :: 0 <= i < |members| ==> WellFormed(members[i].value)
    case _ => true
  }

  predicate PrintsAsNull(v: Json) {
    v.Null? || (v.Number? && v.n.NonFinite?)
  }

  ghost function KeySet(members: seq<Member>): set<Text> {
    set i | 0 <= i < |members| :: members[i].key
  }

  /** Equality up to the order of object members; numbers are compared by printed form. */
  ghost predicate SameUpToOrder(a: Json, b: Json)
    decreases a
  {
    if PrintsAsNull(a) || PrintsAsNull(b) then PrintsAsNull(a) && PrintsAsNull(b)
    else if a.Arr? && b.Arr? then
      |a.items| == |b.items| && forall i :: 0 <= i < |a.items| ==> SameUpToOrder(a.items[i], b.items[i])
    else if a.Obj? && b.Obj? then
      && KeySet(a.members) == KeySet(b.members)
      && forall i, j :: 0 <= i < |a.members| && 0 <= j < |b.members| && a.members[i].key == b.members[j].key
                        ==> SameUpToOrder(a.members[i].value, b.members[j].value)
    else a == b && !a.Arr? && !a.Obj?
  }
}

/** JSON.stringify on strings: quoting with escapes. */
module JsonQuoting {
  import opened Json

  predicate IsHighSurrogate(u: CodeUnit) { 0xD800 <= u < 0xDC00 }

  predicate IsLowSurrogate(u: CodeUnit) { 0xDC00 <= u < 0xE000 }

  function HexDigit(d: int): CodeUnit
    requires 0 <= d < 16
  {
    if d < 10 then 48 + d else 87 + d
  }

  /** The \uXXXX form of a code unit. */
  function UnicodeEscape(u: CodeUnit): Text {
    [BACKSLASH, 117, HexDigit(u / 4096), HexDigit(u / 256 % 16), HexDigit(u / 16 % 16), HexDigit(u % 16)]
  }

  /** The printed form of one code unit that is not part of a surrogate pair. */
  function EscapeUnit(u: CodeUnit): Text {
    if u == QUOTE then [BACKSLASH, QUOTE]
    else if u == BACKSLASH then [BACKSLASH, BACKSLASH]
    else if u == 8 then [BACKSLASH, 98]
    else if u == 9 then [BACKSLASH, 116]
    else if u == 10 then [BACKSLASH, 110]
    else if u == 12 then [BACKSLASH, 102]
    else if u == 13 then [BACKSLASH, 114]
    else if u < 32 || IsHighSurrogate(u) || IsLowSurrogate(u) then UnicodeEscape(u)
    else [u]
  }

  predicate StartsWithPair(s: Text) {
    |s| >= 2 && IsHighSurrogate(s[0]) && IsLowSurrogate(s[1])
  }

  function EscapeText(s: Text): Text {
    if s == [] then []
    else if StartsWithPair(s) then [s[0], s[1]] + EscapeText(s[2..])
    else EscapeUnit(s[0]) + EscapeText(s[1..])
  }

  function Quote(s: Text): Text {
    [QUOTE] + EscapeText(s) + [QUOTE]
  }

  lemma HexDecomposition(u: CodeUnit)
    ensures u == u / 4096 * 4096 + u / 256 % 16 * 256 + u / 16 % 16 * 16 + u % 16
  {
    DivideTwice(u, 16);
    DivideTwice(u, 256);
  }

  lemma DivideTwice(u: int, d: int)
    requires u >= 0 && d in {16, 256}
    ensures u / d == u / (16 * d) * 16 + u / d % 16
  {
  }

  lemma HexDigitInjective(d: int, e: int)
    requires 0 <= d < 16 && 0 <= e < 16 && HexDigit(d) == HexDigit(e)
    ensures d == e
  {
  }

  lemma UnicodeEscapeInjective(u: CodeUnit, v: CodeUnit)
    requires UnicodeEscape(u) == UnicodeEscape(v)
    ensures u == v
  {
    var a, b := UnicodeEscape(u), UnicodeEscape(v);
    assert a[2] == b[2] && a[3] == b[3] && a[4] == b[4] && a[5] == b[5];
    HexDigitInjective(u / 4096, v / 4096);
    HexDigitInjective(u / 256 % 16, v / 256 % 16);
    HexDigitInjective(u / 16 % 16, v / 16 % 16);
    HexDigitInjective(u % 16, v % 16);
    HexDecomposition(u);
    HexDecomposition(v);
  }

  lemma EscapeUnitPrefixFree(u: CodeUnit, v: CodeUnit, x: Text, y: Text)
    requires EscapeUnit(u) + x == EscapeUnit(v) + y
    ensures u == v && x == y
  {
    var l, r := EscapeUnit(u) + x, EscapeUnit(v) + y;
    assert l[0] == r[0];
    if l[0] == BACKSLASH {
      assert l[1] == r[1];
      if l[1] == 117 {
        assert l[..6] == UnicodeEscape(u) && r[..6] == UnicodeEscape(v);
        UnicodeEscapeInjective(u, v);
      }
    }
    assert u == v;
    assert x == l[|EscapeUnit(u)|..] && y == r[|EscapeUnit(v)|..];
  }

  lemma EscapeTextHead(s: Text, x: Text)
    requires s != []
    ensures var l := EscapeText(s) + [QUOTE] + x;
            |l| > 1 && l[0] != QUOTE && (IsHighSurrogate(l[0]) <==> StartsWithPair(s))
  {
  }

  lemma EscapeTextStep(s: Text, x: Text)
    requires s != []
    ensures EscapeText(s) + [QUOTE] + x ==
            if StartsWithPair(s) then [s[0], s[1]] + (EscapeText(s[2..]) + [QUOTE] + x)
            else EscapeUnit(s[0]) + (EscapeText(s[1..]) + [QUOTE] + x)
  {
  }

  /** A quoted string can be read back in only one way: its closing quote is the first unescaped one. */
  lemma {:induction false} EscapePrefixFree(a: Text, b: Text, x: Text, y: Text)
    requires EscapeText(a) + [QUOTE] + x == EscapeText(b) + [QUOTE] + y
    ensures a == b && x == y
    decreases |a|
  {
    var l, r := EscapeText(a) + [QUOTE] + x, EscapeText(b) + [QUOTE] + y;
    assert l[0] == r[0];
    if a == [] || b == [] {
      if a != [] { EscapeTextHead(a, x); }
      if b != [] { EscapeTextHead(b, y); }
      assert x == l[1..] && y == r[1..];
    } else {
      EscapeTextHead(a, x);
      EscapeTextHead(b, y);
      EscapeTextStep(a, x);
      EscapeTextStep(b, y);
      if StartsWithPair(a) {
        assert l[1] == r[1];
        assert l[2..] == EscapeText(a[2..]) + [QUOTE] + x;
        assert r[2..] == EscapeText(b[2..]) + [QUOTE] + y;
        EscapePrefixFree(a[2..], b[2..], x, y);
        assert a == [a[0], a[1]] + a[2..] && b == [b[0], b[1]] + b[2..];
      } else {
        var x', y' := EscapeText(a[1..]) + [QUOTE] + x, EscapeText(b[1..]) + [QUOTE] + y;
        EscapeUnitPrefixFree(a[0], b[0], x', y');
        EscapePrefixFree(a[1..], b[1..], x, y);
        assert a == [a[0]] + a[1..] && b == [b[0]] + b[1..];
      }
    }
  }

  lemma QuotePrefixFree(a: Text, b: Text, x: Text, y: Text)
    requires Quote(a) + x == Quote(b) + y
    ensures a == b && x == y
  {
    assert (Quote(a) + x)[1..] == EscapeText(a) + [QUOTE] + x;
    assert (Quote(b) + y)[1..] == EscapeText(b) + [QUOTE] + y;
    EscapePrefixFree(a, b, x, y);
  }
}

/** stableStringify: a printer whose output does not depend on member order. */
module StableStringify {
  import opened Json
  import opened JsonQuoting

  /** Array.prototype.sort on strings: lexicographic by code unit. */
  predicate TextLeq(a: Text, b: Text) {
    a == [] || (b != [] && (a[0] < b[0] || (a[0] == b[0] && TextLeq(a[1..], b[1..]))))
  }

  lemma {:induction false} TextLeqTotal(a: Text, b: Text)
    ensures TextLeq(a, b) || TextLeq(b, a)
  {
    if a != [] && b != [] && a[0] == b[0] {
      TextLeqTotal(a[1..], b[1..]);
    }
  }

  lemma {:induction false} TextLeqAntisymmetric(a: Text, b: Text)
    requires TextLeq(a, b) && TextLeq(b, a)
    ensures a == b
  {
    if a != [] && b != [] {
      TextLeqAntisymmetric(a[1..], b[1..]);
      assert a == [a[0]] + a[1..] && b == [b[0]] + b[1..];
    }
  }

  lemma {:induction false} TextLeqTransitive(a: Text, b: Text, c: Text)
    requires TextLeq(a, b) && TextLeq(b, c)
    ensures TextLeq(a, c)
  {
    if a != [] && a[0] == b[0] == c[0] {
      TextLeqTransitive(a[1..], b[1..], c[1..]);
    }
  }

  ghost predicate Sorted(keys: seq<Text>) {
    forall i, j :: 0 <= i < j < |keys| ==> TextLeq(keys[i], keys[j])
  }

  ghost predicate Distinct(keys: seq<Text>) {
    forall i, j :: 0 <= i < j < |keys| ==> keys[i] != keys[j]
  }

  function Insert(key: Text, keys: seq<Text>): (r: seq<Text>)
    ensures multiset(r) == multiset(keys) + multiset{key}
  {
    if keys == [] || TextLeq(key, keys[0]) then [key] + keys
    else
      assert keys == [keys[0]] + keys[1..];
      [keys[0]] + Insert(key, keys[1..])
  }

  lemma {:induction false} InsertSorted(key: Text, keys: seq<Text>)
    requires Sorted(keys)
    ensures Sorted(Insert(key, keys))
  {
    if keys == [] {
    } else if TextLeq(key, keys[0]) {
      forall j | 0 <= j < |keys| ensures TextLeq(key, keys[j]) {
        if j > 0 { TextLeqTransitive(key, keys[0], keys[j]); }
      }
    } else {
      var rest := Insert(key, keys[1..]);
      InsertSorted(key, keys[1..]);
      TextLeqTotal(key, keys[0]);
      forall j | 0 <= j < |rest| ensures TextLeq(keys[0], rest[j]) {
        assert rest[j] in multiset(rest);
        assert rest[j] == key || rest[j] in keys[1..];
      }
    }
  }

  function Sort(keys: seq<Text>): (r: seq<Text>)
    ensures multiset(r) == multiset(keys)
  {
    if keys == [] then []
    else
      assert keys == [keys[0]] + keys[1..];
      Insert(keys[0], Sort(keys[1..]))
  }

  lemma {:induction false} SortSorted(keys: seq<Text>)
    ensures Sorted(Sort(keys))
  {
    if keys != [] {
      SortSorted(keys[1..]);
      InsertSorted(keys[0], Sort(keys[1..]));
    }
  }

  /** Object.keys. */
  function Keys(members: seq<Member>): (r: seq<Text>)
    ensures |r| == |members| && forall i :: 0 <= i < |r| ==> r[i] == members[i].key
  {
    seq(|members|, i requires 0 <= i < |members| => members[i].key)
  }

  /** The position of the member that obj[key] reads. */
  function IndexOf(members: seq<Member>, key: Text): (i: nat)
    requires key in Keys(members)
    ensures i < |members| && members[i].key == key
  {
    if members[0].key == key then 0
    else
      assert exists i :: 0 <= i < |members[1..]| && Keys(members[1..])[i] == key by {
        var i :| 0 <= i < |members| && Keys(members)[i] == key;
        assert Keys(members[1..])[i - 1] == key;
      }
      1 + IndexOf(members[1..], key)
  }

  function Stringify(v: Json): Text
    decreases v, 0
  {
    match v
    case Null => NULL_TEXT
    case Bool(b) => if b then TRUE_TEXT else FALSE_TEXT
    case Number(n) => if n.Finite? then n.printed else NULL_TEXT
    case Str(s) => Quote(s)
    case Arr(items) => [OPEN_BRACKET] + ItemsText(items) + [CLOSE_BRACKET]
    case Obj(members) =>
      var keys := Sort(Keys(members));
      assert forall k :: k in keys ==> k in multiset(keys);
      [OPEN_BRACE] + MembersText(members, keys) + [CLOSE_BRACE]
  }

  /** The printed items joined by commas: the first item, then each further one behind a comma. */
  function ItemsText(items: seq<Json>): Text
    decreases items, 1
  {
    if items == [] then [] else Stringify(items[0]) + ItemsTail(items[1..])
  }

  function ItemsTail(items: seq<Json>): Text
    decreases items, 0
  {
    if items == [] then [] else [COMMA] + (Stringify(items[0]) + ItemsTail(items[1..]))
  }

  /** One printed member: quoted key, colon, the value obj[key] reads. */
  function EntryText(members: seq<Member>, key: Text): Text
    requires key in Keys(members)
    decreases members, 0
  {
    Quote(key) + ([COLON] + Stringify(members[IndexOf(members, key)].value))
  }

  function MembersText(members: seq<Member>, keys: seq<Text>): Text
    requires forall k :: k in keys ==> k in Keys(members)
    decreases members, |keys| + 1
  {
    if keys == [] then [] else EntryText(members, keys[0]) + MembersTail(members, keys[1..])
  }

  function MembersTail(members: seq<Member>, keys: seq<Text>): Text
    requires forall k :: k in keys ==> k in Keys(members)
    decreases members, |keys| + 1
  {
    if keys == [] then [] else [COMMA] + (EntryText(members, keys[0]) + MembersTail(members, keys[1..]))
  }

  /** What may follow a value inside a larger text. */
  predicate Stops(x: Text) {
    x == [] || x[0] == COMMA || x[0] == CLOSE_BRACKET || x[0] == CLOSE_BRACE
  }

  /** The first unit of a printed value tells its kind. */
  predicate HasHead(v: Json, u: CodeUnit) {
    match v
    case Null => u == 110
    case Bool(b) => u == if b then 116 else 102
    case Number(n) => if n.Finite? then IsNumeric(u) else u == 110
    case Str(_) => u == QUOTE
    case Arr(_) => u == OPEN_BRACKET
    case Obj(_) => u == OPEN_BRACE
  }

  lemma StringifyHead(v: Json)
    requires WellFormed(v)
    ensures Stringify(v) != [] && HasHead(v, Stringify(v)[0])
  {
  }

  lemma NumberPrefixFree(p: Text, q: Text, x: Text, y: Text)
    requires forall u :: u in p ==> IsNumeric(u)
    requires forall u :: u in q ==> IsNumeric(u)
    requires Stops(x) && Stops(y) && p + x == q + y
    ensures p == q && x == y
  {
    if |p| < |q| {
      ShorterMeetsStop(p, q, x, y);
    } else if |q| < |p| {
      ShorterMeetsStop(q, p, y, x);
    } else {
      assert p == (p + x)[..|p|] && q == (q + y)[..|q|];
      Cancel(p, x, y);
    }
  }

  lemma ShorterMeetsStop(p: Text, q: Text, x: Text, y: Text)
    requires |p| < |q| && p + x == q + y
    ensures x != [] && x[0] in q
  {
    assert (p + x)[|p|] == (q + y)[|p|] == q[|p|];
  }

  lemma Cancel(k: Text, x: Text, y: Text)
    requires k + x == k + y
    ensures x == y
  {
    assert x == (k + x)[|k|..] && y == (k + y)[|k|..];
  }

  lemma Assoc(a: Text, b: Text, c: Text)
    ensures a + b + c == a + (b + c)
  {
  }

  /** Unique parsing: a printed value, followed by whatever may follow a value, can be read back in only one way,
      up to member order. */
  lemma {:induction false} ReadBack(a: Json, b: Json, x: Text, y: Text)
    requires WellFormed(a) && WellFormed(b) && Stops(x) && Stops(y)
    requires Stringify(a) + x == Stringify(b) + y
    ensures SameUpToOrder(a, b) && x == y
    decreases a, 1
  {
    StringifyHead(a);
    StringifyHead(b);
    assert (Stringify(a) + x)[0] == (Stringify(b) + y)[0];
    match a {
      case Number(Finite(p)) =>
        NumberPrefixFree(p, b.n.printed, x, y);
      case Str(s) =>
        QuotePrefixFree(s, b.s, x, y);
      case Arr(items) =>
        BracketedText(OPEN_BRACKET, ItemsText(items), CLOSE_BRACKET, x);
        BracketedText(OPEN_BRACKET, ItemsText(b.items), CLOSE_BRACKET, y);
        Cancel([OPEN_BRACKET], ItemsText(items) + ([CLOSE_BRACKET] + x), ItemsText(b.items) + ([CLOSE_BRACKET] + y));
        ItemsReadBack(items, b.items, [CLOSE_BRACKET] + x, [CLOSE_BRACKET] + y);
        Cancel([CLOSE_BRACKET], x, y);
      case Obj(members) =>
        ObjectReadBack(members, b.members, x, y);
      case _ =>
        Cancel(Stringify(a), x, y);
    }
  }

  lemma BracketedText(open: CodeUnit, body: Text, close: CodeUnit, x: Text)
    ensures [open] + body + [close] + x == [open] + (body + ([close] + x))
  {
  }

  ghost predicate AllWellFormed(xs: seq<Json>) {
    forall i :: 0 <= i < |xs| ==> WellFormed(xs[i])
  }

  ghost predicate AllSame(xs: seq<Json>, ys: seq<Json>) {
    |xs| == |ys| && forall i :: 0 <= i < |xs| ==> SameUpToOrder(xs[i], ys[i])
  }

  lemma AllSameCons(xs: seq<Json>, ys: seq<Json>)
    requires xs != [] && ys != [] && SameUpToOrder(xs[0], ys[0]) && AllSame(xs[1..], ys[1..])
    ensures AllSame(xs, ys)
  {
    forall i | 0 <= i < |xs| ensures SameUpToOrder(xs[i], ys[i]) {
      if i > 0 { assert SameUpToOrder(xs[1..][i - 1], ys[1..][i - 1]); }
    }
  }

  lemma {:induction false} ItemsReadBack(xs: seq<Json>, ys: seq<Json>, x: Text, y: Text)
    requires AllWellFormed(xs) && AllWellFormed(ys)
    requires x != [] && x[0] == CLOSE_BRACKET && y != [] && y[0] == CLOSE_BRACKET
    requires ItemsText(xs) + x == ItemsText(ys) + y
    ensures AllSame(xs, ys) && x == y
    decreases xs, 1
  {
    assert (ItemsText(xs) + x)[0] == (ItemsText(ys) + y)[0];
    if xs == [] || ys == [] {
      if xs != [] { StringifyHead(xs[0]); }
      if ys != [] { StringifyHead(ys[0]); }
      Cancel([], x, y);
    } else {
      ItemsHeadReadBack(xs, ys, x, y);
    }
  }

  lemma {:induction false} ItemsTailReadBack(xs: seq<Json>, ys: seq<Json>, x: Text, y: Text)
    requires AllWellFormed(xs) && AllWellFormed(ys)
    requires x != [] && x[0] == CLOSE_BRACKET && y != [] && y[0] == CLOSE_BRACKET
    requires ItemsTail(xs) + x == ItemsTail(ys) + y
    ensures AllSame(xs, ys) && x == y
    decreases xs, 1
  {
    assert (ItemsTail(xs) + x)[0] == (ItemsTail(ys) + y)[0];
    if xs != [] && ys != [] {
      Assoc([COMMA], ItemsText(xs), x);
      Assoc([COMMA], ItemsText(ys), y);
      Cancel([COMMA], ItemsText(xs) + x, ItemsText(ys) + y);
      ItemsHeadReadBack(xs, ys, x, y);
    } else {
      Cancel([], x, y);
    }
  }

  lemma {:induction false} ItemsHeadReadBack(xs: seq<Json>, ys: seq<Json>, x: Text, y: Text)
    requires xs != [] && ys != []
    requires AllWellFormed(xs) && AllWellFormed(ys)
    requires x != [] && x[0] == CLOSE_BRACKET && y != [] && y[0] == CLOSE_BRACKET
    requires ItemsText(xs) + x == ItemsText(ys) + y
    ensures AllSame(xs, ys) && x == y
    decreases xs, 0
  {
    Assoc(Stringify(xs[0]), ItemsTail(xs[1..]), x);
    Assoc(Stringify(ys[0]), ItemsTail(ys[1..]), y);
    ReadBack(xs[0], ys[0], ItemsTail(xs[1..]) + x, ItemsTail(ys[1..]) + y);
    ItemsTailReadBack(xs[1..], ys[1..], x, y);
    AllSameCons(xs, ys);
  }

  lemma {:induction false} ObjectReadBack(ms: seq<Member>, ns: seq<Member>, x: Text, y: Text)
    requires WellFormed(Obj(ms)) && WellFormed(Obj(ns))
    requires Stringify(Obj(ms)) + x == Stringify(Obj(ns)) + y
    ensures SameUpToOrder(Obj(ms), Obj(ns)) && x == y
    decreases ms, 2 * |ms| + 2
  {
    var ks, ls := Sort(Keys(ms)), Sort(Keys(ns));
    SortKeysMembers(ms);
    SortKeysMembers(ns);
    BracketedText(OPEN_BRACE, MembersText(ms, ks), CLOSE_BRACE, x);
    BracketedText(OPEN_BRACE, MembersText(ns, ls), CLOSE_BRACE, y);
    Cancel([OPEN_BRACE], MembersText(ms, ks) + ([CLOSE_BRACE] + x), MembersText(ns, ls) + ([CLOSE_BRACE] + y));
    assert |ks| == |multiset(ks)| == |ms|;
    MembersReadBack(ms, ns, ks, ls, [CLOSE_BRACE] + x, [CLOSE_BRACE] + y);
    Cancel([CLOSE_BRACE], x, y);
    SameMembers(ms, ns, ks);
  }

  lemma SameMembers(ms: seq<Member>, ns: seq<Member>, ks: seq<Text>)
    requires DistinctKeys(ms) && DistinctKeys(ns)
    requires forall k :: k in ks <==> k in Keys(ms)
    requires forall k :: k in ks <==> k in Keys(ns)
    requires forall k :: k in ks ==> SameUpToOrder(ms[IndexOf(ms, k)].value, ns[IndexOf(ns, k)].value)
    ensures SameUpToOrder(Obj(ms), Obj(ns))
  {
    forall k ensures k in KeySet(ms) <==> k in KeySet(ns) {
      assert k in KeySet(ms) <==> k in Keys(ms);
      assert k in KeySet(ns) <==> k in Keys(ns);
    }
    forall i, j | 0 <= i < |ms| && 0 <= j < |ns| && ms[i].key == ns[j].key
      ensures SameUpToOrder(ms[i].value, ns[j].value)
    {
      var k := ms[i].key;
      assert Keys(ms)[i] == k && Keys(ns)[j] == k;
      assert k in ks && IndexOf(ms, k) == i && IndexOf(ns, k) == j;
    }
  }

  lemma {:induction false} MembersReadBack(ms: seq<Member>, ns: seq<Member>, ks: seq<Text>, ls: seq<Text>, x: Text, y: Text)
    requires WellFormed(Obj(ms)) && WellFormed(Obj(ns))
    requires forall k :: k in ks ==> k in Keys(ms)
    requires forall k :: k in ls ==> k in Keys(ns)
    requires x != [] && x[0] == CLOSE_BRACE && y != [] && y[0] == CLOSE_BRACE
    requires MembersText(ms, ks) + x == MembersText(ns, ls) + y
    ensures ks == ls && x == y
    ensures forall k :: k in ks ==> SameUpToOrder(ms[IndexOf(ms, k)].value, ns[IndexOf(ns, k)].value)
    decreases ms, 2 * |ks| + 1
  {
    assert (MembersText(ms, ks) + x)[0] == (MembersText(ns, ls) + y)[0];
    if ks != [] && ls != [] {
      MembersHeadReadBack(ms, ns, ks, ls, x, y);
    } else {
      Cancel([], x, y);
    }
  }

  lemma {:induction false} MembersTailReadBack(ms: seq<Member>, ns: seq<Member>, ks: seq<Text>, ls: seq<Text>, x: Text, y: Text)
    requires WellFormed(Obj(ms)) && WellFormed(Obj(ns))
    requires forall k :: k in ks ==> k in Keys(ms)
    requires forall k :: k in ls ==> k in Keys(ns)
    requires x != [] && x[0] == CLOSE_BRACE && y != [] && y[0] == CLOSE_BRACE
    requires MembersTail(ms, ks) + x == MembersTail(ns, ls) + y
    ensures ks == ls && x == y
    ensures forall k :: k in ks ==> SameUpToOrder(ms[IndexOf(ms, k)].value, ns[IndexOf(ns, k)].value)
    decreases ms, 2 * |ks| + 1
  {
    assert (MembersTail(ms, ks) + x)[0] == (MembersTail(ns, ls) + y)[0];
    if ks != [] && ls != [] {
      Assoc([COMMA], MembersText(ms, ks), x);
      Assoc([COMMA], MembersText(ns, ls), y);
      Cancel([COMMA], MembersText(ms, ks) + x, MembersText(ns, ls) + y);
      MembersHeadReadBack(ms, ns, ks, ls, x, y);
    } else {
      Cancel([], x, y);
    }
  }

  lemma {:induction false} EntryReadBack(ms: seq<Member>, ns: seq<Member>, k: Text, l: Text, x: Text, y: Text)
    requires WellFormed(Obj(ms)) && WellFormed(Obj(ns)) && Stops(x) && Stops(y)
    requires k in Keys(ms) && l in Keys(ns)
    requires EntryText(ms, k) + x == EntryText(ns, l) + y
    ensures k == l && x == y
    ensures SameUpToOrder(ms[IndexOf(ms, k)].value, ns[IndexOf(ns, l)].value)
    decreases ms, 0
  {
    var v, w := ms[IndexOf(ms, k)].value, ns[IndexOf(ns, l)].value;
    EntryAssoc(ms, k, x);
    EntryAssoc(ns, l, y);
    QuotePrefixFree(k, l, [COLON] + (Stringify(v) + x), [COLON] + (Stringify(w) + y));
    Cancel([COLON], Stringify(v) + x, Stringify(w) + y);
    ReadBack(v, w, x, y);
  }

  lemma EntryAssoc(ms: seq<Member>, k: Text, x: Text)
    requires k in Keys(ms)
    ensures EntryText(ms, k) + x == Quote(k) + ([COLON] + (Stringify(ms[IndexOf(ms, k)].value) + x))
  {
    var v := Stringify(ms[IndexOf(ms, k)].value);
    Assoc(Quote(k), [COLON] + v, x);
    Assoc([COLON], v, x);
  }

  lemma {:induction false} MembersHeadReadBack(ms: seq<Member>, ns: seq<Member>, ks: seq<Text>, ls: seq<Text>, x: Text, y: Text)
    requires WellFormed(Obj(ms)) && WellFormed(Obj(ns))
    requires ks != [] && ls != []
    requires forall k :: k in ks ==> k in Keys(ms)
    requires forall k :: k in ls ==> k in Keys(ns)
    requires x != [] && x[0] == CLOSE_BRACE && y != [] && y[0] == CLOSE_BRACE
    requires MembersText(ms, ks) + x == MembersText(ns, ls) + y
    ensures ks == ls && x == y
    ensures forall k :: k in ks ==> SameUpToOrder(ms[IndexOf(ms, k)].value, ns[IndexOf(ns, k)].value)
    decreases ms, 2 * |ks|
  {
    Assoc(EntryText(ms, ks[0]), MembersTail(ms, ks[1..]), x);
    Assoc(EntryText(ns, ls[0]), MembersTail(ns, ls[1..]), y);
    EntryReadBack(ms, ns, ks[0], ls[0], MembersTail(ms, ks[1..]) + x, MembersTail(ns, ls[1..]) + y);
    MembersTailReadBack(ms, ns, ks[1..], ls[1..], x, y);
    assert ks == [ks[0]] + ks[1..] && ls == [ls[0]] + ls[1..];
  }

  lemma SortKeysMembers(members: seq<Member>)
    ensures forall k :: k in Sort(Keys(members)) <==> k in Keys(members)
  {
    forall k ensures k in Sort(Keys(members)) <==> k in Keys(members) {
      assert k in Sort(Keys(members)) <==> k in multiset(Sort(Keys(members)));
    }
  }

  lemma FirstIsLeast(xs: seq<Text>, k: Text)
    requires Sorted(xs) && k in xs
    ensures TextLeq(xs[0], k)
  {
    TextLeqTotal(k, k);
  }

  lemma TailMultiset(xs: seq<Text>)
    requires xs != []
    ensures multiset(xs[1..]) == multiset(xs) - multiset{xs[0]}
  {
    assert xs == [xs[0]] + xs[1..];
  }

  lemma SameFirst(xs: seq<Text>, ys: seq<Text>)
    requires Sorted(xs) && Sorted(ys) && multiset(xs) == multiset(ys) && xs != [] && ys != []
    ensures xs[0] == ys[0]
  {
    assert xs[0] in multiset(ys) && ys[0] in multiset(xs);
    FirstIsLeast(xs, ys[0]);
    FirstIsLeast(ys, xs[0]);
    TextLeqAntisymmetric(xs[0], ys[0]);
  }

  lemma {:induction false} SortedUnique(xs: seq<Text>, ys: seq<Text>)
    requires Sorted(xs) && Sorted(ys) && multiset(xs) == multiset(ys)
    ensures xs == ys
    decreases |xs|
  {
    assert |xs| == |multiset(xs)| == |multiset(ys)| == |ys|;
    if xs != [] {
      SameFirst(xs, ys);
      TailMultiset(xs);
      TailMultiset(ys);
      SortedUnique(xs[1..], ys[1..]);
      assert xs == [xs[0]] + xs[1..];
      assert ys == [ys[0]] + ys[1..];
    }
  }

  lemma KeysMultiset(members: seq<Member>)
    requires DistinctKeys(members)
    ensures forall k :: multiset(Keys(members))[k] == if k in KeySet(members) then 1 else 0
  {
    if members == [] {
      assert Keys(members) == [];
    } else {
      KeysMultiset(members[1..]);
      assert Keys(members) == [members[0].key] + Keys(members[1..]);
      assert KeySet(members) == {members[0].key} + KeySet(members[1..]);
      forall i | 0 <= i < |members[1..]| ensures members[1..][i].key != members[0].key {
        assert members[1..][i] == members[i + 1];
      }
    }
  }

  lemma SameKeysMultiset(ms: seq<Member>, ns: seq<Member>)
    requires DistinctKeys(ms) && DistinctKeys(ns) && KeySet(ms) == KeySet(ns)
    ensures multiset(Keys(ms)) == multiset(Keys(ns))
  {
    KeysMultiset(ms);
    KeysMultiset(ns);
  }

  lemma SameSortedKeys(ms: seq<Member>, ns: seq<Member>)
    requires DistinctKeys(ms) && DistinctKeys(ns) && KeySet(ms) == KeySet(ns)
    ensures Sort(Keys(ms)) == Sort(Keys(ns))
  {
    SameKeysMultiset(ms, ns);
    SortSorted(Keys(ms));
    SortSorted(Keys(ns));
    SortedUnique(Sort(Keys(ms)), Sort(Keys(ns)));
  }

  /** Order independence: payloads equal up to member order print the same. */
  lemma {:induction false} SameText(a: Json, b: Json)
    requires WellFormed(a) && WellFormed(b) && SameUpToOrder(a, b)
    ensures Stringify(a) == Stringify(b)
    decreases a, 1
  {
    if a.Arr? && b.Arr? {
      if a.items != [] {
        SameText(a.items[0], b.items[0]);
        SameItemsTail(a.items[1..], b.items[1..]);
      }
    } else if a.Obj? && b.Obj? {
      SameSortedKeys(a.members, b.members);
      SortKeysMembers(a.members);
      SortKeysMembers(b.members);
      var keys := Sort(Keys(a.members));
      if keys != [] {
        SameEntryText(a.members, b.members, keys[0]);
        SameMembersTail(a.members, b.members, keys[1..]);
      }
    }
  }

  lemma {:induction false} SameItemsTail(xs: seq<Json>, ys: seq<Json>)
    requires |xs| == |ys|
    requires forall i :: 0 <= i < |xs| ==> WellFormed(xs[i]) && WellFormed(ys[i]) && SameUpToOrder(xs[i], ys[i])
    ensures ItemsTail(xs) == ItemsTail(ys)
    decreases xs, 0
  {
    if xs != [] {
      SameText(xs[0], ys[0]);
      SameItemsTail(xs[1..], ys[1..]);
    }
  }

  lemma {:induction false} SameEntryText(ms: seq<Member>, ns: seq<Member>, key: Text)
    requires WellFormed(Obj(ms)) && WellFormed(Obj(ns)) && SameUpToOrder(Obj(ms), Obj(ns))
    requires key in Keys(ms) && key in Keys(ns)
    ensures EntryText(ms, key) == EntryText(ns, key)
    decreases ms, 0
  {
    SameText(ms[IndexOf(ms, key)].value, ns[IndexOf(ns, key)].value);
  }

  lemma {:induction false} SameMembersTail(ms: seq<Member>, ns: seq<Member>, keys: seq<Text>)
    requires WellFormed(Obj(ms)) && WellFormed(Obj(ns)) && SameUpToOrder(Obj(ms), Obj(ns))
    requires forall k :: k in keys ==> k in Keys(ms) && k in Keys(ns)
    ensures MembersTail(ms, keys) == MembersTail(ns, keys)
    decreases ms, |keys| + 1
  {
    if keys != [] {
      SameEntryText(ms, ns, keys[0]);
      SameMembersTail(ms, ns, keys[1..]);
    }
  }

  /** stableStringify tells payloads apart exactly up to the order of object members. */
  lemma StringifyExact(a: Json, b: Json)
    requires WellFormed(a) && WellFormed(b)
    ensures Stringify(a) == Stringify(b) <==> SameUpToOrder(a, b)
  {
    if SameUpToOrder(a, b) {
      SameText(a, b);
    }
    if Stringify(a) == Stringify(b) {
      ReadBack(a, b, [], []);
    }
  }

  /** The hashed part of a request: a missing body counts as null. */
  datatype Payload = Payload(body: Json, params: Json, query: Json)

  const BODY_KEY: Text := [98, 111, 100, 121]
  const PARAMS_KEY: Text := [112, 97, 114, 97, 109, 115]
  const QUERY_KEY: Text := [113, 117, 101, 114, 121]

  predicate WellFormedPayload(p: Payload) {
    WellFormed(p.body) && WellFormed(p.params) && WellFormed(p.query)
  }

  function PayloadMembers(p: Payload): seq<Member> {
    [Member(BODY_KEY, p.body), Member(PARAMS_KEY, p.params), Member(QUERY_KEY, p.query)]
  }

  function PayloadText(p: Payload): Text {
    Stringify(Obj(PayloadMembers(p)))
  }

  ghost predicate SamePayload(p: Payload, q: Payload) {
    SameUpToOrder(p.body, q.body) && SameUpToOrder(p.params, q.params) && SameUpToOrder(p.query, q.query)
  }

  lemma PayloadKeys(p: Payload)
    ensures DistinctKeys(PayloadMembers(p))
    ensures KeySet(PayloadMembers(p)) == {BODY_KEY, PARAMS_KEY, QUERY_KEY}
  {
    var ms := PayloadMembers(p);
    assert BODY_KEY[0] != PARAMS_KEY[0] && PARAMS_KEY[0] != QUERY_KEY[0] && BODY_KEY[0] != QUERY_KEY[0];
    assert ms[0].key == BODY_KEY && ms[1].key == PARAMS_KEY && ms[2].key == QUERY_KEY;
  }

  lemma SamePayloadMembers(p: Payload, q: Payload)
    ensures SameUpToOrder(Obj(PayloadMembers(p)), Obj(PayloadMembers(q))) <==> SamePayload(p, q)
  {
    var ms, ns := PayloadMembers(p), PayloadMembers(q);
    PayloadKeys(p);
    PayloadKeys(q);
    assert SamePayload(p, q) <==>
           forall i :: 0 <= i < 3 ==> SameUpToOrder(ms[i].value, ns[i].value);
    forall i, j | 0 <= i < 3 && 0 <= j < 3 && ms[i].key == ns[j].key ensures i == j {
      assert ms[j].key == ns[j].key;
    }
  }

  /** Two requests hash the same text exactly when body, route parameters and query agree up to member order. */
  lemma PayloadTextExact(p: Payload, q: Payload)
    requires WellFormedPayload(p) && WellFormedPayload(q)
    ensures PayloadText(p) == PayloadText(q) <==> SamePayload(p, q)
  {
    PayloadKeys(p);
    PayloadKeys(q);
    StringifyExact(Obj(PayloadMembers(p)), Obj(PayloadMembers(q)));
    SamePayloadMembers(p, q);
  }

  /** The printed form loses one distinction: a number too large for a double and null give the same text. */
  lemma OverflowingNumberCollidesWithNull(key: Text)
    ensures var big, nil := Obj([Member(key, Number(NonFinite))]), Obj([Member(key, Null)]);
            WellFormed(big) && WellFormed(nil) && big != nil && Stringify(big) == Stringify(nil)
  {
    var big, nil := Obj([Member(key, Number(NonFinite))]), Obj([Member(key, Null)]);
    StringifyExact(big, nil);
  }
}
