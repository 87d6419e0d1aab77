/** `stableStringify` is canonical: its output determines the value, and the
    value up to key order determines its output. */
module Canonical {
  import opened Prelude
  import opened Json

  // ---- the number format ---------------------------------------------------------

  predicate NumberUnit(u: Unit) {
    0x30 <= u <= 0x39 || u == 0x2B || u == 0x2D || u == 0x2E || u == 0x65
  }

  predicate NumberText(t: Text) {
    t != [] && forall i :: 0 <= i < |t| ==> NumberUnit(t[i])
  }

  /** What ECMAScript promises of finite numbers: they print as distinct,
      nonempty texts made of digits, signs, points and exponents. */
  ghost predicate GoodFormat<N(!new)>(fmt: N -> Text) {
    && (forall n :: NumberText(fmt(n)))
    && (forall m, n :: fmt(m) == fmt(n) ==> m == n)
  }

  // ---- sorted keys are determined by their set --------------------------------------

  ghost predicate StrictlySorted(ks: seq<Text>) {
    forall i, j :: 0 <= i < j < |ks| ==> Before(ks[i], ks[j])
  }

  lemma {:induction false} BeforeIsTotal(a: Text, b: Text)
    ensures Before(a, b) || Before(b, a) || a == b
    ensures !(Before(a, b) && Before(b, a)) && !Before(a, a)
    decreases |a|
  {
    if a != [] && b != [] {
      BeforeIsTotal(a[1..], b[1..]);
      BeforeIsTotal(a[1..], a[1..]);
      if a[0] == b[0] && a[1..] == b[1..] {
        assert a == [a[0]] + a[1..] && b == [b[0]] + b[1..];
      }
    } else if a != [] {
      BeforeIsTotal(a[1..], a[1..]);
    }
  }

  lemma {:induction false} BeforeIsTransitive(a: Text, b: Text, c: Text)
    requires Before(a, b) && Before(b, c)
    ensures Before(a, c)
    decreases |a|
  {
    if a != [] && a[0] == b[0] == c[0] { BeforeIsTransitive(a[1..], b[1..], c[1..]); }
  }

  lemma {:induction false} InsertSorts(k: Text, ks: seq<Text>)
    requires StrictlySorted(ks) && k !in ks
    ensures StrictlySorted(Insert(k, ks))
  {
    InsertSameKeys(k, ks);
    if ks == [] {
    } else if Before(k, ks[0]) {
      forall j | 0 <= j < |ks| ensures Before(k, ks[j]) {
        if j > 0 { BeforeIsTransitive(k, ks[0], ks[j]); }
      }
    } else {
      BeforeIsTotal(k, ks[0]);
      InsertSorts(k, ks[1..]);
      InsertSameKeys(k, ks[1..]);
      var r := Insert(k, ks[1..]);
      forall j | 0 <= j < |r| ensures Before(ks[0], r[j]) {
        assert r[j] in r;
        if r[j] != k {
          assert r[j] in ks[1..];
          var i :| 0 <= i < |ks[1..]| && ks[1..][i] == r[j];
          assert ks[i + 1] == r[j];
        }
      }
    }
  }

  lemma {:induction false} SortedSorts(ks: seq<Text>)
    requires Distinct(ks)
    ensures StrictlySorted(Sorted(ks))
  {
    if ks != [] {
      SortedSorts(ks[1..]);
      SortedSameKeys(ks[1..]);
      InsertSorts(ks[0], Sorted(ks[1..]));
    }
  }

  lemma {:induction false} SortedIsUnique(ks: seq<Text>, ls: seq<Text>)
    requires StrictlySorted(ks) && StrictlySorted(ls)
    requires forall x :: x in ks <==> x in ls
    ensures ks == ls
    decreases |ks|
  {
    assert ls != [] ==> ls[0] in ls;
    if ks != [] {
      assert ks[0] in ls && ls[0] in ks;
      FirstIsLeast(ks, ls[0]);
      FirstIsLeast(ls, ks[0]);
      BeforeIsTotal(ks[0], ls[0]);
      assert ks == [ks[0]] + ks[1..] && ls == [ls[0]] + ls[1..];
      FirstIsApart(ks);
      FirstIsApart(ls);
      assert forall x :: x in ks[1..] <==> x in ks && x != ks[0];
      assert forall x :: x in ls[1..] <==> x in ls && x != ls[0];
      SortedIsUnique(ks[1..], ls[1..]);
    }
  }

  lemma FirstIsLeast(ks: seq<Text>, x: Text)
    requires StrictlySorted(ks) && x in ks
    ensures x == ks[0] || Before(ks[0], x)
  {
  }

  lemma FirstIsApart(ks: seq<Text>)
    requires StrictlySorted(ks) && ks != []
    ensures ks[0] !in ks[1..]
  {
    BeforeIsTotal(ks[0], ks[0]);
    forall i | 0 <= i < |ks[1..]| ensures ks[1..][i] != ks[0] {
      assert Before(ks[0], ks[i + 1]);
    }
  }

  // ---- strings can be read back --------------------------------------------------------

  lemma CancelEqualLength(p: Text, q: Text, s: Text, t: Text)
    requires p + s == q + t && |p| == |q|
    ensures p == q && s == t
  {
    assert p == (p + s)[..|p|] && q == (q + t)[..|q|];
    assert s == (p + s)[|p|..] && t == (q + t)[|q|..];
  }

  /** The part of a string's text that its first character writes. */
  function FirstCode(s: Text): Text
    requires s != []
  {
    if StartsWithPair(s) then [s[0], s[1]] else EscapeUnit(s[0])
  }

  function FirstLength(s: Text): nat
    requires s != []
    ensures 1 <= FirstLength(s) <= |s|
  {
    if StartsWithPair(s) then 2 else 1
  }

  lemma EscapeSplits(s: Text)
    requires s != []
    ensures Escape(s) == FirstCode(s) + Escape(s[FirstLength(s)..])
  {
  }

  lemma HexDigitDetermines(d: int, e: int)
    requires 0 <= d < 16 && 0 <= e < 16 && HexDigit(d) == HexDigit(e)
    ensures d == e
  {
  }

  lemma HexDetermines(u: Unit, v: Unit)
    requires UnicodeEscape(u) == UnicodeEscape(v)
    ensures u == v
  {
    var p, q := UnicodeEscape(u), UnicodeEscape(v);
    assert p[2] == q[2] && p[3] == q[3] && p[4] == q[4] && p[5] == q[5];
    HexDigitDetermines(u / 16 / 16 / 16, v / 16 / 16 / 16);
    HexDigitDetermines(u / 16 / 16 % 16, v / 16 / 16 % 16);
    HexDigitDetermines(u / 16 % 16, v / 16 % 16);
    HexDigitDetermines(u % 16, v % 16);
    hide HexDigit;
    assert u / 16 / 16 == v / 16 / 16;
    assert u / 16 == v / 16;
  }

  /** The codes of characters are prefix-free. */
  lemma CodesArePrefixFree(a: Text, b: Text, s: Text, t: Text)
    requires a != [] && b != [] && FirstCode(a) + s == FirstCode(b) + t
    ensures FirstCode(a) == FirstCode(b) && s == t && FirstLength(a) == FirstLength(b)
    ensures a[..FirstLength(a)] == b[..FirstLength(b)]
  {
    var p, q := FirstCode(a), FirstCode(b);
    assert (p + s)[0] == p[0] && (q + t)[0] == q[0];
    if p[0] == BACKSLASH {
      assert (p + s)[1] == p[1] && (q + t)[1] == q[1];
    }
    assert |p| == |q|;
    CancelEqualLength(p, q, s, t);
    if p[0] == BACKSLASH && p[1] == 0x75 { HexDetermines(a[0], b[0]); }
  }

  /** A string's text, and whatever follows it, with the first character set apart. */
  lemma EscapePeels(s: Text, rest: Text)
    requires s != []
    ensures Escape(s) + [QUOTE] + rest == FirstCode(s) + (Escape(s[FirstLength(s)..]) + [QUOTE] + rest)
    ensures FirstCode(s) != [] && FirstCode(s)[0] != QUOTE
  {
    EscapeSplits(s);
    hide Escape;
    assert FirstCode(s) + Escape(s[FirstLength(s)..]) + [QUOTE] + rest
           == FirstCode(s) + (Escape(s[FirstLength(s)..]) + [QUOTE] + rest);
  }

  lemma EscapeHead(s: Text, rest: Text)
    ensures (Escape(s) + [QUOTE] + rest)[0] == QUOTE <==> s == []
  {
    if s != [] {
      EscapePeels(s, rest);
      hide Escape;
    }
  }

  lemma {:induction false} QuoteCancels(a: Text, b: Text, s: Text, t: Text)
    requires Escape(a) + [QUOTE] + s == Escape(b) + [QUOTE] + t
    ensures a == b && s == t
    decreases |a|
  {
    EscapeHead(a, s);
    EscapeHead(b, t);
    if a == [] {
      assert Escape(a) + [QUOTE] + s == [QUOTE] + s && Escape(b) + [QUOTE] + t == [QUOTE] + t;
      CancelEqualLength([QUOTE], [QUOTE], s, t);
    } else {
      EscapePeels(a, s);
      EscapePeels(b, t);
      hide Escape, FirstCode, FirstLength;
      var a', b' := a[FirstLength(a)..], b[FirstLength(b)..];
      CodesArePrefixFree(a, b, Escape(a') + [QUOTE] + s, Escape(b') + [QUOTE] + t);
      QuoteCancels(a', b', s, t);
      assert a == a[..FirstLength(a)] + a' && b == b[..FirstLength(b)] + b';
    }
  }

  // ---- values can be read back -----------------------------------------------------------

  /** What the first unit of a value's text says about it; 7 starts no value. */
  function Sort(u: Unit): nat {
    if u == 0x6E then 0
    else if u == 0x74 then 1
    else if u == 0x66 then 2
    else if NumberUnit(u) then 3
    else if u == QUOTE then 4
    else if u == OPEN_ARR then 5
    else if u == OPEN_OBJ then 6
    else 7
  }

  function SortOf<N>(v: Json<N>): nat {
    match v
    case Null => 0
    case NonFinite(_) => 0
    case Bool(b) => if b then 1 else 2
    case Num(_) => 3
    case Str(_) => 4
    case Arr(_) => 5
    case Obj(_) => 6
  }

  lemma HeadOf<N(!new)>(fmt: N -> Text, v: Json<N>)
    requires GoodFormat(fmt)
    ensures Print(fmt, v) != [] && Sort(Print(fmt, v)[0]) == SortOf(v)
  {
    hide PrintItems, PrintMembers, Sorted, Escape;
  }

  /** Units that can come after a value. */
  predicate Follows(s: Text) {
    s == [] || s[0] == COMMA || s[0] == CLOSE_ARR || s[0] == CLOSE_OBJ
  }

  /** How far a text looks like a number. */
  function Span(t: Text): nat {
    if t != [] && NumberUnit(t[0]) then 1 + Span(t[1..]) else 0
  }

  lemma {:induction false} NumberIsItsSpan(p: Text, s: Text)
    requires (forall i :: 0 <= i < |p| ==> NumberUnit(p[i])) && Follows(s)
    ensures Span(p + s) == |p|
  {
    if p == [] {
      assert p + s == s;
    } else {
      assert (p + s)[1..] == p[1..] + s;
      NumberIsItsSpan(p[1..], s);
    }
  }

  lemma NumbersCancel(p: Text, q: Text, s: Text, t: Text)
    requires NumberText(p) && NumberText(q) && Follows(s) && Follows(t) && p + s == q + t
    ensures p == q && s == t
  {
    NumberIsItsSpan(p, s);
    NumberIsItsSpan(q, t);
    CancelEqualLength(p, q, s, t);
  }

  lemma Regroup(a: Text, b: Text, c: Text, d: Text)
    ensures a + b + c + d == a + (b + c + d)
  {
  }

  function ItemsTail<N>(fmt: N -> Text, xs: seq<Json<N>>): Text
    requires xs != []
  {
    if |xs| == 1 then [] else [COMMA] + PrintItems(fmt, xs[1..])
  }

  lemma ItemsPeel<N>(fmt: N -> Text, xs: seq<Json<N>>, s: Text)
    requires xs != []
    ensures PrintItems(fmt, xs) + [CLOSE_ARR] + s == Print(fmt, xs[0]) + (ItemsTail(fmt, xs) + [CLOSE_ARR] + s)
    ensures Follows(ItemsTail(fmt, xs) + [CLOSE_ARR] + s)
    ensures (ItemsTail(fmt, xs) + [CLOSE_ARR] + s)[0] == CLOSE_ARR <==> |xs| == 1
    ensures |xs| > 1 ==> ItemsTail(fmt, xs) + [CLOSE_ARR] + s == [COMMA] + (PrintItems(fmt, xs[1..]) + [CLOSE_ARR] + s)
  {
    var first, tail := Print(fmt, xs[0]), ItemsTail(fmt, xs);
    assert PrintItems(fmt, xs) == first + tail;
    if |xs| > 1 { Regroup([COMMA], PrintItems(fmt, xs[1..]), [CLOSE_ARR], s); }
    hide Print, PrintItems;
    assert tail == [] || tail[0] == COMMA;
    Regroup(first, tail, [CLOSE_ARR], s);
  }

  /** Which of two lists of items is empty shows in the text. */
  lemma ItemsHead<N(!new)>(fmt: N -> Text, xs: seq<Json<N>>, s: Text)
    requires GoodFormat(fmt)
    ensures (PrintItems(fmt, xs) + [CLOSE_ARR] + s)[0] == CLOSE_ARR <==> xs == []
  {
    if xs != [] {
      HeadOf(fmt, xs[0]);
      ItemsPeel(fmt, xs, s);
      hide Print, PrintItems, ItemsTail, GoodFormat, SortOf;
      HeadSorts(xs[0]);
    }
  }

  lemma HeadSorts<N>(v: Json<N>)
    ensures SortOf(v) < 7
  {
  }

  lemma {:induction false} CancelItems<N(!new)>(fmt: N -> Text, xs: seq<Json<N>>, ys: seq<Json<N>>, s: Text, t: Text)
    requires GoodFormat(fmt) && PrintItems(fmt, xs) + [CLOSE_ARR] + s == PrintItems(fmt, ys) + [CLOSE_ARR] + t
    ensures |xs| == |ys| && s == t
    ensures forall i :: 0 <= i < |xs| ==> Alike(true, xs[i], ys[i])
    decreases xs, 0
  {
    ItemsHead(fmt, xs, s);
    ItemsHead(fmt, ys, t);
    if xs == [] {
      assert [] + [CLOSE_ARR] + s == [CLOSE_ARR] + s && [] + [CLOSE_ARR] + t == [CLOSE_ARR] + t;
      CancelEqualLength([CLOSE_ARR], [CLOSE_ARR], s, t);
    } else {
      ItemsPeel(fmt, xs, s);
      ItemsPeel(fmt, ys, t);
      hide Print, PrintItems, ItemsTail, Follows, Alike;
      Cancel(fmt, xs[0], ys[0], ItemsTail(fmt, xs) + [CLOSE_ARR] + s, ItemsTail(fmt, ys) + [CLOSE_ARR] + t);
      if |xs| == 1 {
        LastItems(fmt, xs, s);
        LastItems(fmt, ys, t);
        CancelEqualLength([CLOSE_ARR], [CLOSE_ARR], s, t);
      } else {
        CancelEqualLength([COMMA], [COMMA], PrintItems(fmt, xs[1..]) + [CLOSE_ARR] + s,
            PrintItems(fmt, ys[1..]) + [CLOSE_ARR] + t);
        CancelItems(fmt, xs[1..], ys[1..], s, t);
        forall i | 0 <= i < |xs| ensures Alike(true, xs[i], ys[i]) {
          if i > 0 { assert xs[i] == xs[1..][i - 1] && ys[i] == ys[1..][i - 1]; }
        }
      }
    }
  }

  lemma LastItems<N>(fmt: N -> Text, xs: seq<Json<N>>, s: Text)
    requires |xs| == 1
    ensures ItemsTail(fmt, xs) + [CLOSE_ARR] + s == [CLOSE_ARR] + s
  {
  }

  predicate AllKeysOf<N>(ks: seq<Text>, ms: seq<Member<N>>) {
    forall i :: 0 <= i < |ks| ==> ks[i] in KeysOf(ms)
  }

  function MembersTail<N>(fmt: N -> Text, ms: seq<Member<N>>, ks: seq<Text>): Text
    requires ks != [] && AllKeysOf(ks, ms)
  {
    if |ks| == 1 then [] else [COMMA] + PrintMembers(fmt, ms, ks[1..])
  }

  lemma MembersPeel<N>(fmt: N -> Text, ms: seq<Member<N>>, ks: seq<Text>, s: Text)
    requires ks != [] && AllKeysOf(ks, ms)
    ensures PrintMembers(fmt, ms, ks) + [CLOSE_OBJ] + s
            == [QUOTE] + (Escape(ks[0]) + [QUOTE]
                + ([COLON] + (Print(fmt, Lookup(ms, ks[0])) + (MembersTail(fmt, ms, ks) + [CLOSE_OBJ] + s))))
    ensures Follows(MembersTail(fmt, ms, ks) + [CLOSE_OBJ] + s)
    ensures (MembersTail(fmt, ms, ks) + [CLOSE_OBJ] + s)[0] == CLOSE_OBJ <==> |ks| == 1
    ensures |ks| == 1 ==> MembersTail(fmt, ms, ks) + [CLOSE_OBJ] + s == [CLOSE_OBJ] + s
    ensures |ks| > 1 ==>
              MembersTail(fmt, ms, ks) + [CLOSE_OBJ] + s == [COMMA] + (PrintMembers(fmt, ms, ks[1..]) + [CLOSE_OBJ] + s)
  {
    var key, value, tail := Escape(ks[0]), Print(fmt, Lookup(ms, ks[0])), MembersTail(fmt, ms, ks);
    assert PrintMembers(fmt, ms, ks) == Quote(ks[0]) + [COLON] + value + tail;
    if |ks| > 1 { Regroup([COMMA], PrintMembers(fmt, ms, ks[1..]), [CLOSE_OBJ], s); }
    hide Print, PrintMembers, Escape, AllKeysOf;
    assert tail == [] || tail[0] == COMMA;
    RegroupMember(key, value, tail, s);
  }

  lemma RegroupMember(key: Text, value: Text, tail: Text, s: Text)
    ensures [QUOTE] + key + [QUOTE] + [COLON] + value + tail + [CLOSE_OBJ] + s
            == [QUOTE] + (key + [QUOTE] + ([COLON] + (value + (tail + [CLOSE_OBJ] + s))))
  {
    var rest := tail + [CLOSE_OBJ] + s;
    assert value + tail + [CLOSE_OBJ] + s == value + rest;
    assert [QUOTE] + key + [QUOTE] + [COLON] + value + tail + [CLOSE_OBJ] + s
            == [QUOTE] + key + [QUOTE] + [COLON] + (value + rest);
    Regroup([QUOTE], key, [QUOTE], [COLON] + (value + rest));
  }

  /** Two member lists that print alike start with the same key, and go on alike. */
  lemma MembersStart<N(!new)>(fmt: N -> Text, ms: seq<Member<N>>, ks: seq<Text>, ns: seq<Member<N>>, ls: seq<Text>,
                              s: Text, t: Text)
    requires GoodFormat(fmt) && AllKeysOf(ks, ms) && AllKeysOf(ls, ns)
    requires PrintMembers(fmt, ms, ks) + [CLOSE_OBJ] + s == PrintMembers(fmt, ns, ls) + [CLOSE_OBJ] + t
    ensures ks == [] <==> ls == []
    ensures ks != [] && ls != [] ==>
              && ks[0] == ls[0]
              && Print(fmt, Lookup(ms, ks[0])) + (MembersTail(fmt, ms, ks) + [CLOSE_OBJ] + s)
                 == Print(fmt, Lookup(ns, ls[0])) + (MembersTail(fmt, ns, ls) + [CLOSE_OBJ] + t)
  {
    if ks != [] { MembersPeel(fmt, ms, ks, s); }
    if ls != [] { MembersPeel(fmt, ns, ls, t); }
    assert (PrintMembers(fmt, ms, ks) + [CLOSE_OBJ] + s)[0] == (if ks == [] then CLOSE_OBJ else QUOTE);
    assert (PrintMembers(fmt, ns, ls) + [CLOSE_OBJ] + t)[0] == (if ls == [] then CLOSE_OBJ else QUOTE);
    if ks != [] && ls != [] {
      var k, l := ks[0], ls[0];
      var v, w := Lookup(ms, k), Lookup(ns, l);
      var s1, t1 := MembersTail(fmt, ms, ks) + [CLOSE_OBJ] + s, MembersTail(fmt, ns, ls) + [CLOSE_OBJ] + t;
      hide Print, PrintMembers, Escape, MembersTail, GoodFormat, Follows;
      CancelEqualLength([QUOTE], [QUOTE], Escape(k) + [QUOTE] + ([COLON] + (Print(fmt, v) + s1)),
                        Escape(l) + [QUOTE] + ([COLON] + (Print(fmt, w) + t1)));
      QuoteCancels(k, l, [COLON] + (Print(fmt, v) + s1), [COLON] + (Print(fmt, w) + t1));
      CancelEqualLength([COLON], [COLON], Print(fmt, v) + s1, Print(fmt, w) + t1);
    }
  }

  lemma {:induction false} CancelMembers<N(!new)>(fmt: N -> Text, ms: seq<Member<N>>, ks: seq<Text>,
                                                  ns: seq<Member<N>>, ls: seq<Text>, s: Text, t: Text)
    requires GoodFormat(fmt) && AllKeysOf(ks, ms) && AllKeysOf(ls, ns)
    requires PrintMembers(fmt, ms, ks) + [CLOSE_OBJ] + s == PrintMembers(fmt, ns, ls) + [CLOSE_OBJ] + t
    ensures ks == ls && s == t
    ensures forall i :: 0 <= i < |ks| ==> Alike(true, Lookup(ms, ks[i]), Lookup(ns, ks[i]))
    decreases ms, |ks|
  {
    hide Alike, Escape, Print, GoodFormat;
    MembersStart(fmt, ms, ks, ns, ls, s, t);
    if ks == [] {
      assert [] + [CLOSE_OBJ] + s == [CLOSE_OBJ] + s && [] + [CLOSE_OBJ] + t == [CLOSE_OBJ] + t;
      CancelEqualLength([CLOSE_OBJ], [CLOSE_OBJ], s, t);
    } else {
      var k := ks[0];
      MembersPeel(fmt, ms, ks, s);
      MembersPeel(fmt, ns, ls, t);
      var s1, t1 := MembersTail(fmt, ms, ks) + [CLOSE_OBJ] + s, MembersTail(fmt, ns, ls) + [CLOSE_OBJ] + t;
      hide PrintMembers, MembersTail, Follows;
      Cancel(fmt, Lookup(ms, k), Lookup(ns, k), s1, t1);
      if |ks| == 1 {
        CancelEqualLength([CLOSE_OBJ], [CLOSE_OBJ], s, t);
      } else {
        CancelEqualLength([COMMA], [COMMA], PrintMembers(fmt, ms, ks[1..]) + [CLOSE_OBJ] + s,
                          PrintMembers(fmt, ns, ls[1..]) + [CLOSE_OBJ] + t);
        CancelMembers(fmt, ms, ks[1..], ns, ls[1..], s, t);
        assert ks == [k] + ks[1..] && ls == [k] + ls[1..];
      }
    }
  }

  /** Unique decodability: a value's text, followed by anything that can follow
      a value, determines the value up to key order. */
  lemma {:induction false} Cancel<N(!new)>(fmt: N -> Text, v: Json<N>, w: Json<N>, s: Text, t: Text)
    requires GoodFormat(fmt) && Follows(s) && Follows(t) && Print(fmt, v) + s == Print(fmt, w) + t
    ensures Alike(true, v, w) && s == t
    decreases v, 0
  {
    HeadOf(fmt, v);
    HeadOf(fmt, w);
    assert (Print(fmt, v) + s)[0] == Print(fmt, v)[0] && (Print(fmt, w) + t)[0] == Print(fmt, w)[0];
    assert SortOf(v) == SortOf(w);
    match v {
      case Null => CancelEqualLength(NULL_TEXT, NULL_TEXT, s, t);
      case NonFinite(_) => CancelEqualLength(NULL_TEXT, NULL_TEXT, s, t);
      case Bool(_) => CancelEqualLength(Print(fmt, v), Print(fmt, w), s, t);
      case Num(m) => NumbersCancel(fmt(m), fmt(w.n), s, t);
      case Str(a) =>
        StrPeels(a, s);
        StrPeels(w.s, t);
        CancelEqualLength([QUOTE], [QUOTE], Escape(a) + [QUOTE] + s, Escape(w.s) + [QUOTE] + t);
        QuoteCancels(a, w.s, s, t);
      case Arr(xs) =>
        ArrPeels(fmt, xs, s);
        ArrPeels(fmt, w.items, t);
        CancelEqualLength([OPEN_ARR], [OPEN_ARR], PrintItems(fmt, xs) + [CLOSE_ARR] + s,
            PrintItems(fmt, w.items) + [CLOSE_ARR] + t);
        CancelItems(fmt, xs, w.items, s, t);
      case Obj(ms) => CancelObjects(fmt, ms, w.members, s, t);
    }
  }

  lemma StrPeels(a: Text, s: Text)
    ensures Quote(a) + s == [QUOTE] + (Escape(a) + [QUOTE] + s)
  {
    hide Escape;
  }

  lemma ArrPeels<N>(fmt: N -> Text, xs: seq<Json<N>>, s: Text)
    ensures Print(fmt, Arr(xs)) + s == [OPEN_ARR] + (PrintItems(fmt, xs) + [CLOSE_ARR] + s)
  {
    hide PrintItems;
  }

  lemma ObjPeels<N>(fmt: N -> Text, ms: seq<Member<N>>, s: Text)
    ensures AllKeysOf(Sorted(KeysOf(ms)), ms)
    ensures Print(fmt, Obj(ms)) + s == [OPEN_OBJ] + (PrintMembers(fmt, ms, Sorted(KeysOf(ms))) + [CLOSE_OBJ] + s)
  {
    SortedSameKeys(KeysOf(ms));
    hide PrintMembers, Sorted, KeysOf;
  }

  lemma {:induction false} CancelObjects<N(!new)>(fmt: N -> Text, ms: seq<Member<N>>, ns: seq<Member<N>>, s: Text,
      t: Text)
    requires GoodFormat(fmt) && Print(fmt, Obj(ms)) + s == Print(fmt, Obj(ns)) + t
    ensures Alike(true, Obj(ms), Obj(ns)) && s == t
    decreases ms, |ms| + 1
  {
    var ks, ls := Sorted(KeysOf(ms)), Sorted(KeysOf(ns));
    SortedSameKeys(KeysOf(ms));
    SortedSameKeys(KeysOf(ns));
    ObjPeels(fmt, ms, s);
    ObjPeels(fmt, ns, t);
    hide Print, PrintMembers, Sorted, GoodFormat;
    CancelEqualLength([OPEN_OBJ], [OPEN_OBJ], PrintMembers(fmt, ms, ks) + [CLOSE_OBJ] + s,
        PrintMembers(fmt, ns, ls) + [CLOSE_OBJ] + t);
    CancelMembers(fmt, ms, ks, ns, ls, s, t);
    AlikeByLists(ms, ns, ks);
  }

  lemma AlikeByLists<N(!new)>(ms: seq<Member<N>>, ns: seq<Member<N>>, ks: seq<Text>)
    requires AllKeysOf(ks, ms) && AllKeysOf(ks, ns)
    requires forall k :: (k in KeysOf(ms) <==> k in ks) && (k in KeysOf(ns) <==> k in ks)
    requires forall i :: 0 <= i < |ks| ==> Alike(true, Lookup(ms, ks[i]), Lookup(ns, ks[i]))
    ensures Alike(true, Obj(ms), Obj(ns))
  {
    forall k | k in KeysOf(ms) && k in KeysOf(ns) ensures Alike(true, Lookup(ms, k), Lookup(ns, k)) {
      var i :| 0 <= i < |ks| && ks[i] == k;
    }
  }

  // ---- the theorem --------------------------------------------------------------------------

  lemma {:induction false} AlikePrintsSame<N(!new)>(fmt: N -> Text, v: Json<N>, w: Json<N>)
    requires WellFormed(v) && WellFormed(w) && Alike(true, v, w)
    ensures Print(fmt, v) == Print(fmt, w)
    decreases v, 0
  {
    match v
    case Arr(xs) => AlikeItemsPrintSame(fmt, xs, w.items);
    case Obj(ms) =>
      var ks := Sorted(KeysOf(ms));
      SortedSameKeys(KeysOf(ms));
      SortedSameKeys(KeysOf(w.members));
      SortedSorts(KeysOf(ms));
      SortedSorts(KeysOf(w.members));
      SortedIsUnique(ks, Sorted(KeysOf(w.members)));
      hide PrintMembers, Sorted;
      AlikeMembersPrintSame(fmt, ms, w.members, ks);
    case _ =>
  }

  lemma {:induction false} AlikeItemsPrintSame<N(!new)>(fmt: N -> Text, xs: seq<Json<N>>, ys: seq<Json<N>>)
    requires |xs| == |ys|
    requires forall i :: 0 <= i < |xs| ==> WellFormed(xs[i]) && WellFormed(ys[i]) && Alike(true, xs[i], ys[i])
    ensures PrintItems(fmt, xs) == PrintItems(fmt, ys)
    decreases xs, 0
  {
    if xs != [] {
      hide Print;
      AlikePrintsSame(fmt, xs[0], ys[0]);
      AlikeItemsPrintSame(fmt, xs[1..], ys[1..]);
    }
  }

  lemma LookupWellFormed<N(!new)>(ms: seq<Member<N>>, k: Text)
    requires k in KeysOf(ms) && forall i :: 0 <= i < |ms| ==> WellFormed(ms[i].value)
    ensures WellFormed(Lookup(ms, k))
  {
    var i :| 0 <= i < |ms| && ms[i] == Member(k, Lookup(ms, k));
  }

  lemma {:induction false} AlikeMembersPrintSame<N(!new)>(fmt: N -> Text, ms: seq<Member<N>>, ns: seq<Member<N>>,
      ks: seq<Text>)
    requires AllKeysOf(ks, ms) && AllKeysOf(ks, ns)
    requires forall i :: 0 <= i < |ms| ==> WellFormed(ms[i].value)
    requires forall i :: 0 <= i < |ns| ==> WellFormed(ns[i].value)
    requires forall i :: 0 <= i < |ks| ==> Alike(true, Lookup(ms, ks[i]), Lookup(ns, ks[i]))
    ensures PrintMembers(fmt, ms, ks) == PrintMembers(fmt, ns, ks)
    decreases ms, |ks|
  {
    if ks != [] {
      LookupWellFormed(ms, ks[0]);
      LookupWellFormed(ns, ks[0]);
      hide Print, Lookup, WellFormed, Alike, Quote;
      AlikePrintsSame(fmt, Lookup(ms, ks[0]), Lookup(ns, ks[0]));
      AlikeMembersPrintSame(fmt, ms, ns, ks[1..]);
    }
  }

  /** Two values print the same text exactly when they are equal up to key order,
      a number that is not finite counting as null. */
  lemma StableStringifyIsCanonical<N(!new)>(fmt: N -> Text, v: Json<N>, w: Json<N>)
    requires GoodFormat(fmt) && WellFormed(v) && WellFormed(w)
    ensures Print(fmt, v) == Print(fmt, w) <==> Alike(true, v, w)
  {
    if Print(fmt, v) == Print(fmt, w) {
      assert Print(fmt, v) + [] == Print(fmt, v) && Print(fmt, w) + [] == Print(fmt, w);
      Cancel(fmt, v, w, [], []);
    }
    if Alike(true, v, w) {
      AlikePrintsSame(fmt, v, w);
    }
  }

  /** Without such numbers it is canonical outright. */
  lemma FiniteValuesAreToldApart<N(!new)>(fmt: N -> Text, v: Json<N>, w: Json<N>)
    requires GoodFormat(fmt) && WellFormed(v) && WellFormed(w) && AllFinite(v) && AllFinite(w)
    ensures Print(fmt, v) == Print(fmt, w) <==> Alike(false, v, w)
  {
    StableStringifyIsCanonical(fmt, v, w);
    FiniteAlike(v, w);
  }

  lemma {:induction false} FiniteAlike<N(!new)>(v: Json<N>, w: Json<N>)
    requires AllFinite(v) && AllFinite(w)
    ensures Alike(true, v, w) <==> Alike(false, v, w)
    decreases v
  {
    match v
    case Arr(xs) =>
      if w.Arr? {
        forall i | 0 <= i < |xs| && |xs| == |w.items|
          ensures Alike(true, xs[i], w.items[i]) <==> Alike(false, xs[i], w.items[i])
        {
          FiniteAlike(xs[i], w.items[i]);
        }
      }
    case Obj(ms) =>
      if w.Obj? {
        forall k | k in KeysOf(ms) && k in KeysOf(w.members)
          ensures Alike(true, Lookup(ms, k), Lookup(w.members, k))
                  <==> Alike(false, Lookup(ms, k), Lookup(w.members, k))
        {
          var i :| 0 <= i < |ms| && ms[i] == Member(k, Lookup(ms, k));
          var j :| 0 <= j < |w.members| && w.members[j] == Member(k, Lookup(w.members, k));
          FiniteAlike(Lookup(ms, k), Lookup(w.members, k));
        }
      }
    case _ =>
  }
}
