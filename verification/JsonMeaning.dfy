/**
 What `stableStringify` writes, by the grammar of JSON (RFC 8259): its literals and
 punctuation, strings a reader decodes to what was written, and members in the order
 of their keys' code units.
 */
module JsonMeaning {
  import opened Prelude
  import opened Json
  import Canonical

  // ---- the order of keys ------------------------------------------------------------------

  /** The texts agree up to position `n`, where `a` ends or has the smaller code unit. */
  predicate PartsAt(a: Text, b: Text, n: nat) {
    n <= |a| && n <= |b| && a[..n] == b[..n] && n < |b| && (n == |a| || a[n] < b[n])
  }

  ghost predicate ComesFirst(a: Text, b: Text) {
    exists n: nat :: PartsAt(a, b, n)
  }

  lemma {:induction false} BeforeFrom(a: Text, b: Text, n: nat)
    requires PartsAt(a, b, n)
    ensures Before(a, b)
  {
    if n > 0 {
      assert a[..n][0] == b[..n][0];
      assert a[1..][..n - 1] == a[..n][1..] && b[1..][..n - 1] == b[..n][1..];
      BeforeFrom(a[1..], b[1..], n - 1);
    }
  }

  lemma {:induction false} PartOf(a: Text, b: Text) returns (n: nat)
    requires Before(a, b)
    ensures PartsAt(a, b, n)
  {
    n := 0;
    if a != [] && a[0] == b[0] {
      n := PartOf(a[1..], b[1..]);
      n := n + 1;
      assert a[..n] == [a[0]] + a[1..][..n - 1] && b[..n] == [b[0]] + b[1..][..n - 1];
    }
  }

  /** Keys are compared by code units: at the first difference, or as a prefix. */
  lemma ByCodeUnits(a: Text, b: Text)
    ensures Before(a, b) <==> ComesFirst(a, b)
  {
    if Before(a, b) { var n := PartOf(a, b); }
    if ComesFirst(a, b) {
      var n: nat :| PartsAt(a, b, n);
      BeforeFrom(a, b, n);
    }
  }

  // ---- reading a string back ------------------------------------------------------------------

  function DigitValue(u: Unit): (d: Option<int>)
    ensures d.Some? ==> 0 <= d.value < 16
  {
    if 0x30 <= u <= 0x39 then Some(u - 0x30)
    else if 0x41 <= u <= 0x46 then Some(u - 0x41 + 10)
    else if 0x61 <= u <= 0x66 then Some(u - 0x61 + 10)
    else None
  }

  /** Four hexadecimal digits as a code unit. */
  function HexValue(t: Text): Option<Unit>
    requires |t| == 4
  {
    var a, b, c, d := DigitValue(t[0]), DigitValue(t[1]), DigitValue(t[2]), DigitValue(t[3]);
    if a.None? || b.None? || c.None? || d.None? then None
    else Some(a.value * 0x1000 + b.value * 0x100 + c.value * 0x10 + d.value)
  }

  /** The two-character escapes. */
  function Escaped(u: Unit): Option<Unit> {
    if u == 0x22 || u == 0x5C || u == 0x2F then Some(u)
    else if u == 0x62 then Some(0x08)
    else if u == 0x66 then Some(0x0C)
    else if u == 0x6E then Some(0x0A)
    else if u == 0x72 then Some(0x0D)
    else if u == 0x74 then Some(0x09)
    else None
  }

  function Then(u: Unit, rest: Option<Text>): Option<Text> {
    if rest.Some? then Some([u] + rest.value) else None
  }

  /** What a reader makes of the inside of a string (RFC 8259, section 7). */
  function Unescape(t: Text): Option<Text> {
    if t == [] then Some([])
    else if t[0] == 0x22 || t[0] < 0x20 then None
    else if t[0] != 0x5C then Then(t[0], Unescape(t[1..]))
    else if |t| >= 2 && Escaped(t[1]).Some? then Then(Escaped(t[1]).value, Unescape(t[2..]))
    else if |t| >= 6 && t[1] == 0x75 && HexValue(t[2..6]).Some? then
      Then(HexValue(t[2..6]).value, Unescape(t[6..]))
    else None
  }

  function Unquote(t: Text): Option<Text> {
    if |t| >= 2 && t[0] == 0x22 && t[|t| - 1] == 0x22 then Unescape(t[1..|t| - 1]) else None
  }

  lemma DigitOf(d: int)
    requires 0 <= d < 16
    ensures DigitValue(HexDigit(d)) == Some(d)
  {
  }

  lemma HexOf(u: Unit)
    ensures |UnicodeEscape(u)| == 6 && HexValue(UnicodeEscape(u)[2..6]) == Some(u)
  {
    var t := UnicodeEscape(u)[2..6];
    DigitOf(u / 16 / 16 / 16);
    DigitOf(u / 16 / 16 % 16);
    DigitOf(u / 16 % 16);
    DigitOf(u % 16);
    hide DigitValue, HexDigit;
    assert t == [HexDigit(u / 16 / 16 / 16), HexDigit(u / 16 / 16 % 16), HexDigit(u / 16 % 16), HexDigit(u % 16)];
  }

  lemma UnescapesPlain(u: Unit, rest: Text)
    requires u >= 0x20 && u != 0x22 && u != 0x5C
    ensures Unescape([u] + rest) == Then(u, Unescape(rest))
  {
    assert ([u] + rest)[1..] == rest;
  }

  lemma UnescapesShort(c: Unit, rest: Text)
    requires Escaped(c).Some?
    ensures Unescape([0x5C, c] + rest) == Then(Escaped(c).value, Unescape(rest))
  {
    assert ([0x5C, c] + rest)[2..] == rest;
    hide Escaped;
  }

  lemma UnescapesLong(u: Unit, rest: Text)
    ensures Unescape(UnicodeEscape(u) + rest) == Then(u, Unescape(rest))
  {
    var t := UnicodeEscape(u) + rest;
    HexOf(u);
    assert t[0] == 0x5C && t[1] == 0x75 && Escaped(t[1]).None?;
    assert t[2..6] == UnicodeEscape(u)[2..6] && t[6..] == rest;
    hide HexValue, UnicodeEscape, Escaped;
  }

  lemma UnescapesUnit(u: Unit, rest: Text)
    ensures Unescape(EscapeUnit(u) + rest) == Then(u, Unescape(rest))
  {
    var t := EscapeUnit(u);
    assert || t == UnicodeEscape(u)
           || (t == [u] && u >= 0x20 && u != 0x22 && u != 0x5C)
           || (|t| == 2 && t == [0x5C, t[1]] && Escaped(t[1]) == Some(u));
    hide Unescape, UnicodeEscape, EscapeUnit, Escaped;
    if t == UnicodeEscape(u) {
      UnescapesLong(u, rest);
    } else if t == [u] {
      UnescapesPlain(u, rest);
    } else {
      UnescapesShort(t[1], rest);
    }
  }

  lemma UnescapesPair(high: Unit, low: Unit, rest: Text)
    requires High(high) && Low(low)
    ensures Unescape([high, low] + rest) == Then(high, Then(low, Unescape(rest)))
  {
    var t := [high, low] + rest;
    assert t[1..] == [low] + rest && ([low] + rest)[1..] == rest;
    assert Unescape(t) == Then(high, Unescape([low] + rest));
  }

  lemma {:induction false} EscapeReadsBack(s: Text)
    ensures Unescape(Escape(s)) == Some(s)
  {
    if s == [] {
    } else if StartsWithPair(s) {
      EscapeReadsBack(s[2..]);
      UnescapesPair(s[0], s[1], Escape(s[2..]));
      assert s == [s[0]] + ([s[1]] + s[2..]);
    } else {
      EscapeReadsBack(s[1..]);
      UnescapesUnit(s[0], Escape(s[1..]));
      assert s == [s[0]] + s[1..];
    }
  }

  /** Strings round-trip: what any reader of JSON decodes is what was written. */
  lemma QuoteReadsBack(s: Text)
    ensures Unquote(Quote(s)) == Some(s)
  {
    EscapeReadsBack(s);
    assert Quote(s)[1..|Quote(s)| - 1] == Escape(s);
  }

  /** Every half of a surrogate pair stands beside its other half. */
  predicate WellPaired(t: Text) {
    && (forall i :: 0 <= i < |t| && High(t[i]) ==> i + 1 < |t| && Low(t[i + 1]))
    && forall i :: 0 <= i < |t| && Low(t[i]) ==> i > 0 && High(t[i - 1])
  }

  lemma PairedParts(a: Text, b: Text)
    requires WellPaired(a) && WellPaired(b)
    ensures WellPaired(a + b)
  {
    assert forall i :: 0 <= i < |a| ==> (a + b)[i] == a[i];
    assert forall i :: 0 <= i < |b| ==> (a + b)[|a| + i] == b[i];
  }

  lemma NothingIsPaired()
    ensures WellPaired([])
  {
  }

  lemma UnitIsPaired(s: Text)
    ensures s != [] ==> WellPaired(EscapeUnit(s[0]))
    ensures StartsWithPair(s) ==> WellPaired([s[0], s[1]])
  {
  }

  /** The text of a string is well formed UTF-16 even where the string is not. */
  lemma {:induction false} EscapeIsWellPaired(s: Text)
    ensures WellPaired(Escape(s))
  {
    NothingIsPaired();
    UnitIsPaired(s);
    hide WellPaired, EscapeUnit;
    if s == [] {
    } else if StartsWithPair(s) {
      EscapeIsWellPaired(s[2..]);
      PairedParts([s[0], s[1]], Escape(s[2..]));
    } else {
      EscapeIsWellPaired(s[1..]);
      PairedParts(EscapeUnit(s[0]), Escape(s[1..]));
    }
  }

  /** And it escapes nothing it need not: most units are written as themselves. */
  lemma WrittenAsItself(u: Unit)
    ensures EscapeUnit(u) == [u] <==> u >= 0x20 && u != 0x22 && u != 0x5C && !(0xD800 <= u < 0xE000)
    ensures |EscapeUnit(u)| == 2 <==> u in {0x22, 0x5C, 0x08, 0x09, 0x0A, 0x0C, 0x0D}
    ensures |EscapeUnit(u)| in {1, 2, 6}
  {
  }

  /** A surrogate pair is written as it is, wherever it stands; every other unit on its own. */
  lemma EscapedOneByOne(u: Unit, s: Text)
    ensures Escape([]) == []
    ensures Escape([u] + s)
            == if s != [] && 0xD800 <= u < 0xDC00 <= s[0] < 0xE000 then [u, s[0]] + Escape(s[1..])
               else EscapeUnit(u) + Escape(s)
  {
    var t := [u] + s;
    assert t[1..] == s && (s != [] ==> t[2..] == s[1..]);
  }

  // ---- values ---------------------------------------------------------------------------------

  /** Texts with commas between them. */
  function Joined(ts: seq<Text>): Text {
    if ts == [] then [] else if |ts| == 1 then ts[0] else ts[0] + Ascii(",") + Joined(ts[1..])
  }

  lemma PunctuationIsSpelled()
    ensures [QUOTE] == Ascii("\"") && [COMMA] == Ascii(",") && [COLON] == Ascii(":")
    ensures [OPEN_ARR] == Ascii("[") && [CLOSE_ARR] == Ascii("]")
    ensures [OPEN_OBJ] == Ascii("{") && [CLOSE_OBJ] == Ascii("}")
  {
  }

  lemma LiteralsAreSpelled()
    ensures NULL_TEXT == Ascii("null") && TRUE_TEXT == Ascii("true") && FALSE_TEXT == Ascii("false")
  {
  }

  function ItemTexts<N>(fmt: N -> Text, items: seq<Json<N>>): seq<Text> {
    seq(|items|, i requires 0 <= i < |items| => Print(fmt, items[i]))
  }

  function MemberTexts<N>(fmt: N -> Text, ms: seq<Member<N>>, ks: seq<Text>): seq<Text>
    requires forall i :: 0 <= i < |ks| ==> ks[i] in KeysOf(ms)
  {
    seq(|ks|, i requires 0 <= i < |ks| => Quote(ks[i]) + Ascii(":") + Print(fmt, Lookup(ms, ks[i])))
  }

  lemma {:induction false} ItemsAreJoined<N>(fmt: N -> Text, items: seq<Json<N>>)
    ensures PrintItems(fmt, items) == Joined(ItemTexts(fmt, items))
  {
    PunctuationIsSpelled();
    hide Ascii, Print;
    if |items| > 1 {
      ItemsAreJoined(fmt, items[1..]);
      assert ItemTexts(fmt, items)[1..] == ItemTexts(fmt, items[1..]);
    }
  }

  lemma {:induction false} MembersAreJoined<N>(fmt: N -> Text, ms: seq<Member<N>>, ks: seq<Text>)
    requires forall i :: 0 <= i < |ks| ==> ks[i] in KeysOf(ms)
    ensures PrintMembers(fmt, ms, ks) == Joined(MemberTexts(fmt, ms, ks))
  {
    PunctuationIsSpelled();
    hide Ascii, Print, Quote, Lookup;
    if |ks| > 1 {
      MembersAreJoined(fmt, ms, ks[1..]);
      assert MemberTexts(fmt, ms, ks)[1..] == MemberTexts(fmt, ms, ks[1..]);
    }
  }

  /** Values that are not objects, by their own text. */
  lemma ValuesAreWritten<N>(fmt: N -> Text, v: Json<N>)
    ensures match v
            case Null => Print(fmt, v) == Ascii("null")
            case NonFinite(_) => Print(fmt, v) == Ascii("null")
            case Bool(b) => Print(fmt, v) == Ascii(if b then "true" else "false")
            case Num(n) => Print(fmt, v) == fmt(n)
            case Str(s) => Print(fmt, v) == Quote(s) && Unquote(Print(fmt, v)) == Some(s)
            case Arr(items) => Print(fmt, v) == Ascii("[") + Joined(ItemTexts(fmt, items)) + Ascii("]")
            case Obj(_) => true
  {
    LiteralsAreSpelled();
    PunctuationIsSpelled();
    hide Ascii, Quote, Unquote, PrintItems, Joined, ItemTexts;
    match v
    case Str(s) => QuoteReadsBack(s);
    case Arr(items) => ItemsAreJoined(fmt, items);
    case _ =>
  }

  /** Objects, with their members in the order of their keys' code units. */
  lemma ObjectsAreWritten<N>(fmt: N -> Text, ms: seq<Member<N>>, ks: seq<Text>)
    requires Distinct(KeysOf(ms)) && forall k :: k in ks <==> k in KeysOf(ms)
    requires forall i, j :: 0 <= i < j < |ks| ==> ComesFirst(ks[i], ks[j])
    ensures Print(fmt, Obj(ms)) == Ascii("{") + Joined(MemberTexts(fmt, ms, ks)) + Ascii("}")
  {
    PunctuationIsSpelled();
    hide Ascii, Joined, MemberTexts, PrintMembers, Sorted, ComesFirst;
    forall i, j | 0 <= i < j < |ks| ensures Before(ks[i], ks[j]) { ByCodeUnits(ks[i], ks[j]); }
    SortedSameKeys(KeysOf(ms));
    Canonical.SortedSorts(KeysOf(ms));
    Canonical.SortedIsUnique(ks, Sorted(KeysOf(ms)));
    MembersAreJoined(fmt, ms, ks);
  }
}
