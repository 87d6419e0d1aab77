/**
 JSON values as the schema editor meets them, and `stableStringify`.

 Text is a sequence of UTF-16 code units, as in JavaScript.  A finite number is
 any value of the type N, printed by a function the printer is given; numbers
 that overflow while being parsed (1e999, -1e999) are `NonFinite`.
 */
module Json {
  import opened Prelude

  type Unit = x: int | 0 <= x < 0x1_0000
  type Text = seq<Unit>

  datatype Json<N> =
    | Null | Bool(b: bool) | Num(n: N) | NonFinite(positive: bool) | Str(s: Text)
    | Arr(items: seq<Json<N>>) | Obj(members: seq<Member<N>>)

  /** Members are in the order they are enumerated. */
  datatype Member<N> = Member(key: Text, value: Json<N>)

  const QUOTE: Unit := 0x22
  const BACKSLASH: Unit := 0x5C
  const COMMA: Unit := 0x2C
  const COLON: Unit := 0x3A
  const OPEN_ARR: Unit := 0x5B
  const CLOSE_ARR: Unit := 0x5D
  const OPEN_OBJ: Unit := 0x7B
  const CLOSE_OBJ: Unit := 0x7D
  const NULL_TEXT: Text := [0x6E, 0x75, 0x6C, 0x6C]
  const TRUE_TEXT: Text := [0x74, 0x72, 0x75, 0x65]
  const FALSE_TEXT: Text := [0x66, 0x61, 0x6C, 0x73, 0x65]

  /** A text as it is spelled in ASCII. */
  function Ascii(s: string): Text {
    seq(|s|, i requires 0 <= i < |s| => s[i] as int % 0x1_0000)
  }

  // ---- objects ---------------------------------------------------------------

  function KeysOf<N>(ms: seq<Member<N>>): (ks: seq<Text>)
    ensures |ks| == |ms| && forall i :: 0 <= i < |ms| ==> ks[i] == ms[i].key
  {
    if ms == [] then [] else [ms[0].key] + KeysOf(ms[1..])
  }

  predicate Distinct(ks: seq<Text>) {
    forall i, j :: 0 <= i < j < |ks| ==> ks[i] != ks[j]
  }

  function Lookup<N>(ms: seq<Member<N>>, k: Text): (v: Json<N>)
    requires k in KeysOf(ms)
    ensures Member(k, v) in ms
  {
    if ms[0].key == k then ms[0].value else Lookup(ms[1..], k)
  }

  /** An object never has the same key twice. */
  ghost predicate WellFormed<N(!new)>(v: Json<N>) {
    match v
    case Arr(items) => forall i :: 0 <= i < |items| ==> WellFormed(items[i])
    case Obj(ms) => Distinct(KeysOf(ms)) && forall i :: 0 <= i < |ms| ==> WellFormed(ms[i].value)
    case _ => true
  }

  ghost predicate AllFinite<N(!new)>(v: Json<N>) {
    match v
    case NonFinite(_) => false
    case Arr(items) => forall i :: 0 <= i < |items| ==> AllFinite(items[i])
    case Obj(ms) => forall i :: 0 <= i < |ms| ==> AllFinite(ms[i].value)
    case _ => true
  }

  /** Equality up to the order of object keys.  When `asJson`, a non-finite
      number counts as null. */
  ghost predicate Alike<N(!new)>(asJson: bool, v: Json<N>, w: Json<N>) {
    match v
    case Null => w == Null || (asJson && w.NonFinite?)
    case NonFinite(_) => v == w || (asJson && (w == Null || w.NonFinite?))
    case Arr(xs) => w.Arr? && |xs| == |w.items| && forall i :: 0 <= i < |xs| ==> Alike(asJson, xs[i], w.items[i])
    case Obj(ms) =>
      && w.Obj?
      && (forall k :: k in KeysOf(ms) <==> k in KeysOf(w.members))
      && forall k :: k in KeysOf(ms) && k in KeysOf(w.members) ==> Alike(asJson, Lookup(ms, k), Lookup(w.members, k))
    case _ => v == w
  }

  // ---- sorting keys -------------------------------------------------------------

  /** Order by code units, as Array.prototype.sort compares strings. */
  predicate Before(a: Text, b: Text) {
    if b == [] then false
    else if a == [] then true
    else a[0] < b[0] || (a[0] == b[0] && Before(a[1..], b[1..]))
  }

  function Insert(k: Text, ks: seq<Text>): seq<Text> {
    if ks == [] || Before(k, ks[0]) then [k] + ks else [ks[0]] + Insert(k, ks[1..])
  }

  function Sorted(ks: seq<Text>): seq<Text> {
    if ks == [] then [] else Insert(ks[0], Sorted(ks[1..]))
  }

  // ---- printing -----------------------------------------------------------------

  predicate High(u: Unit) { 0xD800 <= u < 0xDC00 }

  predicate Low(u: Unit) { 0xDC00 <= u < 0xE000 }

  function HexDigit(d: int): Unit
    requires 0 <= d < 16
  {
    if d < 10 then 0x30 + d else 0x61 + (d - 10)
  }

  function UnicodeEscape(u: Unit): Text {
    [BACKSLASH, 0x75, HexDigit(u / 16 / 16 / 16), HexDigit(u / 16 / 16 % 16), HexDigit(u / 16 % 16), HexDigit(u % 16)]
  }

  /** How one unit that is not half of a pair is written in a string. */
  function EscapeUnit(u: Unit): Text {
    if u == QUOTE then [BACKSLASH, QUOTE]
    else if u == BACKSLASH then [BACKSLASH, BACKSLASH]
    else if u == 0x08 then [BACKSLASH, 0x62]
    else if u == 0x09 then [BACKSLASH, 0x74]
    else if u == 0x0A then [BACKSLASH, 0x6E]
    else if u == 0x0C then [BACKSLASH, 0x66]
    else if u == 0x0D then [BACKSLASH, 0x72]
    else if u < 0x20 || High(u) || Low(u) then UnicodeEscape(u)
    else [u]
  }

  predicate StartsWithPair(s: Text) {
    |s| >= 2 && High(s[0]) && Low(s[1])
  }

  function Escape(s: Text): Text {
    if s == [] then []
    else if StartsWithPair(s) then [s[0], s[1]] + Escape(s[2..])
    else EscapeUnit(s[0]) + Escape(s[1..])
  }

  /** JSON.stringify of a string. */
  function Quote(s: Text): Text {
    [QUOTE] + Escape(s) + [QUOTE]
  }

  function Print<N>(fmt: N -> Text, v: Json<N>): Text
    decreases v, 0
  {
    match v
    case Null => NULL_TEXT
    case NonFinite(_) => NULL_TEXT
    case Bool(b) => if b then TRUE_TEXT else FALSE_TEXT
    case Num(n) => fmt(n)
    case Str(s) => Quote(s)
    case Arr(items) => [OPEN_ARR] + PrintItems(fmt, items) + [CLOSE_ARR]
    case Obj(ms) =>
      SortedSameKeys(KeysOf(ms));
      [OPEN_OBJ] + PrintMembers(fmt, ms, Sorted(KeysOf(ms))) + [CLOSE_OBJ]
  }

  function PrintItems<N>(fmt: N -> Text, items: seq<Json<N>>): Text
    decreases items, 0
  {
    if items == [] then []
    else Print(fmt, items[0]) + (if |items| == 1 then [] else [COMMA] + PrintItems(fmt, items[1..]))
  }

  function PrintMembers<N>(fmt: N -> Text, ms: seq<Member<N>>, ks: seq<Text>): Text
    requires forall i :: 0 <= i < |ks| ==> ks[i] in KeysOf(ms)
    decreases ms, |ks|
  {
    if ks == [] then []
    else Quote(ks[0]) + [COLON] + Print(fmt, Lookup(ms, ks[0]))
         + (if |ks| == 1 then [] else [COMMA] + PrintMembers(fmt, ms, ks[1..]))
  }

  lemma {:induction false} InsertSameKeys(k: Text, ks: seq<Text>)
    ensures forall x :: x in Insert(k, ks) <==> x == k || x in ks
    ensures |Insert(k, ks)| == |ks| + 1
  {
    if ks == [] || Before(k, ks[0]) {
    } else {
      InsertSameKeys(k, ks[1..]);
      assert ks == [ks[0]] + ks[1..];
    }
  }

  lemma {:induction false} SortedSameKeys(ks: seq<Text>)
    ensures forall x :: x in Sorted(ks) <==> x in ks
    ensures |Sorted(ks)| == |ks|
  {
    if ks != [] {
      SortedSameKeys(ks[1..]);
      InsertSameKeys(ks[0], Sorted(ks[1..]));
      assert ks == [ks[0]] + ks[1..];
    }
  }
}
