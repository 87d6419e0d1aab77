/**
 The schema editor in plain terms: what a field is written as, key by key; what a
 property must look like to be read; and that a tidy field comes back unchanged.
 */
module SchemaMeaning {
  import opened Prelude
  import opened Json
  import opened PropertyOrder
  import opened SchemaEditor

  // ---- words ---------------------------------------------------------------------------

  lemma TypesAreSpelled()
    ensures STRING == Ascii("string") && NUMBER == Ascii("number") && INTEGER == Ascii("integer")
    ensures BOOLEAN == Ascii("boolean") && ARRAY == Ascii("array") && OBJECT == Ascii("object")
    ensures IMAGE == Ascii("image")
  {
  }

  lemma ShortWordsAreSpelled()
    ensures TYPE == Ascii("type") && ITEMS == Ascii("items") && ENUM == Ascii("enum") && TITLE == Ascii("title")
    ensures FORMAT == Ascii("format") && MAX_ITEMS == Ascii("maxItems")
  {
  }

  lemma LongWordsAreSpelled()
    ensures DESCRIPTION == Ascii("description") && REQUIRED == Ascii("required") && PROPERTIES == Ascii("properties")
    ensures PROTO == Ascii("__proto__")
  {
  }

  lemma LongestWordIsSpelled()
    ensures ADDITIONAL == Ascii("additionalProperties")
  {
  }

  lemma KeywordsAreSpelled()
    ensures TYPE == Ascii("type") && ITEMS == Ascii("items") && ENUM == Ascii("enum") && TITLE == Ascii("title")
    ensures FORMAT == Ascii("format") && MAX_ITEMS == Ascii("maxItems") && DESCRIPTION == Ascii("description")
    ensures REQUIRED == Ascii("required") && PROPERTIES == Ascii("properties")
    ensures ADDITIONAL == Ascii("additionalProperties") && PROTO == Ascii("__proto__")
  {
    hide Ascii;
    ShortWordsAreSpelled();
    LongWordsAreSpelled();
    LongestWordIsSpelled();
  }

  /** The type a field is written with. */
  function Spelled(k: Kind): string {
    match k
    case StringKind => "string"
    case NumberKind => "number"
    case IntegerKind => "integer"
    case BooleanKind => "boolean"
    case ArrayKind => "array"
    case ObjectKind => "object"
    case ImageKind => "image"
  }

  lemma WordsAreSpelled(k: Kind)
    ensures Word(k) == Ascii(Spelled(k))
  {
    TypesAreSpelled();
  }

  // ---- trimming ------------------------------------------------------------------------

  predicate AllBlank(s: Text) {
    forall i :: 0 <= i < |s| ==> Blank(s[i])
  }

  lemma {:induction false} StartIsBlank(s: Text) returns (a: Text)
    ensures s == a + TrimStart(s) && AllBlank(a)
  {
    a := [];
    if s != [] && Blank(s[0]) {
      a := StartIsBlank(s[1..]);
      a := [s[0]] + a;
      assert s == [s[0]] + s[1..];
    }
  }

  lemma {:induction false} EndIsBlank(s: Text) returns (b: Text)
    ensures s == TrimEnd(s) + b && AllBlank(b)
  {
    b := [];
    if s != [] && Blank(Last(s)) {
      b := EndIsBlank(Front(s));
      b := b + [Last(s)];
      assert s == Front(s) + [Last(s)];
    }
  }

  /** Trimming takes blanks off both ends, and all of them. */
  lemma TrimIsTheCore(s: Text) returns (a: Text, b: Text)
    ensures s == a + Trim(s) + b && AllBlank(a) && AllBlank(b)
    ensures Trim(s) != [] ==> !Blank(Trim(s)[0]) && !Blank(Last(Trim(s)))
  {
    a := StartIsBlank(s);
    b := EndIsBlank(TrimStart(s));
    StartIsTrimmed(s);
    EndKeepsTheStart(TrimStart(s));
    assert a + (Trim(s) + b) == a + Trim(s) + b;
  }

  // ---- what is written ------------------------------------------------------------------

  /** The cap that is written: any number above zero, whole or not, and Infinity. */
  function CapWritten(a: Amount): Option<Value> {
    match a
    case Finite(n) => if n.numerator >= 1 then Some(Num(n)) else None
    case Infinite(positive) => if positive then Some(NonFinite(true)) else None
    case NotANumber => None
  }

  lemma CapsAreWritten(f: Field)
    requires f.kind == ImageKind
    ensures Get(PropertyOf(f), Ascii("maxItems")) == CapWritten(f.maxImages)
  {
    PropertyGets(f);
    KeywordsAreSpelled();
    hide PropertyOf, Get, ItemsPart, DescriptionPart, EnumPart;
  }

  /** A property, key by key. */
  lemma WhatIsWritten(f: Field)
    ensures var p := PropertyOf(f);
            && Get(p, Ascii("type")) == Some(Str(Ascii(if f.kind == ImageKind then "array" else Spelled(f.kind))))
            && Get(p, Ascii("items"))
               == (if f.kind == ImageKind then
                     Some(Obj([Member(Ascii("type"), Str(Ascii("string"))),
                               Member(Ascii("format"), Str(Ascii("image")))]))
                   else if f.kind == ArrayKind then Some(Obj([Member(Ascii("type"), Str(Ascii(Spelled(f.itemKind))))]))
                   else None)
            && Get(p, Ascii("maxItems")) == (if f.kind == ImageKind then CapWritten(f.maxImages) else None)
            && Get(p, Ascii("description"))
               == (if Trim(f.description) == [] then None else Some(Str(Trim(f.description))))
            && Get(p, Ascii("format")) == None && Get(p, Ascii("title")) == None
  {
    PropertyGets(f);
    KeywordsAreSpelled();
    TypesAreSpelled();
    WordsAreSpelled(f.kind);
    WordsAreSpelled(f.itemKind);
    if f.kind == ImageKind { CapsAreWritten(f); }
    hide PropertyOf, Get, Word, Spelled, EnumPart, Ascii, Trim, CapWritten;
  }

  /** And its enum: the listed values of a string, when there are any. */
  lemma EnumsAreWritten(f: Field)
    ensures var e := Get(PropertyOf(f), Ascii("enum"));
            && (e.Some? <==> f.kind == StringKind && f.enumValues != [])
            && (e.Some? ==> e.value.Arr? && |e.value.items| == |f.enumValues|
                            && forall i :: 0 <= i < |f.enumValues| ==> e.value.items[i] == Str(f.enumValues[i]))
  {
    PropertyGets(f);
    KeywordsAreSpelled();
    hide PropertyOf, Get, ItemsPart, DescriptionPart, MaxPart;
  }

  lemma {:induction false} NameIsListed(fs: seq<Field>, f: Field)
    requires f in fs && Named(f)
    ensures Trim(f.name) in NamesOf(fs)
  {
    hide Trim, Named;
    assert fs == Front(fs) + [Last(fs)];
    if f != Last(fs) { NameIsListed(Front(fs), f); }
  }

  /** Every named field has its property, under its trimmed name. */
  lemma {:induction false} FieldIsWritten(fs: seq<Field>, f: Field)
    requires Distinct(NamesOf(fs)) && f in fs && Named(f) && Trim(f.name) != Ascii("__proto__")
    ensures Get(Properties(fs), Trim(f.name)) == Some(Obj(PropertyOf(f)))
  {
    LongWordsAreSpelled();
    hide Trim, Put, PropertyOf, Get, Ascii;
    var rest, last := Front(fs), Last(fs);
    assert fs == rest + [last];
    AllDistinctBefore(fs);
    if Named(last) { PutGets(Properties(rest), Trim(last.name), Obj(PropertyOf(last)), Trim(f.name)); }
    if f != last {
      FieldIsWritten(rest, f);
      NameIsListed(rest, f);
    }
  }

  /** And the names listed as required are those of the named fields that are. */
  lemma {:induction false} RequiredIsWritten(fs: seq<Field>, k: Text)
    ensures k in RequiredNames(fs) <==> exists f :: f in fs && f.required && k != [] && Trim(f.name) == k
  {
    hide Trim;
    if fs != [] {
      var rest, last := Front(fs), Last(fs);
      assert fs == rest + [last];
      RequiredIsWritten(rest, k);
      assert last in fs;
    }
  }

  // ---- repeated names ----------------------------------------------------------------------

  /** By the time `a` has appeared, `b` has not. */
  ghost predicate AppearsBefore(ks: seq<Text>, a: Text, b: Text) {
    exists m :: 0 <= m < |ks| && ks[m] == a && b !in ks[..m + 1]
  }

  ghost predicate ByAppearance(xs: seq<Text>, ks: seq<Text>) {
    forall i, j :: 0 <= i < j < |xs| ==> AppearsBefore(ks, xs[i], xs[j])
  }

  lemma AppearedStays(ks: seq<Text>, k: Text, a: Text, b: Text)
    requires AppearsBefore(ks, a, b)
    ensures AppearsBefore(ks + [k], a, b)
  {
    var m :| 0 <= m < |ks| && ks[m] == a && b !in ks[..m + 1];
    assert (ks + [k])[m] == a && (ks + [k])[..m + 1] == ks[..m + 1];
  }

  lemma AppearsNow(ks: seq<Text>, a: Text, b: Text)
    requires a in ks && b !in ks
    ensures AppearsBefore(ks + [b], a, b)
  {
    var m :| 0 <= m < |ks| && ks[m] == a;
    assert (ks + [b])[m] == a && (ks + [b])[..m + 1] == ks[..m + 1];
  }

  lemma {:induction false} SeenByAppearance(ks: seq<Text>)
    ensures ByAppearance(FirstSeen(ks), ks)
  {
    hide AppearsBefore;
    if ks != [] {
      var rest, k := Front(ks), Last(ks);
      assert ks == rest + [k];
      SeenByAppearance(rest);
      SeenAreAll(rest);
      var before := FirstSeen(rest);
      forall i, j | 0 <= i < j < |FirstSeen(ks)| ensures AppearsBefore(ks, FirstSeen(ks)[i], FirstSeen(ks)[j]) {
        if j < |before| {
          AppearedStays(rest, k, before[i], before[j]);
        } else {
          assert before[i] in rest;
          AppearsNow(rest, before[i], k);
        }
      }
    }
  }

  lemma {:induction false} RepeatedByAppearance(order: seq<Text>, ks: seq<Text>)
    requires ByAppearance(order, ks)
    ensures ByAppearance(Repeated(order, ks), ks)
  {
    hide AppearsBefore;
    if order != [] {
      var rest, k, before := Front(order), Last(order), Repeated(Front(order), ks);
      RepeatedByAppearance(rest, ks);
      RepeatedAre(rest, ks);
      forall i | 0 <= i < |before| ensures AppearsBefore(ks, before[i], k) {
        assert before[i] in rest;
        var n :| 0 <= n < |rest| && rest[n] == before[i];
        assert order[n] == before[i];
      }
    }
  }

  lemma {:induction false} OccursTwice(ks: seq<Text>, k: Text)
    ensures Occurrences(ks, k) > 1 <==> exists i, j :: 0 <= i < j < |ks| && ks[i] == k && ks[j] == k
  {
    if ks != [] {
      var rest := Front(ks);
      assert ks == rest + [Last(ks)];
      OccursTwice(rest, k);
      OccursSomewhere(rest, k);
      if Occurrences(rest, k) > 1 {
        var i, j :| 0 <= i < j < |rest| && rest[i] == k && rest[j] == k;
        assert ks[i] == k && ks[j] == k;
      } else if Occurrences(ks, k) > 1 {
        var i :| 0 <= i < |rest| && rest[i] == k;
        assert ks[i] == k && ks[|rest|] == k;
      }
      if i, j :| 0 <= i < j < |ks| && ks[i] == k && ks[j] == k {
        assert rest[i] == k;
        if j < |rest| { assert rest[j] == k; }
      }
    }
  }

  /** The issues listed: the names that stand at two places, each once, in the order
      in which they first appear. */
  lemma IssuesAre(names: seq<Text>)
    ensures var issues := Repeated(FirstSeen(names), names);
            && ByAppearance(issues, names)
            && forall k :: k in issues <==> exists i, j :: 0 <= i < j < |names| && names[i] == k && names[j] == k
  {
    SeenByAppearance(names);
    RepeatedByAppearance(FirstSeen(names), names);
    IssuesAreRepeats(names);
    forall k { OccursTwice(names, k); }
    hide Repeated, FirstSeen, Occurrences, ByAppearance;
  }

  // ---- a tidy field ----------------------------------------------------------------------

  /** A field as the editor itself leaves it: nothing set that its type has no use for. */
  predicate Tidy(f: Field) {
    && f.name != [] && Trim(f.name) == f.name && f.name != Ascii("__proto__") && Trim(f.description) == f.description
    && (f.kind != StringKind ==> f.enumValues == [])
    && (if f.kind == ArrayKind then f.itemKind != ImageKind else f.itemKind == StringKind)
    && (if f.kind != ImageKind then f.maxImages == Finite(Number(1, 1))
        else match f.maxImages
             case Finite(n) => n.numerator >= 1 || n == Number(0, 1)
             case Infinite(positive) => positive
             case NotANumber => false)
  }

  /** Such a field, cap and all, is what is read after it has been written. */
  lemma TidyFieldComesBack(f: Field, allowImages: bool)
    requires Tidy(f) && (f.kind == ImageKind ==> allowImages)
    ensures Parse(SchemaOf([f]), allowImages) == Some([f])
  {
    KeywordsAreSpelled();
    assert Normal(f) == f;
    hide Trim;
    assert Front([f]) == [] && NamesOf([f]) == [f.name] && Survivors([f]) == [f];
    assert Normals([f]) == [f];
    assert Front([f]) == [] && Arranged(ByName(), [f]) == [f];
    hide Normal;
    FieldsComeBack([f], allowImages);
  }

  /** With a cap of one image, the editor's own default, too. */
  lemma SingleImageComesBack(name: Text, required: bool)
    requires name != [] && Trim(name) == name && name != Ascii("__proto__")
    ensures var f := Field(name, ImageKind, required, [], [], StringKind, Finite(Number(1, 1)));
            && Parse(SchemaOf([f]), true) == Some([f])
            && Get(PropertyOf(f), Ascii("maxItems")) == Some(Num(Number(1, 1)))
  {
    var f := Field(name, ImageKind, required, [], [], StringKind, Finite(Number(1, 1)));
    TidyFieldComesBack(f, true);
    CapsAreWritten(f);
  }

  // ---- what can be read --------------------------------------------------------------------

  /** One of the six types a schema may name. */
  predicate NamesAType(v: Option<Value>) {
    && v.Some?
    && v.value in {Str(Ascii("string")), Str(Ascii("number")), Str(Ascii("integer")), Str(Ascii("boolean")),
                   Str(Ascii("array")), Str(Ascii("object"))}
  }

  lemma TypesRead(v: Option<Value>)
    ensures KindOf(v).Some? <==> NamesAType(v)
    ensures KindOf(v) == Some(StringKind) <==> v == Some(Str(Ascii("string")))
    ensures KindOf(v) == Some(ArrayKind) <==> v == Some(Str(Ascii("array")))
  {
    TypesAreSpelled();
    KindOfWord(StringKind);
    KindOfWord(ArrayKind);
  }

  predicate ImageMarked(ms: Members, allowImages: bool) {
    && allowImages
    && Get(ms, Ascii("type")) == Some(Str(Ascii("string"))) && Get(ms, Ascii("format")) == Some(Str(Ascii("image")))
  }

  /** Items of a known type and nothing else, unless it is the image marker. */
  predicate ItemsReadable(v: Value, allowImages: bool) {
    && v.Obj? && NamesAType(Get(v.members, Ascii("type")))
    && (forall i :: 0 <= i < |v.members| ==> v.members[i].key in [Ascii("type"), Ascii("format")])
    && (Get(v.members, Ascii("format")).Some? ==> ImageMarked(v.members, allowImages))
  }

  predicate ImageItems(v: Option<Value>, allowImages: bool) {
    v.Some? && v.value.Obj? && ImageMarked(v.value.members, allowImages)
  }

  /** The type of an array's elements: what `items` names, strings when it is left out. */
  predicate ElementsAre(v: Option<Value>, kind: Kind) {
    if v.None? then kind == StringKind
    else v.value.Obj? && Get(v.value.members, Ascii("type")) == Some(Str(Ascii(Spelled(kind))))
  }

  predicate Readable(v: Value, allowImages: bool) {
    && v.Obj?
    && var p := v.members;
    && var isArray := Get(p, Ascii("type")) == Some(Str(Ascii("array")));
    && NamesAType(Get(p, Ascii("type")))
    && (forall i :: 0 <= i < |p| ==>
          p[i].key in [Ascii("format"), Ascii("type"), Ascii("description"), Ascii("enum"), Ascii("items"),
                       Ascii("title"), Ascii("maxItems")])
    && (Get(p, Ascii("format")).Some? ==> ImageMarked(p, allowImages))
    && (Get(p, Ascii("enum")).Some? ==>
          && Get(p, Ascii("type")) == Some(Str(Ascii("string"))) && Get(p, Ascii("enum")).value.Arr?
          && forall i :: 0 <= i < |Get(p, Ascii("enum")).value.items| ==> Get(p, Ascii("enum")).value.items[i].Str?)
    && (Get(p, Ascii("items")).Some? ==> isArray && ItemsReadable(Get(p, Ascii("items")).value, allowImages))
    && (Get(p, Ascii("maxItems")).Some? ==>
          && isArray && ImageItems(Get(p, Ascii("items")), allowImages)
          && (Get(p, Ascii("maxItems")).value.Num? || Get(p, Ascii("maxItems")).value.NonFinite?))
  }

  lemma ItemsRead(v: Option<Value>, allowImages: bool)
    ensures ItemsOf(v, allowImages).Some? <==> v.None? || ItemsReadable(v.value, allowImages)
    ensures ItemsOf(v, allowImages).Some? ==> (ItemsOf(v, allowImages).value.image <==> ImageItems(v, allowImages))
    ensures ItemsOf(v, allowImages).Some? ==> ElementsAre(v, ItemsOf(v, allowImages).value.kind)
  {
    KeywordsAreSpelled();
    TypesAreSpelled();
    if v.Some? && v.value.Obj? {
      var kind := KindOf(Get(v.value.members, TYPE));
      TypesRead(Get(v.value.members, TYPE));
      WordOfKind(Get(v.value.members, TYPE));
      if kind.Some? { WordsAreSpelled(kind.value); }
    }
    hide Ascii, KindOf, NamesAType, Get, Word;
  }

  /** A property is read as a field exactly when the editor can draw all of it; any
      other keyword, value or format keeps the schema as raw JSON. */
  lemma ReadableExactly(name: Text, v: Value, required: bool, allowImages: bool)
    ensures FieldOf(name, v, required, allowImages).Some? <==> Readable(v, allowImages)
  {
    if v.Obj? {
      KeywordsAreSpelled();
      TypesAreSpelled();
      TypesRead(Get(v.members, TYPE));
      ItemsRead(Get(v.members, ITEMS), allowImages);
    }
    hide Ascii, KindOf, NamesAType, Get, ItemsOf, ItemsReadable;
  }

  /** And this is the field it is read as. */
  lemma WhatIsRead(name: Text, v: Value, required: bool, allowImages: bool)
    requires Readable(v, allowImages)
    ensures FieldOf(name, v, required, allowImages).Some?
    ensures var f, p := FieldOf(name, v, required, allowImages).value, v.members;
            && f.name == name && f.required == required
            && (f.kind == ImageKind <==> ImageItems(Get(p, Ascii("items")), allowImages))
            && Get(p, Ascii("type")) == Some(Str(Ascii(if f.kind == ImageKind then "array" else Spelled(f.kind))))
            && f.description == TextIn(Get(p, Ascii("description")))
            && f.enumValues == (if Get(p, Ascii("enum")).Some? then f.enumValues else [])
            && (Get(p, Ascii("enum")).Some? ==> Get(p, Ascii("enum")).value == Arr(Strs(f.enumValues)))
            && ElementsAre(Get(p, Ascii("items")), f.itemKind)
            && f.maxImages == (if f.kind == ImageKind then CapRead(Get(p, Ascii("maxItems"))) else Finite(Number(1, 1)))
  {
    ReadableExactly(name, v, required, allowImages);
    KeywordsAreSpelled();
    TypesAreSpelled();
    ItemsRead(Get(v.members, ITEMS), allowImages);
    var kind := KindOf(Get(v.members, TYPE));
    WordOfKind(Get(v.members, TYPE));
    WordsAreSpelled(kind.value);
    EnumRead(Get(v.members, ENUM), kind.value);
    hide Ascii, KindOf, NamesAType, Get, ItemsOf, ImageItems, ElementsAre, ItemsReadable, Readable, Word, EnumOf, Strs;
  }

  lemma EnumRead(v: Option<Value>, kind: Kind)
    requires EnumOf(v, kind).Some?
    ensures v.None? ==> EnumOf(v, kind).value == []
    ensures v.Some? ==> v.value == Arr(Strs(EnumOf(v, kind).value))
  {
    if v.Some? { assert Strs(EnumOf(v, kind).value) == v.value.items; }
  }

  /** The text of a description; anything but a string reads as none. */
  function TextIn(v: Option<Value>): Text {
    match v
    case Some(Str(s)) => s
    case _ => []
  }

  /** No cap reads as zero, "no limit". */
  function CapRead(v: Option<Value>): Amount {
    match v
    case Some(Num(n)) => Finite(n)
    case Some(NonFinite(positive)) => Infinite(positive)
    case _ => Finite(Number(0, 1))
  }

  // ---- whole schemas ------------------------------------------------------------------------

  lemma {:induction false} RequiredRead(vs: seq<Value>, k: Text)
    ensures k in OnlyStrs(vs) <==> Str(k) in vs
  {
    if vs != [] {
      RequiredRead(Front(vs), k);
      assert vs == Front(vs) + [Last(vs)];
    }
  }

  /** Listed as required, wherever it stands and whatever else is listed. */
  predicate ListedIn(v: Option<Value>, k: Text) {
    v.Some? && v.value.Arr? && Str(k) in v.value.items
  }

  lemma {:induction false} EveryPropertyRead(props: Members, required: seq<Text>, allowImages: bool)
    ensures var fs := FieldsOf(props, required, allowImages);
            && (fs.Some? <==> forall i :: 0 <= i < |props| ==> Readable(props[i].value, allowImages))
            && (fs.Some? ==>
                  && |fs.value| == |props|
                  && forall i :: 0 <= i < |props| ==>
                       FieldOf(props[i].key, props[i].value, props[i].key in required, allowImages)
                       == Some(fs.value[i]))
  {
    hide Readable, FieldOf;
    if props != [] {
      EveryPropertyRead(Front(props), required, allowImages);
      ReadableExactly(Last(props).key, Last(props).value, Last(props).key in required, allowImages);
    }
  }

  /** How many own keys Object.keys finds in a value; null and undefined have none. */
  function OwnKeys(v: Value): nat {
    match v
    case Obj(ms) => |ms|
    case Arr(vs) => |vs|
    case Str(s) => |s|
    case _ => 0
  }

  /** An object schema of nothing but the known keywords, each of its properties readable. */
  predicate ReadableSchema(schema: Value, allowImages: bool) {
    && schema.Obj? && Get(schema.members, Ascii("type")) == Some(Str(Ascii("object")))
    && (forall i :: 0 <= i < |schema.members| ==>
          schema.members[i].key in [Ascii("type"), Ascii("properties"), Ascii("required"), Ascii("title"),
                                    Ascii("description"), Ascii("additionalProperties")])
    && var props := Get(schema.members, Ascii("properties"));
    && (props.Some? ==>
          && (props.value.Obj? || props.value.Arr?)
          && forall i :: 0 <= i < |Entries(props.value)| ==> Readable(Entries(props.value)[i].value, allowImages))
  }

  /** A schema is shown in the editor exactly when it is empty or all of it is
      readable; then there is one field per property, in their order. */
  lemma SchemasRead(schema: Value, allowImages: bool)
    ensures Parse(schema, allowImages).Some? <==> OwnKeys(schema) == 0 || ReadableSchema(schema, allowImages)
    ensures OwnKeys(schema) == 0 ==> Parse(schema, allowImages) == Some([])
    ensures OwnKeys(schema) > 0 && Parse(schema, allowImages).Some? ==>
              var fs, props := Parse(schema, allowImages).value, Get(schema.members, Ascii("properties"));
              && |fs| == (if props.None? then 0 else |Entries(props.value)|)
              && forall i :: 0 <= i < |fs| ==>
                   var m := Entries(props.value)[i];
                   FieldOf(m.key, m.value, ListedIn(Get(schema.members, Ascii("required")), m.key), allowImages)
                   == Some(fs[i])
  {
    KeywordsAreSpelled();
    TypesAreSpelled();
    if schema.Obj? {
      var required, props := Get(schema.members, REQUIRED), Get(schema.members, PROPERTIES);
      forall k ensures k in RequiredOf(required) <==> ListedIn(required, k) {
        if required.Some? && required.value.Arr? { RequiredRead(required.value.items, k); }
      }
      if props.Some? && (props.value.Obj? || props.value.Arr?) {
        EveryPropertyRead(Entries(props.value), RequiredOf(required), allowImages);
      }
    }
    hide Ascii, Get, Readable, FieldOf, FieldsOf, RequiredOf, ListedIn, Entries;
  }
}
