/**
 Opening a schema in the visual editor and saving it untouched: exactly which
 accepted schemas come out equal, up to the order of keys, to what went in.
 */
module SchemaFidelity {
  import opened Prelude
  import opened Json
  import opened PropertyOrder
  import opened SchemaEditor
  import Canonical

  // ---- equality of objects, key by key -----------------------------------------------

  ghost predicate SameAt(a: Option<Value>, b: Option<Value>) {
    a.Some? == b.Some? && (a.Some? ==> Alike(false, a.value, b.value))
  }

  ghost predicate SameMembers(ms: Members, ns: Members) {
    forall k :: SameAt(Get(ms, k), Get(ns, k))
  }

  lemma AlikeThenSame(ms: Members, ns: Members)
    requires Alike(false, Obj(ms), Obj(ns))
    ensures SameMembers(ms, ns)
  {
    forall k ensures SameAt(Get(ms, k), Get(ns, k)) {
      GetIsLookup(ms, k);
      GetIsLookup(ns, k);
    }
  }

  lemma SameThenAlike(ms: Members, ns: Members)
    requires SameMembers(ms, ns)
    ensures Alike(false, Obj(ms), Obj(ns))
  {
    forall k
      ensures k in KeysOf(ms) <==> k in KeysOf(ns)
      ensures k in KeysOf(ms) && k in KeysOf(ns) ==> Alike(false, Lookup(ms, k), Lookup(ns, k))
    {
      assert SameAt(Get(ms, k), Get(ns, k));
      GetIsLookup(ms, k);
      GetIsLookup(ns, k);
    }
  }

  /** Objects are alike when they are alike at every key. */
  lemma AlikeKeyByKey(ms: Members, ns: Members)
    ensures Alike(false, Obj(ms), Obj(ns)) <==> SameMembers(ms, ns)
  {
    if Alike(false, Obj(ms), Obj(ns)) { AlikeThenSame(ms, ns); }
    if SameMembers(ms, ns) { SameThenAlike(ms, ns); }
  }

  lemma NoOtherKeys(ms: Members, allowed: seq<Text>, k: Text)
    requires OnlyKeys(ms, allowed) && k !in allowed
    ensures Get(ms, k).None?
  {
    GetIsLookup(ms, k);
  }

  lemma StrsAlike(xs: seq<Text>, v: Value)
    ensures Alike(false, Arr(Strs(xs)), v) <==> v == Arr(Strs(xs))
  {
    if Alike(false, Arr(Strs(xs)), v) {
      assert forall i :: 0 <= i < |xs| ==> Alike(false, Strs(xs)[i], v.items[i]);
      assert v.items == Strs(xs);
    } else if v == Arr(Strs(xs)) {
      assert forall i :: 0 <= i < |xs| ==> Alike(false, Strs(xs)[i], v.items[i]);
      assert false;
    }
  }

  // ---- one property ------------------------------------------------------------------

  /** A property the editor writes back as it was: no title, no format marker on
      a bare string, a description that is trimmed text, no empty enum, no array
      without items, no image cap of zero or less. */
  predicate PlainProperty(p: Members) {
    && Get(p, TITLE).None? && Get(p, FORMAT).None?
    && PlainDescription(Get(p, DESCRIPTION))
    && Get(p, ENUM) != Some(Arr([]))
    && (KindOf(Get(p, TYPE)) == Some(ArrayKind) ==> Get(p, ITEMS).Some?)
    && PlainCap(Get(p, MAX_ITEMS))
  }

  predicate PlainDescription(d: Option<Value>) {
    d.None? || (d.value.Str? && d.value.s != [] && Trim(d.value.s) == d.value.s)
  }

  predicate PlainCap(m: Option<Value>) {
    m.None? || (AmountOf(m.value).Some? && Positive(AmountOf(m.value).value))
  }

  lemma DescriptionKept(f: Field, d: Option<Value>)
    requires f.description == if d.Some? && d.value.Str? then d.value.s else []
    ensures SameAt(DescriptionPart(f), d) <==> PlainDescription(d)
  {
  }

  lemma EnumKept(f: Field, e: Option<Value>, kind: Kind)
    requires EnumOf(e, kind) == Some(f.enumValues) && (f.kind == StringKind <==> kind == StringKind)
    ensures SameAt(EnumPart(f), e) <==> e != Some(Arr([]))
  {
    if e.Some? {
      assert Strs(Texts(e.value.items)) == e.value.items;
      StrsAlike(f.enumValues, e.value);
    }
  }

  lemma ItemsKept(f: Field, items: Option<Value>, allowImages: bool)
    requires f.kind == ArrayKind || f.kind == ImageKind
    requires ItemsOf(items, allowImages) == Some(Items(f.itemKind, f.kind == ImageKind))
    ensures SameAt(ItemsPart(f), items) <==> items.Some?
  {
    if items.Some? {
      var ms, ns := items.value.members, ItemsPart(f).value.members;
      KeywordsDiffer();
      WordOfKind(Get(ms, TYPE));
      forall k ensures SameAt(Get(ns, k), Get(ms, k)) {
        if k != TYPE && k != FORMAT { NoOtherKeys(ms, [TYPE, FORMAT], k); }
        var tail := ns[1..];
        assert tail == if f.kind == ImageKind then [Member(FORMAT, Str(IMAGE))] else [];
        assert Get(ns, k) == if k == TYPE then Some(ns[0].value) else Get(tail, k);
        assert tail != [] ==> tail[1..] == [] && Get(tail, k) == if k == FORMAT then Some(Str(IMAGE)) else None;
      }
      AlikeKeyByKey(ns, ms);
    }
  }

  /** What FieldOf found in a property it accepted. */
  lemma Accepted(name: Text, p: Members, required: bool, allowImages: bool)
    requires FieldOf(name, Obj(p), required, allowImages).Some?
    ensures var f := FieldOf(name, Obj(p), required, allowImages).value;
            var kind := KindOf(Get(p, TYPE));
            var d, items, m := Get(p, DESCRIPTION), Get(p, ITEMS), Get(p, MAX_ITEMS);
            && kind == Some(if f.kind == ImageKind then ArrayKind else f.kind)
            && OnlyKeys(p, [FORMAT, TYPE, DESCRIPTION, ENUM, ITEMS, TITLE, MAX_ITEMS])
            && f.description == (if d.Some? && d.value.Str? then d.value.s else [])
            && EnumOf(Get(p, ENUM), kind.value) == Some(f.enumValues)
            && (kind.value == ArrayKind ==> ItemsOf(items, allowImages) == Some(Items(f.itemKind, f.kind == ImageKind)))
            && (kind.value != ArrayKind ==> items.None?)
            && (m.Some? ==> f.kind == ImageKind && AmountOf(m.value) == Some(f.maxImages))
            && (f.kind == ImageKind && m.None? ==> f.maxImages == ZERO)
            && f.name == name && f.required == required
  {
    WordOfKind(Get(p, TYPE));
    hide Get, KindOf, OnlyKeys, EnumOf, ItemsOf;
  }

  lemma OtherKeysAgree(f: Field, p: Members)
    requires OnlyKeys(p, [FORMAT, TYPE, DESCRIPTION, ENUM, ITEMS, TITLE, MAX_ITEMS])
    ensures forall k :: k !in [FORMAT, TYPE, DESCRIPTION, ENUM, ITEMS, TITLE, MAX_ITEMS] ==>
            SameAt(Get(PropertyOf(f), k), Get(p, k))
  {
    ShapeKeys(if f.kind == ImageKind then ARRAY else Word(f.kind),
              EnumPart(f), ItemsPart(f), MaxPart(f), DescriptionPart(f));
    forall k | k !in [FORMAT, TYPE, DESCRIPTION, ENUM, ITEMS, TITLE, MAX_ITEMS]
      ensures SameAt(Get(PropertyOf(f), k), Get(p, k))
    {
      NoOtherKeys(PropertyOf(f), [FORMAT, TYPE, DESCRIPTION, ENUM, ITEMS, TITLE, MAX_ITEMS], k);
      NoOtherKeys(p, [FORMAT, TYPE, DESCRIPTION, ENUM, ITEMS, TITLE, MAX_ITEMS], k);
    }
  }

  lemma SevenKeys(f: Field, p: Members)
    requires OnlyKeys(p, [FORMAT, TYPE, DESCRIPTION, ENUM, ITEMS, TITLE, MAX_ITEMS])
    ensures var ms := PropertyOf(f);
            SameMembers(ms, p)
            <==> (&& SameAt(Get(ms, TYPE), Get(p, TYPE)) && SameAt(Get(ms, ENUM), Get(p, ENUM))
                  && SameAt(Get(ms, ITEMS), Get(p, ITEMS)) && SameAt(Get(ms, MAX_ITEMS), Get(p, MAX_ITEMS))
                  && SameAt(Get(ms, DESCRIPTION), Get(p, DESCRIPTION)) && SameAt(Get(ms, FORMAT), Get(p, FORMAT))
                  && SameAt(Get(ms, TITLE), Get(p, TITLE)))
  {
    hide PropertyOf, OnlyKeys, SameAt;
    OtherKeysAgree(f, p);
  }

  lemma CapKept(f: Field, m: Option<Value>)
    requires m.Some? ==> f.kind == ImageKind && AmountOf(m.value) == Some(f.maxImages)
    requires f.kind == ImageKind && m.None? ==> f.maxImages == ZERO
    ensures SameAt(MaxPart(f), m) <==> PlainCap(m)
  {
  }

  lemma NothingKept(v: Option<Value>)
    ensures SameAt(None, v) <==> v.None?
  {
  }

  lemma TextKept(t: Text)
    ensures SameAt(Some(Str(t)), Some(Str(t)))
  {
  }

  /** A property survives a round trip exactly when it is plain. */
  lemma PropertyFidelity(name: Text, p: Members, required: bool, allowImages: bool)
    requires FieldOf(name, Obj(p), required, allowImages).Some?
    ensures Alike(false, Obj(PropertyOf(FieldOf(name, Obj(p), required, allowImages).value)), Obj(p))
            <==> PlainProperty(p)
  {
    Accepted(name, p, required, allowImages);
    WordOfKind(Get(p, TYPE));
    assert Word(ArrayKind) == ARRAY;
    hide FieldOf, PropertyOf, Get, KindOf, SameMembers, OnlyKeys, EnumOf, ItemsOf, DescriptionPart, EnumPart, MaxPart,
        Word;
    hide PlainDescription, PlainCap, SameAt, Alike;
    var f := FieldOf(name, Obj(p), required, allowImages).value;
    var kind := KindOf(Get(p, TYPE)).value;
    AlikeKeyByKey(PropertyOf(f), p);
    SevenKeys(f, p);
    PropertyGets(f);
    TextKept(Word(kind));
    DescriptionKept(f, Get(p, DESCRIPTION));
    EnumKept(f, Get(p, ENUM), kind);
    CapKept(f, Get(p, MAX_ITEMS));
    NothingKept(Get(p, ITEMS));
    NothingKept(Get(p, TITLE));
    NothingKept(Get(p, FORMAT));
    if kind == ArrayKind { ItemsKept(f, Get(p, ITEMS), allowImages); }
  }

  // ---- the properties of a schema ------------------------------------------------------

  /** A name the editor writes back as it was. */
  predicate PlainName(k: Text) {
    k != [] && Trim(k) == k && k != PROTO
  }

  predicate PlainProperties(props: Members) {
    forall i :: 0 <= i < |props| ==>
        PlainName(props[i].key) && props[i].value.Obj? && PlainProperty(props[i].value.members)
  }

  /** Reading accepts a list of properties one by one, in order. */
  lemma {:induction false} FieldsAre(props: Members, required: seq<Text>, allowImages: bool)
    requires FieldsOf(props, required, allowImages).Some?
    ensures var fs := FieldsOf(props, required, allowImages).value;
            && |fs| == |props|
            && forall i :: 0 <= i < |props| ==>
                 FieldOf(props[i].key, props[i].value, props[i].key in required, allowImages) == Some(fs[i])
  {
    hide FieldOf;
    if props != [] {
      FieldsAre(Front(props), required, allowImages);
    }
  }

  lemma {:induction false} GetAt(ms: Members, i: nat)
    requires i < |ms| && Distinct(KeysOf(ms))
    ensures Get(ms, ms[i].key) == Some(ms[i].value)
  {
    if i > 0 {
      assert KeysOf(ms) == [ms[0].key] + KeysOf(ms[1..]);
      assert KeysOf(ms)[0] == ms[0].key && KeysOf(ms)[i] == ms[i].key;
      forall a, b | 0 <= a < b < |ms| - 1 ensures KeysOf(ms[1..])[a] != KeysOf(ms[1..])[b] {
        assert KeysOf(ms)[a + 1] == KeysOf(ms[1..])[a] && KeysOf(ms)[b + 1] == KeysOf(ms[1..])[b];
      }
      GetAt(ms[1..], i - 1);
    }
  }

  /** Every key the editor writes is a plain name. */
  lemma {:induction false} KeysWritten(fs: seq<Field>)
    ensures Distinct(KeysOf(Properties(fs)))
    ensures forall k :: k in KeysOf(Properties(fs)) ==> PlainName(k)
  {
    if fs != [] {
      var rest, f := Front(fs), Last(fs);
      KeysWritten(rest);
      PutStaysDistinct(Properties(rest), Trim(f.name), Obj(PropertyOf(f)));
      TrimTwice(f.name);
      hide Trim, Put, PropertyOf;
      forall k | k in KeysOf(Properties(fs)) ensures PlainName(k) {
        PutGets(Properties(rest), Trim(f.name), Obj(PropertyOf(f)), k);
      }
    }
  }

  /** The names listed as required among these. */
  function Listed(ks: seq<Text>, required: seq<Text>): seq<Text> {
    if ks == [] then [] else Listed(Front(ks), required) + (if Last(ks) in required then [Last(ks)] else [])
  }

  predicate AllPlain(ks: seq<Text>) {
    forall i :: 0 <= i < |ks| ==> PlainName(ks[i])
  }

  lemma PlainFieldName(f: Field)
    requires PlainName(f.name)
    ensures Named(f) && Trim(f.name) == f.name != PROTO
  {
  }

  lemma PlainFront(fs: seq<Field>)
    requires fs != [] && AllPlain(FieldNames(fs))
    ensures AllPlain(FieldNames(Front(fs)))
    ensures Named(Last(fs)) && Trim(Last(fs).name) == Last(fs).name != PROTO
  {
    var ks, k := FieldNames(Front(fs)), Last(fs).name;
    assert forall i :: 0 <= i < |ks| ==> (ks + [k])[i] == ks[i];
    assert (ks + [k])[|ks|] == k;
    PlainFieldName(Last(fs));
    hide PlainName, Trim, Named;
  }

  /** Fields that all have plain names all become properties. */
  lemma {:induction false} PlainNamesWritten(fs: seq<Field>, required: seq<Text>)
    requires AllPlain(FieldNames(fs)) && forall i :: 0 <= i < |fs| ==> (fs[i].required <==> fs[i].name in required)
    ensures NamesOf(fs) == FieldNames(fs)
    ensures RequiredNames(fs) == Listed(FieldNames(fs), required)
  {
    hide PlainName, Trim, Named, AllPlain;
    if fs != [] {
      var rest, f := Front(fs), Last(fs);
      PlainFront(fs);
      PlainNamesWritten(rest, required);
      assert f.required <==> f.name in required;
      FrontOfAppend(FieldNames(rest), f.name);
    }
  }

  /** Each of them is found under its own name, whatever order they are listed in. */
  lemma {:induction false} PlainNamesFound(fs: seq<Field>)
    requires AllPlain(FieldNames(fs)) && Distinct(FieldNames(fs))
    ensures forall i :: 0 <= i < |fs| ==> Get(Properties(fs), fs[i].name) == Some(Obj(PropertyOf(fs[i])))
    ensures forall k :: k in KeysOf(Properties(fs)) <==> k in FieldNames(fs)
  {
    hide PlainName, Trim, Named, AllPlain, PropertyOf, Put, Get;
    if fs != [] {
      var rest, f := Front(fs), Last(fs);
      PlainFront(fs);
      DistinctFront(FieldNames(rest), f.name);
      PlainNamesFound(rest);
      forall k
        ensures Get(Properties(fs), k) == if k == f.name then Some(Obj(PropertyOf(f))) else Get(Properties(rest), k)
        ensures k in KeysOf(Properties(fs)) <==> k in FieldNames(rest) || k == f.name
      {
        NamedPutGets(rest, f, k);
      }
      forall i | 0 <= i < |rest| ensures fs[i].name != f.name {
        assert FieldNames(rest)[i] == fs[i].name;
      }
    }
  }

  lemma NamedPutGets(rest: seq<Field>, f: Field, k: Text)
    requires Named(f) && Trim(f.name) == f.name != PROTO
    ensures Get(Properties(rest + [f]), k) == if k == f.name then Some(Obj(PropertyOf(f))) else Get(Properties(rest), k)
    ensures k in KeysOf(Properties(rest + [f])) <==> k in KeysOf(Properties(rest)) || k == f.name
  {
    FrontOfAppend(rest, f);
    PutGets(Properties(rest), f.name, Obj(PropertyOf(f)), k);
    hide Put, PropertyOf, Trim, Get;
  }

  /** When every name is plain, each property is written from its own field. */
  lemma PropertyWritten(props: Members, required: seq<Text>, allowImages: bool, fs: seq<Field>)
    requires Distinct(KeysOf(props)) && FieldsOf(props, required, allowImages) == Some(fs) && AllPlain(KeysOf(props))
    ensures |fs| == |props| && forall k :: k in KeysOf(Properties(fs)) <==> k in KeysOf(props)
    ensures forall i :: 0 <= i < |props| ==>
              FieldOf(props[i].key, props[i].value, props[i].key in required, allowImages) == Some(fs[i])
    ensures forall i :: 0 <= i < |props| ==> Get(Properties(fs), props[i].key) == Some(Obj(PropertyOf(fs[i])))
    ensures RequiredNames(fs) == Listed(KeysOf(props), required)
  {
    hide FieldOf, Get, PropertyOf, PlainName, Trim, AllPlain, FieldsOf, Properties;
    FieldsAre(props, required, allowImages);
    forall i | 0 <= i < |props| ensures fs[i].name == props[i].key && (fs[i].required <==> fs[i].name in required) {
      AcceptedAs(props[i], required, allowImages);
    }
    assert FieldNames(fs) == KeysOf(props);
    PlainNamesWritten(fs, required);
    PlainNamesFound(fs);
  }

  lemma AcceptedAs(p: Member<Number>, required: seq<Text>, allowImages: bool)
    requires FieldOf(p.key, p.value, p.key in required, allowImages).Some?
    ensures var f := FieldOf(p.key, p.value, p.key in required, allowImages).value;
            p.value.Obj? && f.name == p.key && (f.required <==> p.key in required)
  {
    assert p.value.Obj?;
    Accepted(p.key, p.value.members, p.key in required, allowImages);
  }

  /** The properties come out alike exactly when every one has a plain name and is plain. */
  lemma PropertiesFidelity(props: Members, required: seq<Text>, allowImages: bool, fs: seq<Field>)
    requires Distinct(KeysOf(props)) && FieldsOf(props, required, allowImages) == Some(fs)
    ensures Alike(false, Obj(Properties(fs)), Obj(props)) <==> PlainProperties(props)
  {
    var out := Properties(fs);
    AlikeKeyByKey(out, props);
    hide Alike, FieldsOf, Properties, SameMembers, PlainName, PlainProperty, Get, FieldOf, PropertyOf;
    if SameMembers(out, props) {
      forall i | 0 <= i < |props| ensures PlainName(props[i].key) {
        KeyIsWritten(fs, props, i);
      }
      assert AllPlain(KeysOf(props));
    }
    if AllPlain(KeysOf(props)) {
      PropertyWritten(props, required, allowImages, fs);
      SamePerProperty(props, required, allowImages, fs);
    }
  }

  lemma KeyIsWritten(fs: seq<Field>, props: Members, i: nat)
    requires i < |props| && Distinct(KeysOf(props)) && SameMembers(Properties(fs), props)
    ensures PlainName(props[i].key)
  {
    var k := props[i].key;
    GetAt(props, i);
    assert SameAt(Get(Properties(fs), k), Get(props, k));
    GetIsLookup(Properties(fs), k);
    KeysWritten(fs);
  }

  lemma SamePerProperty(props: Members, required: seq<Text>, allowImages: bool, fs: seq<Field>)
    requires Distinct(KeysOf(props)) && |fs| == |props|
    requires forall k :: k in KeysOf(Properties(fs)) <==> k in KeysOf(props)
    requires forall i :: 0 <= i < |props| ==>
               FieldOf(props[i].key, props[i].value, props[i].key in required, allowImages) == Some(fs[i])
    requires forall i :: 0 <= i < |props| ==> Get(Properties(fs), props[i].key) == Some(Obj(PropertyOf(fs[i])))
    ensures SameMembers(Properties(fs), props)
            <==> forall i :: 0 <= i < |props| ==> props[i].value.Obj? && PlainProperty(props[i].value.members)
  {
    var out := Properties(fs);
    forall i | 0 <= i < |props|
      ensures props[i].value.Obj? && Get(props, props[i].key) == Some(props[i].value)
      ensures SameAt(Get(out, props[i].key), Get(props, props[i].key)) <==> PlainProperty(props[i].value.members)
    {
      GetAt(props, i);
      PropertyFidelity(props[i].key, props[i].value.members, props[i].key in required, allowImages);
    }
    hide PlainProperty, Properties, FieldOf, PropertyOf, SameAt;
    if forall i :: 0 <= i < |props| ==> props[i].value.Obj? && PlainProperty(props[i].value.members) {
      forall k ensures SameAt(Get(out, k), Get(props, k)) {
        GetIsLookup(out, k);
        GetIsLookup(props, k);
        if k in KeysOf(props) {
          var i :| 0 <= i < |props| && KeysOf(props)[i] == k;
          assert props[i].key == k;
        } else {
          NeitherHas(Get(out, k), Get(props, k));
        }
      }
    }
  }

  lemma NeitherHas(a: Option<Value>, b: Option<Value>)
    requires a.None? && b.None?
    ensures SameAt(a, b)
  {
  }

  // ---- the schema --------------------------------------------------------------------

  /** `required` is left out, or is what the editor writes: the names of the
      required properties in property order, at least one of them. */
  predicate PlainRequired(v: Option<Value>, props: Members) {
    v.None? || (Listed(KeysOf(props), RequiredOf(v)) != []
        && v == Some(Arr(Strs(Listed(KeysOf(props), RequiredOf(v))))))
  }

  /** A schema the editor writes back as it was. */
  predicate PlainSchema(ms: Members) {
    && Get(ms, TITLE).None? && Get(ms, DESCRIPTION).None? && Get(ms, ADDITIONAL).None?
    && var props := Get(ms, PROPERTIES);
    && props.Some? && props.value.Obj? && PlainProperties(props.value.members)
    && PlainRequired(Get(ms, REQUIRED), props.value.members)
  }

  lemma {:induction false} NothingListed(ks: seq<Text>)
    ensures Listed(ks, []) == []
  {
    if ks != [] { NothingListed(Front(ks)); }
  }

  lemma RequiredFidelity(v: Option<Value>, props: Members, fs: seq<Field>)
    requires RequiredNames(fs) == Listed(KeysOf(props), RequiredOf(v))
    ensures SameAt(RequiredPart(fs), v) <==> PlainRequired(v, props)
  {
    NothingListed(KeysOf(props));
    if v.Some? { StrsAlike(RequiredNames(fs), v.value); }
  }

  lemma NoOtherTopKeys(fs: seq<Field>, ms: Members, k: Text)
    requires OnlyKeys(ms, [TYPE, PROPERTIES, REQUIRED, TITLE, DESCRIPTION, ADDITIONAL])
    requires k !in [TYPE, PROPERTIES, REQUIRED, TITLE, DESCRIPTION, ADDITIONAL]
    ensures SameAt(Get(SchemaOf(fs).members, k), Get(ms, k))
  {
    SchemaGets(fs, k);
    NoOtherKeys(ms, [TYPE, PROPERTIES, REQUIRED, TITLE, DESCRIPTION, ADDITIONAL], k);
    hide SchemaOf, Get, OnlyKeys;
  }

  lemma TopGets(fs: seq<Field>)
    ensures var ms := SchemaOf(fs).members;
            && Get(ms, TYPE) == Some(Str(OBJECT)) && Get(ms, PROPERTIES) == Some(Obj(Properties(fs)))
            && Get(ms, REQUIRED) == RequiredPart(fs)
            && Get(ms, TITLE) == None && Get(ms, DESCRIPTION) == None && Get(ms, ADDITIONAL) == None
  {
    KeywordsDiffer();
    hide SchemaOf, Properties, RequiredPart, Get;
    forall k { SchemaGets(fs, k); }
  }

  lemma SixKeys(fs: seq<Field>, ms: Members)
    requires OnlyKeys(ms, [TYPE, PROPERTIES, REQUIRED, TITLE, DESCRIPTION, ADDITIONAL])
    ensures SameMembers(SchemaOf(fs).members, ms)
            <==> (&& SameAt(Some(Str(OBJECT)), Get(ms, TYPE)) && SameAt(Some(Obj(Properties(fs))), Get(ms, PROPERTIES))
                  && SameAt(RequiredPart(fs), Get(ms, REQUIRED)) && SameAt(None, Get(ms, TITLE))
                  && SameAt(None, Get(ms, DESCRIPTION)) && SameAt(None, Get(ms, ADDITIONAL)))
  {
    TopGets(fs);
    var out := SchemaOf(fs).members;
    hide SchemaOf, Properties, RequiredPart, SameAt, Get, OnlyKeys;
    forall k | k !in [TYPE, PROPERTIES, REQUIRED, TITLE, DESCRIPTION, ADDITIONAL]
      ensures SameAt(Get(out, k), Get(ms, k))
    {
      NoOtherTopKeys(fs, ms, k);
    }
  }

  lemma SavedObject(ms: Members, allowImages: bool)
    requires WellFormed(Obj(ms)) && Parse(Obj(ms), allowImages).Some? && ms != []
    ensures Alike(false, SchemaOf(Parse(Obj(ms), allowImages).value), Obj(ms)) <==> PlainSchema(ms)
  {
    var fs := Parse(Obj(ms), allowImages).value;
    var props := Get(ms, PROPERTIES);
    var required := Get(ms, REQUIRED);
    AlikeKeyByKey(SchemaOf(fs).members, ms);
    SixKeys(fs, ms);
    assert SameAt(Some(Str(OBJECT)), Get(ms, TYPE));
    if props.Some? && props.value.Obj? {
      ValuesWellFormed(ms, PROPERTIES);
      PropertiesFidelity(props.value.members, RequiredOf(required), allowImages, fs);
      if PlainProperties(props.value.members) {
        assert AllPlain(KeysOf(props.value.members));
        PropertyWritten(props.value.members, RequiredOf(required), allowImages, fs);
        RequiredFidelity(required, props.value.members, fs);
      }
    }
    hide SchemaOf, Properties, FieldsOf, WellFormed, PlainProperties, PlainRequired, OnlyKeys, Get, SameMembers,
        RequiredOf;
  }

  lemma ValuesWellFormed(ms: Members, k: Text)
    requires WellFormed(Obj(ms)) && Get(ms, k).Some?
    ensures WellFormed(Get(ms, k).value)
  {
    GetIsLookup(ms, k);
    var v := Lookup(ms, k);
    var i :| 0 <= i < |ms| && ms[i] == Member(k, v);
  }

  /** A schema the editor accepts comes out of opening and saving as it went in
      exactly when it is plain; the others lose something without a warning. */
  lemma OpenedAndSaved(schema: Value, allowImages: bool)
    requires WellFormed(schema) && Parse(schema, allowImages).Some?
    ensures Alike(false, SchemaOf(Parse(schema, allowImages).value), schema)
            <==> schema.Obj? && PlainSchema(schema.members)
  {
    if schema.Obj? && schema.members != [] {
      SavedObject(schema.members, allowImages);
    } else if schema.Obj? {
      SchemaGets([], TYPE);
      AlikeKeyByKey(SchemaOf([]).members, []);
      assert !SameAt(Get(SchemaOf([]).members, TYPE), Get([], TYPE));
    }
  }

  lemma TwoMembers(a: Text, x: Value, b: Text, y: Value, k: Text)
    ensures Get([Member(a, x), Member(b, y)], k) == if k == a then Some(x) else if k == b then Some(y) else None
  {
    var ms: Members := [Member(a, x), Member(b, y)];
    assert ms[1..] == [Member(b, y)] && ms[1..][1..] == [];
    assert Get(ms[1..], k) == if k == b then Some(y) else None;
  }

  /** The bare string the image marker is written on. */
  function ImageString(): Members {
    [Member(TYPE, Str(STRING)), Member(FORMAT, Str(IMAGE))]
  }

  lemma ImageStringIsRead(name: Text)
    ensures FieldOf(name, Obj(ImageString()), false, true)
            == Some(Field(name, StringKind, false, [], [], StringKind, ONE))
    ensures !PlainProperty(ImageString())
  {
    KeywordsDiffer();
    KindOfWord(StringKind);
    forall k { TwoMembers(TYPE, Str(STRING), FORMAT, Str(IMAGE), k); }
    var p := ImageString();
    assert p == [Member(TYPE, Str(STRING)), Member(FORMAT, Str(IMAGE))];
    hide Get;
    assert Get(p, TYPE) == Some(Str(STRING)) && Get(p, FORMAT) == Some(Str(IMAGE));
    assert Get(p, DESCRIPTION).None? && Get(p, ENUM).None? && Get(p, ITEMS).None? && Get(p, MAX_ITEMS).None?;
  }

  lemma OneFieldIsRead(name: Text)
    ensures FieldsOf([Member(name, Obj(ImageString()))], [], true)
            == Some([Field(name, StringKind, false, [], [], StringKind, ONE)])
  {
    ImageStringIsRead(name);
    hide FieldOf, ImageString;
    var props: Members, none: seq<Text> := [Member(name, Obj(ImageString()))], [];
    assert Front(props) == [] && Last(props) == props[0];
    assert FieldsOf([], none, true) == Some([]) && name !in none;
    assert [] + [FieldOf(name, Obj(ImageString()), false, true).value]
            == [FieldOf(name, Obj(ImageString()), false, true).value];
  }

  lemma ImageSchemaIsWellFormed(name: Text)
    ensures var schema: Value := Obj([Member(TYPE, Str(OBJECT)),
            Member(PROPERTIES, Obj([Member(name, Obj(ImageString()))]))]);
            WellFormed(schema)
  {
    KeywordsDiffer();
    var props: Members := [Member(name, Obj(ImageString()))];
    assert WellFormed(Obj(ImageString())) && WellFormed(Obj(props));
    var ms: Members := [Member(TYPE, Str(OBJECT)), Member(PROPERTIES, Obj(props))];
    assert WellFormed(Obj(ms));
  }

  lemma ImageSchemaIsRead(name: Text)
    requires PlainName(name)
    ensures var schema: Value := Obj([Member(TYPE, Str(OBJECT)),
            Member(PROPERTIES, Obj([Member(name, Obj(ImageString()))]))]);
            Parse(schema, true) == Some([Field(name, StringKind, false, [], [], StringKind, ONE)])
  {
    var props: Members := [Member(name, Obj(ImageString()))];
    ImageStringIsRead(name);
    OneFieldIsRead(name);
    OnePropertySchema([Member(TYPE, Str(OBJECT)), Member(PROPERTIES, Obj(props))], props);
    hide Get, PlainName, ImageString, FieldsOf, OnlyKeys;
  }

  /** One that loses something: an accepted bare image string becomes a plain string. */
  lemma ImageStringLosesItsFormat(name: Text)
    requires PlainName(name)
    ensures var schema: Value := Obj([Member(TYPE, Str(OBJECT)),
            Member(PROPERTIES, Obj([Member(name, Obj(ImageString()))]))]);
            && Parse(schema, true) == Some([Field(name, StringKind, false, [], [], StringKind, ONE)])
            && !Alike(false, SchemaOf(Parse(schema, true).value), schema)
  {
    var props: Members := [Member(name, Obj(ImageString()))];
    var ms: Members := [Member(TYPE, Str(OBJECT)), Member(PROPERTIES, Obj(props))];
    ImageStringIsRead(name);
    ImageSchemaIsRead(name);
    ImageSchemaIsWellFormed(name);
    OnePropertySchema(ms, props);
    hide Get, Parse, PlainProperty, PlainName, ImageString, WellFormed, Alike, SchemaOf, FieldsOf, OnlyKeys;
    assert !PlainProperties(props) by { assert !PlainProperty(props[0].value.members); }
    OpenedAndSaved(Obj(ms), true);
  }

  lemma OnePropertySchema(ms: Members, props: Members)
    requires ms == [Member(TYPE, Str(OBJECT)), Member(PROPERTIES, Obj(props))]
    ensures Get(ms, TYPE) == Some(Str(OBJECT)) && Get(ms, PROPERTIES) == Some(Obj(props)) && Get(ms, REQUIRED) == None
    ensures OnlyKeys(ms, [TYPE, PROPERTIES, REQUIRED, TITLE, DESCRIPTION, ADDITIONAL])
  {
    KeywordsDiffer();
    TwoMembers(TYPE, Str(OBJECT), PROPERTIES, Obj(props), TYPE);
    TwoMembers(TYPE, Str(OBJECT), PROPERTIES, Obj(props), PROPERTIES);
    TwoMembers(TYPE, Str(OBJECT), PROPERTIES, Obj(props), REQUIRED);
  }

  // ---- how the editor notices a change -------------------------------------------------

  /** No key twice, and no number that is not finite. */
  ghost predicate Good(v: Value) {
    WellFormed(v) && AllFinite(v)
  }

  ghost predicate GoodMembers(ms: Members) {
    Distinct(KeysOf(ms)) && forall i :: 0 <= i < |ms| ==> Good(ms[i].value)
  }

  lemma GoodObject(ms: Members)
    requires GoodMembers(ms)
    ensures Good(Obj(ms))
  {
    assert forall i :: 0 <= i < |ms| ==> Good(ms[i].value);
  }

  lemma OneMoreMember(ms: Members, k: Text, v: Option<Value>)
    requires GoodMembers(ms) && k !in KeysOf(ms) && (v.Some? ==> Good(v.value))
    ensures var out := ms + Maybe(k, v);
            GoodMembers(out) && forall x :: x in KeysOf(out) ==> x in KeysOf(ms) || x == k
  {
    var out := ms + Maybe(k, v);
    assert forall i :: 0 <= i < |ms| ==> out[i] == ms[i] && KeysOf(out)[i] == KeysOf(ms)[i];
    assert v.Some? ==> KeysOf(out)[|ms|] == k;
    hide Good;
  }

  lemma GoodStrs(ts: seq<Text>)
    ensures Good(Arr(Strs(ts)))
  {
    assert forall i :: 0 <= i < |ts| ==> Good(Strs(ts)[i]);
  }

  lemma GoodItems(f: Field)
    ensures ItemsPart(f).Some? ==> Good(ItemsPart(f).value)
  {
    if f.kind == ImageKind || f.kind == ArrayKind {
      KeywordsDiffer();
      GoodObject(ItemsPart(f).value.members);
    }
  }

  /** No cap is infinite. */
  ghost predicate FiniteCaps(fs: seq<Field>) {
    forall f :: f in fs ==> !f.maxImages.Infinite?
  }

  lemma GoodParts(f: Field)
    requires !f.maxImages.Infinite?
    ensures EnumPart(f).Some? ==> Good(EnumPart(f).value)
    ensures MaxPart(f).Some? ==> Good(MaxPart(f).value)
    ensures DescriptionPart(f).Some? ==> Good(DescriptionPart(f).value)
  {
    GoodStrs(f.enumValues);
  }

  lemma PartsAreApart()
    ensures ENUM != TYPE && ITEMS !in [TYPE, ENUM] && MAX_ITEMS !in [TYPE, ENUM, ITEMS]
    ensures DESCRIPTION !in [TYPE, ENUM, ITEMS, MAX_ITEMS]
  {
    KeywordsDiffer();
  }

  lemma GoodProperty(f: Field)
    requires !f.maxImages.Infinite?
    ensures Good(Obj(PropertyOf(f)))
  {
    PartsAreApart();
    GoodItems(f);
    GoodParts(f);
    var word := if f.kind == ImageKind then ARRAY else Word(f.kind);
    var s0: Members := [Member(TYPE, Str(word))];
    assert GoodMembers(s0) && KeysOf(s0) == [TYPE];
    assert PropertyOf(f) == Shape(word, EnumPart(f), ItemsPart(f), MaxPart(f), DescriptionPart(f));
    hide Good, GoodMembers, ItemsPart, EnumPart, MaxPart, DescriptionPart, Maybe, Word, PropertyOf, KeysOf, Tag;
    OneMoreMember(s0, ENUM, EnumPart(f));
    var s1 := s0 + Maybe(ENUM, EnumPart(f));
    OneMoreMember(s1, ITEMS, ItemsPart(f));
    var s2 := s1 + Maybe(ITEMS, ItemsPart(f));
    OneMoreMember(s2, MAX_ITEMS, MaxPart(f));
    var s3 := s2 + Maybe(MAX_ITEMS, MaxPart(f));
    OneMoreMember(s3, DESCRIPTION, DescriptionPart(f));
    assert PropertyOf(f) == s3 + Maybe(DESCRIPTION, DescriptionPart(f));
    GoodObject(PropertyOf(f));
  }

  lemma {:induction false} PutIsGood(ms: Members, k: Text, v: Value)
    requires (forall i :: 0 <= i < |ms| ==> Good(ms[i].value)) && Good(v)
    ensures forall i :: 0 <= i < |Put(ms, k, v)| ==> Good(Put(ms, k, v)[i].value)
  {
    if k in KeysOf(ms) { ReplaceIsGood(ms, k, v); } else { PlaceIsGood(ms, Member(k, v)); }
    hide Good;
  }

  lemma {:induction false} ReplaceIsGood(ms: Members, k: Text, v: Value)
    requires (forall i :: 0 <= i < |ms| ==> Good(ms[i].value)) && Good(v)
    ensures forall i :: 0 <= i < |Replace(ms, k, v)| ==> Good(Replace(ms, k, v)[i].value)
  {
    hide Good;
    if ms != [] && ms[0].key != k { ReplaceIsGood(ms[1..], k, v); }
  }

  lemma {:induction false} PlaceIsGood(ms: Members, m: Member<Number>)
    requires (forall i :: 0 <= i < |ms| ==> Good(ms[i].value)) && Good(m.value)
    ensures forall i :: 0 <= i < |Place(MemberKey(), ms, m)| ==> Good(Place(MemberKey(), ms, m)[i].value)
  {
    hide Good, Earlier;
    if ms != [] && !Earlier(m.key, ms[0].key) { PlaceIsGood(ms[1..], m); }
  }

  lemma {:induction false} GoodProperties(fs: seq<Field>)
    requires FiniteCaps(fs)
    ensures GoodMembers(Properties(fs))
  {
    KeysWritten(fs);
    if fs != [] {
      var rest, f := Front(fs), Last(fs);
      assert f in fs && forall g :: g in rest ==> g in fs;
      GoodProperties(rest);
      GoodProperty(f);
      PutIsGood(Properties(rest), Trim(f.name), Obj(PropertyOf(f)));
      hide Good, Put, PropertyOf, Trim;
    }
  }

  lemma GoodSchema(fs: seq<Field>)
    requires FiniteCaps(fs)
    ensures Good(SchemaOf(fs))
  {
    KeywordsDiffer();
    GoodProperties(fs);
    GoodObject(Properties(fs));
    GoodStrs(RequiredNames(fs));
    var head: Members := [Member(TYPE, Str(OBJECT)), Member(PROPERTIES, Obj(Properties(fs)))];
    assert RequiredPart(fs).Some? ==> Good(RequiredPart(fs).value);
    assert KeysOf(head) == [TYPE, PROPERTIES] && Good(head[0].value);
    hide Good, Properties, RequiredPart, RequiredNames;
    OneMoreMember(head, REQUIRED, RequiredPart(fs));
    GoodObject(head + Maybe(REQUIRED, RequiredPart(fs)));
  }

  /** Caps read from finite numbers are finite. */
  lemma FiniteSchemaHasFiniteCaps(schema: Value, allowImages: bool)
    requires AllFinite(schema) && Parse(schema, allowImages).Some?
    ensures FiniteCaps(Parse(schema, allowImages).value)
  {
    var fs := Parse(schema, allowImages).value;
    if fs != [] {
      var props, required := Get(schema.members, PROPERTIES).value, RequiredOf(Get(schema.members, REQUIRED));
      FiniteMember(schema.members, PROPERTIES);
      var entries := Entries(props);
      assert forall i :: 0 <= i < |entries| ==> AllFinite(entries[i].value);
      FieldsAre(entries, required, allowImages);
      forall f | f in fs ensures !f.maxImages.Infinite? {
        var i :| 0 <= i < |fs| && fs[i] == f;
        FiniteCap(entries[i], required, allowImages);
      }
    }
  }

  lemma FiniteMember(ms: Members, k: Text)
    requires AllFinite(Obj(ms)) && Get(ms, k).Some?
    ensures AllFinite(Get(ms, k).value)
  {
    GetIsLookup(ms, k);
    var v := Lookup(ms, k);
    var i :| 0 <= i < |ms| && ms[i] == Member(k, v);
  }

  lemma FiniteCap(p: Member<Number>, required: seq<Text>, allowImages: bool)
    requires AllFinite(p.value) && FieldOf(p.key, p.value, p.key in required, allowImages).Some?
    ensures !FieldOf(p.key, p.value, p.key in required, allowImages).value.maxImages.Infinite?
  {
    var ms := p.value.members;
    if Get(ms, MAX_ITEMS).Some? { FiniteMember(ms, MAX_ITEMS); }
    hide Get, KindOf, OnlyKeys, EnumOf, ItemsOf;
  }

  /** The page compares schemas by their stable text: showing a schema as fields
      and back leaves that text alone exactly when the schema is plain. */
  lemma SwitchingViewsIsNoticed(fmt: Number -> Text, schema: Value, allowImages: bool)
    requires Canonical.GoodFormat(fmt) && WellFormed(schema) && AllFinite(schema) && Parse(schema, allowImages).Some?
    ensures Print(fmt, SchemaOf(Parse(schema, allowImages).value)) == Print(fmt, schema)
            <==> schema.Obj? && PlainSchema(schema.members)
  {
    var saved := SchemaOf(Parse(schema, allowImages).value);
    FiniteSchemaHasFiniteCaps(schema, allowImages);
    GoodSchema(Parse(schema, allowImages).value);
    OpenedAndSaved(schema, allowImages);
    assert WellFormed(saved) && AllFinite(saved);
    hide WellFormed, AllFinite, Parse, SchemaOf, PlainSchema, Print, Alike;
    Canonical.FiniteValuesAreToldApart(fmt, saved, schema);
  }
}
