/**
 The visual schema editor: fields to JSON Schema and back.

 Properties are enumerated as module PropertyOrder says: names that are array
 indices come first.  A finite JavaScript number is a fraction in lowest terms.
 */
module SchemaEditor {
  import opened Prelude
  import opened Json
  import opened PropertyOrder

  datatype Number = Number(numerator: int, denominator: nat)

  /** Any JavaScript number, as an image cap. */
  datatype Amount = Finite(n: Number) | Infinite(positive: bool) | NotANumber

  const ZERO := Finite(Number(0, 1))
  const ONE := Finite(Number(1, 1))

  predicate Positive(a: Amount) {
    match a
    case Finite(n) => n.numerator > 0
    case Infinite(positive) => positive
    case NotANumber => false
  }

  type Value = Json<Number>
  type Members = seq<Member<Number>>

  /** A cap as a JSON value, and back; NaN is never written. */
  function AmountValue(a: Amount): Value
    requires !a.NotANumber?
  {
    if a.Finite? then Num(a.n) else NonFinite(a.positive)
  }

  function AmountOf(v: Value): (a: Option<Amount>)
    ensures a.Some? ==> !a.value.NotANumber? && AmountValue(a.value) == v
  {
    match v
    case Num(n) => Some(Finite(n))
    case NonFinite(positive) => Some(Infinite(positive))
    case _ => None
  }

  /** FieldType: the six real schema types, and the editor's own "image". */
  datatype Kind = StringKind | NumberKind | IntegerKind | BooleanKind | ArrayKind | ObjectKind | ImageKind

  datatype Field = Field(name: Text, kind: Kind, required: bool, description: Text,
                         enumValues: seq<Text>, itemKind: Kind, maxImages: Amount)

  // ---- words -----------------------------------------------------------------------

  const STRING: Text := [0x73, 0x74, 0x72, 0x69, 0x6E, 0x67]
  const NUMBER: Text := [0x6E, 0x75, 0x6D, 0x62, 0x65, 0x72]
  const INTEGER: Text := [0x69, 0x6E, 0x74, 0x65, 0x67, 0x65, 0x72]
  const BOOLEAN: Text := [0x62, 0x6F, 0x6F, 0x6C, 0x65, 0x61, 0x6E]
  const ARRAY: Text := [0x61, 0x72, 0x72, 0x61, 0x79]
  const OBJECT: Text := [0x6F, 0x62, 0x6A, 0x65, 0x63, 0x74]
  const IMAGE: Text := [0x69, 0x6D, 0x61, 0x67, 0x65]

  function Word(k: Kind): Text {
    match k
    case StringKind => STRING
    case NumberKind => NUMBER
    case IntegerKind => INTEGER
    case BooleanKind => BOOLEAN
    case ArrayKind => ARRAY
    case ObjectKind => OBJECT
    case ImageKind => IMAGE
  }

  /** isFieldType: "image" is not one of the types a schema may name. */
  function KindOf(v: Option<Value>): Option<Kind> {
    if v.None? || !v.value.Str? then None
    else if v.value.s == STRING then Some(StringKind)
    else if v.value.s == NUMBER then Some(NumberKind)
    else if v.value.s == INTEGER then Some(IntegerKind)
    else if v.value.s == BOOLEAN then Some(BooleanKind)
    else if v.value.s == ARRAY then Some(ArrayKind)
    else if v.value.s == OBJECT then Some(ObjectKind)
    else None
  }

  lemma KindOfWord(k: Kind)
    ensures KindOf(Some(Str(Word(k)))) == if k == ImageKind then None else Some(k)
  {
    assert STRING[0] != NUMBER[0] && STRING[0] != OBJECT[0] && NUMBER[0] != OBJECT[0];
    assert INTEGER[0] != BOOLEAN[0];
    assert ARRAY[0] != IMAGE[0];
    assert |STRING| == |NUMBER| == |OBJECT| == 6 && |INTEGER| == |BOOLEAN| == 7 && |ARRAY| == |IMAGE| == 5;
  }

  lemma WordOfKind(v: Option<Value>)
    ensures KindOf(v).Some? ==> v == Some(Str(Word(KindOf(v).value))) && KindOf(v).value != ImageKind
  {
  }

  /** Keywords, as keys of an object.  Only their being different matters. */
  const TYPE: Text := [0x74, 0x79, 0x70, 0x65]
  const ITEMS: Text := [0x69, 0x74, 0x65, 0x6D, 0x73]
  const ENUM: Text := [0x65, 0x6E, 0x75, 0x6D]
  const TITLE: Text := [0x74, 0x69, 0x74, 0x6C, 0x65]
  const FORMAT: Text := [0x66, 0x6F, 0x72, 0x6D, 0x61, 0x74]
  const MAX_ITEMS: Text := [0x6D, 0x61, 0x78, 0x49, 0x74, 0x65, 0x6D, 0x73]
  const DESCRIPTION: Text := [0x64, 0x65, 0x73, 0x63, 0x72, 0x69, 0x70, 0x74, 0x69, 0x6F, 0x6E]
  const REQUIRED: Text := [0x72, 0x65, 0x71, 0x75, 0x69, 0x72, 0x65, 0x64]
  const PROPERTIES: Text := [0x70, 0x72, 0x6F, 0x70, 0x65, 0x72, 0x74, 0x69, 0x65, 0x73]
  const ADDITIONAL: Text := [0x61, 0x64, 0x64, 0x69, 0x74, 0x69, 0x6F, 0x6E, 0x61, 0x6C,
                             0x50, 0x72, 0x6F, 0x70, 0x65, 0x72, 0x74, 0x69, 0x65, 0x73]

  /** "__proto__": assigning to this key of an object sets its prototype. */
  const PROTO: Text := [0x5F, 0x5F, 0x70, 0x72, 0x6F, 0x74, 0x6F, 0x5F, 0x5F]

  /** A number per keyword, to tell them apart by. */
  function Tag(k: Text): int {
    if k == TYPE then 1 else if k == ITEMS then 2 else if k == ENUM then 3 else if k == TITLE then 4
    else if k == FORMAT then 5 else if k == MAX_ITEMS then 6 else if k == DESCRIPTION then 7
    else if k == REQUIRED then 8 else if k == PROPERTIES then 9 else if k == ADDITIONAL then 10 else 0
  }

  lemma KeywordsDiffer()
    ensures Tag(TYPE) == 1 && Tag(ITEMS) == 2 && Tag(ENUM) == 3 && Tag(TITLE) == 4 && Tag(FORMAT) == 5
    ensures Tag(MAX_ITEMS) == 6 && Tag(DESCRIPTION) == 7 && Tag(REQUIRED) == 8 && Tag(PROPERTIES) == 9
            && Tag(ADDITIONAL) == 10
  {
    assert |TYPE| == |ENUM| == 4 && TYPE[0] != ENUM[0];
    assert |ITEMS| == |TITLE| == 5 && ITEMS[0] != TITLE[0];
    assert |MAX_ITEMS| == |REQUIRED| == 8 && MAX_ITEMS[0] != REQUIRED[0];
    assert |FORMAT| == 6 && |DESCRIPTION| == 11 && |PROPERTIES| == 10 && |ADDITIONAL| == 20;
  }

  // ---- trimming --------------------------------------------------------------------

  /** WhiteSpace and LineTerminator of ECMAScript. */
  predicate Blank(u: Unit)
    ensures Blank(u) <==>
              || u in {0x09, 0x0A, 0x0B, 0x0C, 0x0D, 0x20, 0xA0, 0x1680, 0x2028, 0x2029, 0x202F, 0x205F, 0x3000, 0xFEFF}
              || u - 0x2000 in {0, 1, 2, 3, 4, 5, 6, 7, 8, 9, 10}
  {
    0x09 <= u <= 0x0D || u == 0x20 || u == 0xA0 || u == 0x1680 || 0x2000 <= u <= 0x200A
    || u == 0x2028 || u == 0x2029 || u == 0x202F || u == 0x205F || u == 0x3000 || u == 0xFEFF
  }

  function TrimStart(s: Text): Text {
    if s != [] && Blank(s[0]) then TrimStart(s[1..]) else s
  }

  function TrimEnd(s: Text): Text {
    if s != [] && Blank(Last(s)) then TrimEnd(Front(s)) else s
  }

  /** String.prototype.trim. */
  function Trim(s: Text): Text {
    TrimEnd(TrimStart(s))
  }

  lemma {:induction false} EndKeepsTheStart(s: Text)
    requires s != [] ==> !Blank(s[0])
    ensures var t := TrimEnd(s); (t != [] ==> !Blank(t[0]) && !Blank(Last(t)))
  {
    if s != [] && Blank(Last(s)) {
      EndKeepsTheStart(Front(s));
    }
  }

  lemma {:induction false} StartIsTrimmed(s: Text)
    ensures var t := TrimStart(s); t != [] ==> !Blank(t[0])
  {
    if s != [] && Blank(s[0]) { StartIsTrimmed(s[1..]); }
  }

  lemma TrimTwice(s: Text)
    ensures Trim(Trim(s)) == Trim(s)
  {
    StartIsTrimmed(s);
    EndKeepsTheStart(TrimStart(s));
  }

  // ---- objects ---------------------------------------------------------------------

  function Get(ms: Members, k: Text): Option<Value> {
    if ms == [] then None else if ms[0].key == k then Some(ms[0].value) else Get(ms[1..], k)
  }

  lemma {:induction false} GetIsLookup(ms: Members, k: Text)
    ensures Get(ms, k).Some? <==> k in KeysOf(ms)
    ensures k in KeysOf(ms) ==> Get(ms, k) == Some(Lookup(ms, k))
  {
    if ms != [] {
      GetIsLookup(ms[1..], k);
      assert KeysOf(ms) == [ms[0].key] + KeysOf(ms[1..]);
    }
  }

  lemma {:induction false} GetAppend(xs: Members, ys: Members, k: Text)
    ensures Get(xs + ys, k) == if Get(xs, k).Some? then Get(xs, k) else Get(ys, k)
  {
    if xs == [] {
      assert xs + ys == ys;
    } else {
      assert (xs + ys)[1..] == xs[1..] + ys;
      GetAppend(xs[1..], ys, k);
    }
  }

  /** One member, or none. */
  function Maybe(k: Text, v: Option<Value>): Members {
    if v.Some? then [Member(k, v.value)] else []
  }

  function MemberKey(): Member<Number> -> Text {
    (m: Member<Number>) => m.key
  }

  function Replace(ms: Members, k: Text, v: Value): Members {
    if ms == [] then []
    else if ms[0].key == k then [Member(k, v)] + ms[1..]
    else [ms[0]] + Replace(ms[1..], k, v)
  }

  /** `object[k] = v` on an object made by a literal. */
  function Put(ms: Members, k: Text, v: Value): Members {
    if k == PROTO then ms
    else if k in KeysOf(ms) then Replace(ms, k, v)
    else Place(MemberKey(), ms, Member(k, v))
  }

  lemma {:induction false} ReplaceGets(ms: Members, k: Text, v: Value, q: Text)
    requires k in KeysOf(ms)
    ensures Get(Replace(ms, k, v), q) == if q == k then Some(v) else Get(ms, q)
    ensures KeysOf(Replace(ms, k, v)) == KeysOf(ms)
  {
    assert KeysOf(ms) == [ms[0].key] + KeysOf(ms[1..]);
    if ms[0].key != k { ReplaceGets(ms[1..], k, v, q); }
  }

  lemma {:induction false} PlaceGets(ms: Members, m: Member<Number>, q: Text)
    requires m.key !in KeysOf(ms)
    ensures Get(Place(MemberKey(), ms, m), q) == if q == m.key then Some(m.value) else Get(ms, q)
    ensures q in KeysOf(Place(MemberKey(), ms, m)) <==> q in KeysOf(ms) || q == m.key
  {
    hide Earlier;
    if ms != [] {
      assert KeysOf(ms) == [ms[0].key] + KeysOf(ms[1..]);
      PlaceGets(ms[1..], m, q);
    }
    GetIsLookup(ms, q);
    GetIsLookup(Place(MemberKey(), ms, m), q);
  }

  lemma {:induction false} PlaceStaysDistinct(ms: Members, m: Member<Number>)
    requires Distinct(KeysOf(ms)) && m.key !in KeysOf(ms)
    ensures Distinct(KeysOf(Place(MemberKey(), ms, m)))
  {
    hide Earlier;
    if ms != [] {
      var rest := ms[1..];
      assert KeysOf(ms) == [ms[0].key] + KeysOf(rest);
      if Earlier(m.key, ms[0].key) {
        assert KeysOf([m] + ms) == [m.key] + KeysOf(ms);
      } else {
        assert forall i :: 0 <= i < |rest| ==> KeysOf(ms)[i + 1] == KeysOf(rest)[i];
        PlaceStaysDistinct(rest, m);
        PlaceGets(rest, m, ms[0].key);
        assert KeysOf([ms[0]] + Place(MemberKey(), rest, m)) == [ms[0].key] + KeysOf(Place(MemberKey(), rest, m));
        assert ms[0].key !in KeysOf(rest);
      }
    }
  }

  /** What an assignment does to an object, key by key. */
  lemma PutGets(ms: Members, k: Text, v: Value, q: Text)
    ensures Get(Put(ms, k, v), q) == if q == k && k != PROTO then Some(v) else Get(ms, q)
    ensures q in KeysOf(Put(ms, k, v)) <==> q in KeysOf(ms) || (q == k && k != PROTO)
  {
    if k != PROTO {
      if k in KeysOf(ms) { ReplaceGets(ms, k, v, q); } else { PlaceGets(ms, Member(k, v), q); }
    }
  }

  lemma PutStaysDistinct(ms: Members, k: Text, v: Value)
    requires Distinct(KeysOf(ms))
    ensures Distinct(KeysOf(Put(ms, k, v)))
  {
    if k != PROTO {
      if k in KeysOf(ms) { ReplaceGets(ms, k, v, k); } else { PlaceStaysDistinct(ms, Member(k, v)); }
    }
  }

  function Strs(ts: seq<Text>): seq<Value> {
    seq(|ts|, i requires 0 <= i < |ts| => Str(ts[i]))
  }

  // ---- fields to schema --------------------------------------------------------------

  function EnumPart(f: Field): Option<Value> {
    if f.kind == StringKind && f.enumValues != [] then Some(Arr(Strs(f.enumValues))) else None
  }

  function MaxPart(f: Field): Option<Value> {
    if f.kind == ImageKind && Positive(f.maxImages) then Some(AmountValue(f.maxImages)) else None
  }

  function ItemsPart(f: Field): Option<Value> {
    if f.kind == ImageKind then Some(Obj([Member(TYPE, Str(STRING)), Member(FORMAT, Str(IMAGE))]))
    else if f.kind == ArrayKind then Some(Obj([Member(TYPE, Str(Word(f.itemKind)))]))
    else None
  }

  function DescriptionPart(f: Field): Option<Value> {
    if Trim(f.description) != [] then Some(Str(Trim(f.description))) else None
  }

  /** A property with these parts; every property the editor writes has this shape. */
  function Shape(kind: Text, enumValues: Option<Value>, items: Option<Value>, maxItems: Option<Value>,
                 description: Option<Value>): Members {
    [Member(TYPE, Str(kind))] + Maybe(ENUM, enumValues) + Maybe(ITEMS, items) + Maybe(MAX_ITEMS, maxItems)
    + Maybe(DESCRIPTION, description)
  }

  function PropertyOf(f: Field): Members {
    Shape(if f.kind == ImageKind then ARRAY else Word(f.kind),
          EnumPart(f), ItemsPart(f), MaxPart(f), DescriptionPart(f))
  }

  predicate Named(f: Field) {
    Trim(f.name) != []
  }

  /** The `properties` object and the `required` list the loop builds. */
  function Properties(fs: seq<Field>): Members {
    if fs == [] then []
    else if !Named(Last(fs)) then Properties(Front(fs))
    else Put(Properties(Front(fs)), Trim(Last(fs).name), Obj(PropertyOf(Last(fs))))
  }

  function RequiredNames(fs: seq<Field>): seq<Text> {
    if fs == [] then []
    else RequiredNames(Front(fs)) + (if Named(Last(fs)) && Last(fs).required then [Trim(Last(fs).name)] else [])
  }

  function SchemaOf(fs: seq<Field>): Value {
    Obj([Member(TYPE, Str(OBJECT)), Member(PROPERTIES, Obj(Properties(fs)))]
        + Maybe(REQUIRED, RequiredPart(fs)))
  }

  function RequiredPart(fs: seq<Field>): Option<Value> {
    if RequiredNames(fs) != [] then Some(Arr(Strs(RequiredNames(fs)))) else None
  }

  // ---- schema to fields --------------------------------------------------------------

  predicate OnlyKeys(ms: Members, allowed: seq<Text>) {
    forall i :: 0 <= i < |ms| ==> ms[i].key in allowed
  }

  /** The elements of an array, when every one is a string. */
  predicate AllStrs(vs: seq<Value>) {
    forall i :: 0 <= i < |vs| ==> vs[i].Str?
  }

  function Texts(vs: seq<Value>): seq<Text>
    requires AllStrs(vs)
  {
    seq(|vs|, i requires 0 <= i < |vs| => vs[i].s)
  }

  /** What `items` says: the element type, and whether it is the image marker. */
  datatype Items = Items(kind: Kind, image: bool)

  function ItemsOf(v: Option<Value>, allowImages: bool): Option<Items> {
    if v.None? then Some(Items(StringKind, false))
    else if !v.value.Obj? then None
    else
      var ms := v.value.members;
      var kind, format := KindOf(Get(ms, TYPE)), Get(ms, FORMAT);
      var image := allowImages && kind == Some(StringKind) && format == Some(Str(IMAGE));
      if !OnlyKeys(ms, [TYPE, FORMAT]) || kind.None? || (format.Some? && !image) then None
      else Some(Items(kind.value, image))
  }

  function EnumOf(v: Option<Value>, kind: Kind): Option<seq<Text>> {
    if v.None? then Some([])
    else if kind == StringKind && v.value.Arr? && AllStrs(v.value.items) then Some(Texts(v.value.items))
    else None
  }

  /** One property as a field, or no value when it is not representable. */
  function FieldOf(name: Text, v: Value, required: bool, allowImages: bool): Option<Field> {
    if !v.Obj? then None
    else
      var ms := v.members;
      var kind, format := KindOf(Get(ms, TYPE)), Get(ms, FORMAT);
      if kind.None? then None
      else if format.Some? && !(allowImages && kind == Some(StringKind) && format == Some(Str(IMAGE))) then None
      else if !OnlyKeys(ms, [FORMAT, TYPE, DESCRIPTION, ENUM, ITEMS, TITLE, MAX_ITEMS]) then None
      else
        var description := Get(ms, DESCRIPTION);
        var enumValues := EnumOf(Get(ms, ENUM), kind.value);
        if enumValues.None? then None
        else
          WithItems(Field(name, kind.value, required,
                          if description.Some? && description.value.Str? then description.value.s else [],
                          enumValues.value, StringKind, ONE),
                    Get(ms, ITEMS), Get(ms, MAX_ITEMS), allowImages)
  }

  function WithItems(base: Field, items: Option<Value>, maxItems: Option<Value>, allowImages: bool): Option<Field> {
    if base.kind != ArrayKind then
      if items.Some? || maxItems.Some? then None else Some(base)
    else
      var read := ItemsOf(items, allowImages);
      if read.None? then None
      else if maxItems.Some? && !(read.value.image && AmountOf(maxItems.value).Some?) then None
      else if read.value.image then
        Some(base.(kind := ImageKind, itemKind := read.value.kind,
                   maxImages := if maxItems.Some? then AmountOf(maxItems.value).value else ZERO))
      else Some(base.(itemKind := read.value.kind))
  }

  /** Every property as a field, or no value when one is not representable. */
  function FieldsOf(props: Members, required: seq<Text>, allowImages: bool): Option<seq<Field>> {
    if props == [] then Some([])
    else
      var before := FieldsOf(Front(props), required, allowImages);
      var last := FieldOf(Last(props).key, Last(props).value, Last(props).key in required, allowImages);
      if before.None? || last.None? then None else Some(before.value + [last.value])
  }

  /** The strings among the elements of an array. */
  function OnlyStrs(vs: seq<Value>): seq<Text> {
    if vs == [] then [] else OnlyStrs(Front(vs)) + (if Last(vs).Str? then [Last(vs).s] else [])
  }

  function RequiredOf(v: Option<Value>): seq<Text> {
    if v.Some? && v.value.Arr? then OnlyStrs(v.value.items) else []
  }

  /** Object.entries of an object or an array. */
  function Entries(v: Value): Members
    requires v.Obj? || v.Arr?
  {
    if v.Obj? then v.members else seq(|v.items|, i requires 0 <= i < |v.items| => Member(Decimal(i), v.items[i]))
  }

  /** Whether a value is absent or has no own keys. */
  predicate IsEmpty(v: Value) {
    match v
    case Obj(ms) => ms == []
    case Arr(vs) => vs == []
    case Str(s) => s == []
    case _ => true
  }

  function Parse(schema: Value, allowImages: bool): Option<seq<Field>> {
    if IsEmpty(schema) then Some([])
    else if !schema.Obj? || Get(schema.members, TYPE) != Some(Str(OBJECT)) then None
    else if !OnlyKeys(schema.members, [TYPE, PROPERTIES, REQUIRED, TITLE, DESCRIPTION, ADDITIONAL]) then None
    else
      var props := Get(schema.members, PROPERTIES);
      if props.None? then Some([])
      else if !props.value.Obj? && !props.value.Arr? then None
      else FieldsOf(Entries(props.value), RequiredOf(Get(schema.members, REQUIRED)), allowImages)
  }

  // ---- the two conversions as the editor runs them ---------------------------------------

  /** The property written for one field. */
  method WriteProperty(f: Field) returns (prop: Members)
    ensures prop == PropertyOf(f)
  {
    hide Trim, Word, Strs;
    if f.kind == ImageKind {
      prop := [Member(TYPE, Str(ARRAY)), Member(ITEMS, Obj([Member(TYPE, Str(STRING)), Member(FORMAT, Str(IMAGE))]))];
      if Positive(f.maxImages) {
        prop := prop + [Member(MAX_ITEMS, AmountValue(f.maxImages))];
      }
    } else {
      prop := [Member(TYPE, Str(Word(f.kind)))];
      if f.kind == StringKind && |f.enumValues| > 0 {
        prop := prop + [Member(ENUM, Arr(Strs(f.enumValues)))];
      }
      if f.kind == ArrayKind {
        prop := prop + [Member(ITEMS, Obj([Member(TYPE, Str(Word(f.itemKind)))]))];
      }
    }
    if Trim(f.description) != [] {
      prop := prop + [Member(DESCRIPTION, Str(Trim(f.description)))];
    }
  }

  method FieldsToSchema(fields: seq<Field>) returns (schema: Value)
    ensures schema == SchemaOf(fields)
  {
    hide Trim, Put, Strs, PropertyOf;
    var properties: Members, required: seq<Text> := [], [];
    for i := 0 to |fields|
      invariant properties == Properties(fields[..i]) && required == RequiredNames(fields[..i])
    {
      assert Front(fields[..i + 1]) == fields[..i];
      var name := Trim(fields[i].name);
      if name == [] {
        continue;
      }
      var prop := WriteProperty(fields[i]);
      properties := Put(properties, name, Obj(prop));
      if fields[i].required {
        required := required + [name];
      }
    }
    assert fields[..|fields|] == fields;
    var members := [Member(TYPE, Str(OBJECT)), Member(PROPERTIES, Obj(properties))];
    if |required| > 0 {
      members := members + [Member(REQUIRED, Arr(Strs(required)))];
    }
    schema := Obj(members);
  }

  method SchemaToFields(schema: Value, allowImages: bool) returns (fields: Option<seq<Field>>)
    ensures fields == Parse(schema, allowImages)
  {
    if IsEmpty(schema) {
      return Some([]);
    }
    if !schema.Obj? || Get(schema.members, TYPE) != Some(Str(OBJECT)) {
      return None;
    }
    if !OnlyKeys(schema.members, [TYPE, PROPERTIES, REQUIRED, TITLE, DESCRIPTION, ADDITIONAL]) {
      return None;
    }
    var props := Get(schema.members, PROPERTIES);
    if props.Some? && !props.value.Obj? && !props.value.Arr? {
      return None;
    }
    var required := RequiredOf(Get(schema.members, REQUIRED));
    var entries := if props.Some? then Entries(props.value) else [];
    var read: seq<Field> := [];
    for i := 0 to |entries|
      invariant FieldsOf(entries[..i], required, allowImages) == Some(read)
    {
      assert Front(entries[..i + 1]) == entries[..i];
      var f := FieldOf(entries[i].key, entries[i].value, entries[i].key in required, allowImages);
      if f.None? {
        UnreadableStays(entries, i + 1, required, allowImages);
        return None;
      }
      read := read + [f.value];
    }
    assert entries[..|entries|] == entries;
    fields := Some(read);
  }

  lemma {:induction false} UnreadableStays(props: Members, i: nat, required: seq<Text>, allowImages: bool)
    requires i <= |props| && FieldsOf(props[..i], required, allowImages).None?
    ensures FieldsOf(props, required, allowImages).None?
    decreases |props| - i
  {
    if i == |props| {
      assert props[..i] == props;
    } else {
      assert Front(props[..i + 1]) == props[..i];
      UnreadableStays(props, i + 1, required, allowImages);
    }
  }

  // ---- fields first: what comes back --------------------------------------------------

  lemma ShapeGets(kind: Text, e: Option<Value>, i: Option<Value>, m: Option<Value>, d: Option<Value>, k: Text)
    ensures Get(Shape(kind, e, i, m, d), k)
            == if k == TYPE then Some(Str(kind)) else if k == ENUM && e.Some? then e
                else if k == ITEMS && i.Some? then i
               else if k == MAX_ITEMS && m.Some? then m else if k == DESCRIPTION then d else None
  {
    var s1 := [Member(TYPE, Str(kind))] + Maybe(ENUM, e);
    var s2 := s1 + Maybe(ITEMS, i);
    var s3 := s2 + Maybe(MAX_ITEMS, m);
    GetAppend([Member(TYPE, Str(kind))], Maybe(ENUM, e), k);
    GetAppend(s1, Maybe(ITEMS, i), k);
    GetAppend(s2, Maybe(MAX_ITEMS, m), k);
    GetAppend(s3, Maybe(DESCRIPTION, d), k);
    assert Shape(kind, e, i, m, d) == s3 + Maybe(DESCRIPTION, d);
    GetMaybe(ENUM, e, k);
    GetMaybe(ITEMS, i, k);
    GetMaybe(MAX_ITEMS, m, k);
    GetMaybe(DESCRIPTION, d, k);
    GetMaybe(TYPE, Some(Str(kind)), k);
  }

  lemma GetMaybe(k: Text, v: Option<Value>, q: Text)
    ensures Get(Maybe(k, v), q) == if q == k then v else None
  {
  }

  /** What the editor can draw again: images where they are allowed, and arrays
      of a real schema type. */
  predicate Drawable(f: Field, allowImages: bool) {
    (f.kind == ImageKind ==> allowImages) && (f.kind == ArrayKind ==> f.itemKind != ImageKind)
  }

  /** A field as the editor shows it after a round trip. */
  function Normal(f: Field): Field {
    Field(Trim(f.name), f.kind, f.required, Trim(f.description),
          if f.kind == StringKind then f.enumValues else [],
          if f.kind == ArrayKind then f.itemKind else StringKind,
          if f.kind != ImageKind then ONE else if Positive(f.maxImages) then f.maxImages else ZERO)
  }

  lemma ItemsReadBack(f: Field, allowImages: bool)
    ensures ItemsOf(ItemsPart(f), allowImages)
            == if f.kind == ImageKind then (if allowImages then Some(Items(StringKind, true)) else None)
               else if f.kind != ArrayKind then Some(Items(StringKind, false))
               else if f.itemKind == ImageKind then None
               else Some(Items(f.itemKind, false))
  {
    KeywordsDiffer();
    KindOfWord(f.itemKind);
    KindOfWord(StringKind);
    if f.kind == ImageKind {
      var ms := [Member(TYPE, Str(STRING)), Member(FORMAT, Str(IMAGE))];
      assert ms[1..] == [Member(FORMAT, Str(IMAGE))];
      assert Get(ms, TYPE) == Some(Str(STRING)) && Get(ms[1..], FORMAT) == Some(Str(IMAGE)) == Get(ms, FORMAT);
      assert OnlyKeys(ms, [TYPE, FORMAT]);
    } else if f.kind == ArrayKind {
      var ms := [Member(TYPE, Str(Word(f.itemKind)))];
      assert ms[1..] == [];
      assert Get(ms, TYPE) == Some(Str(Word(f.itemKind))) && Get(ms, FORMAT) == None;
      assert OnlyKeys(ms, [TYPE, FORMAT]);
    }
  }

  lemma EnumReadsBack(ts: seq<Text>)
    ensures EnumOf(Some(Arr(Strs(ts))), StringKind) == Some(ts)
  {
    assert Texts(Strs(ts)) == ts;
  }

  lemma PropertyGets(f: Field)
    ensures var ms := PropertyOf(f);
            && Get(ms, TYPE) == Some(Str(if f.kind == ImageKind then ARRAY else Word(f.kind)))
            && Get(ms, ENUM) == EnumPart(f) && Get(ms, ITEMS) == ItemsPart(f) && Get(ms, MAX_ITEMS) == MaxPart(f)
            && Get(ms, DESCRIPTION) == DescriptionPart(f) && Get(ms, FORMAT) == None && Get(ms, TITLE) == None
  {
    KeywordsDiffer();
    hide Get, ItemsPart, DescriptionPart, EnumPart, MaxPart;
    var word := if f.kind == ImageKind then ARRAY else Word(f.kind);
    assert PropertyOf(f) == Shape(word, EnumPart(f), ItemsPart(f), MaxPart(f), DescriptionPart(f));
    hide Shape, PropertyOf, Word;
    forall k { ShapeGets(word, EnumPart(f), ItemsPart(f), MaxPart(f), DescriptionPart(f), k); }
  }

  lemma ShapeKeys(kind: Text, e: Option<Value>, i: Option<Value>, m: Option<Value>, d: Option<Value>)
    ensures OnlyKeys(Shape(kind, e, i, m, d), [FORMAT, TYPE, DESCRIPTION, ENUM, ITEMS, TITLE, MAX_ITEMS])
  {
  }

  /** A written property as read before its items are looked at. */
  function BaseOf(f: Field, name: Text, required: bool): Field {
    Field(name, if f.kind == ImageKind then ArrayKind else f.kind, required, Trim(f.description),
          Normal(f).enumValues, StringKind, ONE)
  }

  lemma ItemsReadOn(f: Field, name: Text, required: bool, allowImages: bool)
    ensures WithItems(BaseOf(f, name, required), ItemsPart(f), MaxPart(f), allowImages)
            == if Drawable(f, allowImages) then Some(Normal(f).(name := name, required := required)) else None
  {
    ItemsReadBack(f, allowImages);
    assert ItemsPart(f).Some? <==> f.kind == ImageKind || f.kind == ArrayKind;
    hide ItemsOf, ItemsPart, Trim;
  }

  lemma PropertyReadsBack(f: Field, name: Text, required: bool, allowImages: bool)
    ensures FieldOf(name, Obj(PropertyOf(f)), required, allowImages)
            == if Drawable(f, allowImages) then Some(Normal(f).(name := name, required := required)) else None
  {
    PropertyGets(f);
    ShapeKeys(if f.kind == ImageKind then ARRAY else Word(f.kind),
              EnumPart(f), ItemsPart(f), MaxPart(f), DescriptionPart(f));
    assert OnlyKeys(PropertyOf(f), [FORMAT, TYPE, DESCRIPTION, ENUM, ITEMS, TITLE, MAX_ITEMS]);
    KindOfWord(f.kind);
    KindOfWord(ArrayKind);
    EnumReadsBack(f.enumValues);
    assert Word(ArrayKind) == ARRAY;
    ItemsReadOn(f, name, required, allowImages);
    hide Get, OnlyKeys, Shape, PropertyOf, ItemsOf, ItemsPart, Trim, KindOf, Strs, Word, WithItems, MaxPart;
    var ms := PropertyOf(f);
    assert KindOf(Get(ms, TYPE)) == Some(if f.kind == ImageKind then ArrayKind else f.kind);
    assert EnumOf(Get(ms, ENUM), KindOf(Get(ms, TYPE)).value) == Some(Normal(f).enumValues);
    var d := Get(ms, DESCRIPTION);
    assert (if d.Some? && d.value.Str? then d.value.s else []) == Trim(f.description);
    var base := BaseOf(f, name, required);
    assert FieldOf(name, Obj(ms), required, allowImages) == WithItems(base, ItemsPart(f), MaxPart(f), allowImages);
  }

  /** The trimmed names of the named fields. */
  function NamesOf(fs: seq<Field>): seq<Text> {
    if fs == [] then [] else NamesOf(Front(fs)) + (if Named(Last(fs)) then [Trim(Last(fs).name)] else [])
  }

  function NamedOnly(fs: seq<Field>): seq<Field> {
    if fs == [] then [] else NamedOnly(Front(fs)) + (if Named(Last(fs)) then [Last(fs)] else [])
  }

  /** The fields that become properties. */
  function Survivors(fs: seq<Field>): seq<Field> {
    if fs == [] then []
    else Survivors(Front(fs)) + (if Named(Last(fs)) && Trim(Last(fs).name) != PROTO then [Last(fs)] else [])
  }

  function Normals(fs: seq<Field>): seq<Field> {
    seq(|fs|, i requires 0 <= i < |fs| => Normal(fs[i]))
  }

  predicate AllDrawable(fs: seq<Field>, allowImages: bool) {
    forall f :: f in fs ==> Drawable(f, allowImages)
  }

  /** The list of required names is right about every field read back. */
  ghost predicate Agree(fs: seq<Field>, required: seq<Text>) {
    forall f :: f in fs ==> (f.required <==> Trim(f.name) in required)
  }

  function ByName(): Field -> Text {
    (f: Field) => f.name
  }

  function FieldNames(fs: seq<Field>): (ks: seq<Text>)
    ensures |ks| == |fs| && forall i :: 0 <= i < |fs| ==> ks[i] == fs[i].name
  {
    if fs == [] then [] else FieldNames(Front(fs)) + [Last(fs).name]
  }

  lemma DistinctFront(ks: seq<Text>, k: Text)
    requires Distinct(ks + [k])
    ensures Distinct(ks) && k !in ks
  {
    forall i, j | 0 <= i < j < |ks| ensures ks[i] != ks[j] {
      assert (ks + [k])[i] == ks[i] && (ks + [k])[j] == ks[j];
    }
    forall i | 0 <= i < |ks| ensures ks[i] != k {
      assert (ks + [k])[i] == ks[i] && (ks + [k])[|ks|] == k;
    }
  }

  /** One member per field, in the fields' order. */
  function Written(gs: seq<Field>): (ms: Members)
    ensures |ms| == |gs| && forall i :: 0 <= i < |gs| ==> ms[i] == Member(gs[i].name, Obj(PropertyOf(gs[i])))
  {
    seq(|gs|, i requires 0 <= i < |gs| => Member(gs[i].name, Obj(PropertyOf(gs[i]))))
  }

  lemma WrittenKeys(gs: seq<Field>)
    ensures KeysOf(Written(gs)) == FieldNames(gs)
  {
    hide PropertyOf;
  }

  lemma WrittenOne(f: Field)
    ensures Written([f]) == [Member(f.name, Obj(PropertyOf(f)))]
  {
    hide PropertyOf;
  }

  /** `f` joins the properties where it joins the fields. */
  predicate JoinsAlike(gs: seq<Field>, f: Field) {
    Place(MemberKey(), Written(gs), Member(f.name, Obj(PropertyOf(f)))) == Written(Place(ByName(), gs, f))
  }

  lemma JoinsAlikeFurther(g: Field, gs: seq<Field>, f: Field)
    requires JoinsAlike(gs, f)
    ensures JoinsAlike([g] + gs, f)
  {
    hide Place, Written, PropertyOf, Earlier;
    WrittenOne(g);
    WrittenOne(f);
    WrittenParts([g], gs);
    WrittenParts([f], [g] + gs);
    WrittenParts([g], Place(ByName(), gs, f));
    PlaceUnfolds(MemberKey(), Written([g])[0], Written(gs), Written([f])[0]);
    PlaceUnfolds(ByName(), g, gs, f);
  }

  lemma {:induction false} PlaceIsWritten(gs: seq<Field>, f: Field)
    ensures JoinsAlike(gs, f)
  {
    if gs == [] {
      WrittenOne(f);
      assert Written([]) == [];
    } else {
      hide JoinsAlike;
      PlaceIsWritten(gs[1..], f);
      JoinsAlikeFurther(gs[0], gs[1..], f);
      assert gs == [gs[0]] + gs[1..];
    }
  }

  lemma WrittenParts(xs: seq<Field>, ys: seq<Field>)
    ensures Written(xs + ys) == Written(xs) + Written(ys)
  {
    hide PropertyOf;
  }

  /** The fields as the properties object lists them. */
  function Listing(fs: seq<Field>): seq<Field> {
    Arranged(ByName(), Normals(Survivors(fs)))
  }

  lemma NormalWritesTheSame(f: Field)
    ensures PropertyOf(Normal(f)) == PropertyOf(f) && Trim(Normal(f).name) == Normal(f).name == Trim(f.name)
  {
    TrimTwice(f.name);
    TrimTwice(f.description);
  }

  /** The properties object has one member per survivor, in JavaScript's order. */
  lemma {:induction false} PropertiesAre(fs: seq<Field>)
    requires Distinct(NamesOf(fs))
    ensures forall k :: k in KeysOf(Properties(fs)) ==> k in NamesOf(fs)
    ensures Properties(fs) == Written(Listing(fs))
  {
    hide Trim, PropertyOf, Place, Normal, Put;
    if fs == [] {
      assert Normals([]) == [] && Written([]) == [];
    } else {
      var rest, f := Front(fs), Last(fs);
      AllDistinctBefore(fs);
      PropertiesAre(rest);
      NormalWritesTheSame(f);
      var name, value := Trim(f.name), Obj(PropertyOf(f));
      if Named(f) && name != PROTO {
        var before := Normals(Survivors(rest));
        assert Normals(Survivors(rest) + [f]) == before + [Normal(f)];
        FrontOfAppend(before, Normal(f));
        PlaceIsWritten(Arranged(ByName(), before), Normal(f));
        PutNew(Properties(rest), name, value);
        forall k | k in KeysOf(Properties(fs)) ensures k in NamesOf(fs) { PutGets(Properties(rest), name, value, k); }
      } else {
        assert Survivors(fs) == Survivors(rest);
        PutUnnamed(rest, f);
      }
    }
  }

  lemma PutNew(ms: Members, k: Text, v: Value)
    requires k !in KeysOf(ms) && k != PROTO
    ensures Put(ms, k, v) == Place(MemberKey(), ms, Member(k, v))
  {
  }

  lemma PutUnnamed(rest: seq<Field>, f: Field)
    requires !Named(f) || Trim(f.name) == PROTO
    ensures Properties(rest + [f]) == Properties(rest)
  {
    FrontOfAppend(rest, f);
  }

  lemma FieldReadsBack(f: Field, required: seq<Text>, allowImages: bool)
    requires f == Normal(f) && (f.required <==> f.name in required)
    ensures FieldOf(f.name, Obj(PropertyOf(f)), f.name in required, allowImages)
            == if Drawable(f, allowImages) then Some(f) else None
  {
    PropertyReadsBack(f, f.name, f.required, allowImages);
    hide FieldOf, PropertyOf, Trim;
  }

  /** Fields in normal form, written in any order, are read back in that order. */
  lemma {:induction false} WrittenReadsBack(gs: seq<Field>, required: seq<Text>, allowImages: bool)
    requires forall f :: f in gs ==> f == Normal(f) && (f.required <==> f.name in required)
    ensures FieldsOf(Written(gs), required, allowImages) == if AllDrawable(gs, allowImages) then Some(gs) else None
  {
    hide PropertyOf, FieldOf, Normal, Drawable;
    if gs == [] {
      assert Written([]) == [];
    } else {
      var rest, f := Front(gs), Last(gs);
      assert gs == rest + [f];
      assert f in gs && forall g :: g in rest ==> g in gs;
      WrittenReadsBack(rest, required, allowImages);
      FieldReadsBack(f, required, allowImages);
      assert Front(Written(gs)) == Written(rest) && Last(Written(gs)) == Member(f.name, Obj(PropertyOf(f)));
      assert AllDrawable(gs, allowImages) <==> AllDrawable(rest, allowImages) && Drawable(f, allowImages);
    }
  }

  lemma AllDistinctBefore(fs: seq<Field>)
    requires fs != [] && Distinct(NamesOf(fs))
    ensures Distinct(NamesOf(Front(fs))) && (Named(Last(fs)) ==> Trim(Last(fs).name) !in NamesOf(Front(fs)))
  {
    var before := NamesOf(Front(fs));
    if Named(Last(fs)) {
      DistinctFront(before, Trim(Last(fs).name));
    } else {
      assert NamesOf(fs) == before;
    }
  }

  lemma {:induction false} RequiredAgrees(fs: seq<Field>)
    requires Distinct(NamesOf(fs))
    ensures forall k :: k in RequiredNames(fs) ==> k in NamesOf(fs)
    ensures forall f :: f in Survivors(fs) ==> Trim(f.name) in NamesOf(fs)
    ensures Agree(Survivors(fs), RequiredNames(fs))
  {
    if fs != [] {
      var rest, f := Front(fs), Last(fs);
      AllDistinctBefore(fs);
      RequiredAgrees(rest);
    }
  }

  lemma {:induction false} OnlyStrsOfStrs(ts: seq<Text>)
    ensures OnlyStrs(Strs(ts)) == ts
  {
    if ts != [] {
      OnlyStrsOfStrs(Front(ts));
      assert Front(Strs(ts)) == Strs(Front(ts)) && Last(Strs(ts)) == Str(Last(ts));
    }
  }

  lemma SchemaGets(fs: seq<Field>, k: Text)
    ensures Get(SchemaOf(fs).members, k)
            == if k == TYPE then Some(Str(OBJECT)) else if k == PROPERTIES then Some(Obj(Properties(fs)))
               else if k == REQUIRED then RequiredPart(fs) else None
  {
    var head: Members := [Member(TYPE, Str(OBJECT)), Member(PROPERTIES, Obj(Properties(fs)))];
    GetAppend(head, Maybe(REQUIRED, RequiredPart(fs)), k);
    GetMaybe(REQUIRED, RequiredPart(fs), k);
    KeywordsDiffer();
    assert head[1..] == [Member(PROPERTIES, Obj(Properties(fs)))] && head[1..][1..] == [];
    assert Get(head, k) == if k == TYPE then Some(Str(OBJECT)) else Get(head[1..], k);
    assert Get(head[1..], k) == if k == PROPERTIES then Some(Obj(Properties(fs))) else Get(head[1..][1..], k);
  }

  lemma SchemaReadsBack(fs: seq<Field>)
    ensures var ms := SchemaOf(fs).members;
            && Get(ms, TYPE) == Some(Str(OBJECT)) && Get(ms, PROPERTIES) == Some(Obj(Properties(fs)))
            && RequiredOf(Get(ms, REQUIRED)) == RequiredNames(fs)
            && OnlyKeys(ms, [TYPE, PROPERTIES, REQUIRED, TITLE, DESCRIPTION, ADDITIONAL])
  {
    KeywordsDiffer();
    SchemaGets(fs, TYPE);
    SchemaGets(fs, PROPERTIES);
    SchemaGets(fs, REQUIRED);
    OnlyStrsOfStrs(RequiredNames(fs));
  }

  /** What the listing of some fields' normal forms keeps. */
  lemma ListingFacts(fs: seq<Field>, required: seq<Text>, allowImages: bool)
    requires Agree(Survivors(fs), required)
    ensures forall g :: g in Listing(fs) ==> g == Normal(g) && (g.required <==> g.name in required)
    ensures AllDrawable(Listing(fs), allowImages) <==> AllDrawable(Survivors(fs), allowImages)
    ensures |Listing(fs)| == |Survivors(fs)|
  {
    var gs := Normals(Survivors(fs));
    ArrangedMembers(ByName(), gs);
    forall f
      ensures Normal(Normal(f)) == Normal(f) && (Drawable(Normal(f), allowImages) <==> Drawable(f, allowImages))
    {
      NormalWritesTheSame(f);
      TrimTwice(f.description);
    }
    hide Trim, Drawable;
    forall g | g in Listing(fs) ensures exists f :: f in Survivors(fs) && g == Normal(f) {
      assert g in gs;
      var i :| 0 <= i < |gs| && gs[i] == g;
      assert Survivors(fs)[i] in Survivors(fs);
    }
    forall f | f in Survivors(fs) ensures Normal(f) in Listing(fs) {
      var i :| 0 <= i < |gs| && Survivors(fs)[i] == f;
      assert gs[i] in gs;
    }
  }

  /** Fields with distinct names, written as a schema and read again: nothing is
      readable as soon as one property cannot be drawn; otherwise every property
      comes back as the normal form of its field, in JavaScript's order. */
  lemma FieldsComeBack(fs: seq<Field>, allowImages: bool)
    requires Distinct(NamesOf(fs))
    ensures Parse(SchemaOf(fs), allowImages)
            == if AllDrawable(Survivors(fs), allowImages) then Some(Listing(fs)) else None
  {
    SchemaReadsBack(fs);
    assert SchemaOf(fs).Obj? && !IsEmpty(SchemaOf(fs));
    hide Get, OnlyKeys, SchemaOf, Properties, RequiredOf, FieldsOf, Survivors, NamesOf, Listing;
    RequiredAgrees(fs);
    PropertiesAre(fs);
    ListingFacts(fs, RequiredNames(fs), allowImages);
    WrittenReadsBack(Listing(fs), RequiredNames(fs), allowImages);
  }

  lemma {:induction false} WhoSurvives(fs: seq<Field>)
    ensures |Survivors(fs)| <= |NamedOnly(fs)|
    ensures |Survivors(fs)| == |NamedOnly(fs)| <==> PROTO !in NamesOf(fs)
    ensures PROTO !in NamesOf(fs) ==> Survivors(fs) == NamedOnly(fs)
  {
    if fs != [] { WhoSurvives(Front(fs)); }
  }

  /** The round trip: every named field comes back, in its normal form, exactly
      when each can be drawn and none is called "__proto__"; and they come back in
      their own order exactly when that is the order JavaScript gives their names. */
  lemma RoundTrip(fs: seq<Field>, allowImages: bool)
    requires Distinct(NamesOf(fs))
    ensures var gs := Normals(NamedOnly(fs));
            && (Parse(SchemaOf(fs), allowImages) == Some(Arranged(ByName(), gs))
                <==> AllDrawable(NamedOnly(fs), allowImages) && PROTO !in NamesOf(fs))
            && (Arranged(ByName(), gs) == gs <==> InOrder(ByName(), gs))
            && |Arranged(ByName(), gs)| == |gs| && forall g :: g in Arranged(ByName(), gs) <==> g in gs
  {
    var gs := Normals(NamedOnly(fs));
    FieldsComeBack(fs, allowImages);
    WhoSurvives(fs);
    ArrangedExactly(ByName(), gs);
    ArrangedMembers(ByName(), gs);
    ArrangedMembers(ByName(), Normals(Survivors(fs)));
    hide Parse, SchemaOf, Drawable, Normal, InOrder, Arranged;
  }

  /** A field called "__proto__" is gone after the round trip. */
  lemma ProtoDisappears(f: Field, allowImages: bool)
    requires Trim(f.name) == PROTO
    ensures Parse(SchemaOf([f]), allowImages) == Some([])
  {
    assert Front([f]) == [] && NamesOf([f]) == [PROTO] && Survivors([f]) == [];
    FieldsComeBack([f], allowImages);
    assert Normals([]) == [];
  }

  /** Two lists of fields write the same, the first of them in normal form. */
  predicate WriteAlike(gs: seq<Field>, fs: seq<Field>) {
    && Properties(gs) == Properties(fs) && RequiredNames(gs) == RequiredNames(fs)
    && FieldNames(gs) == NamesOf(fs) == NamesOf(gs)
  }

  lemma WriteAlikeFurther(gs: seq<Field>, fs: seq<Field>, f: Field)
    requires WriteAlike(gs, fs)
    ensures Named(f) ==> WriteAlike(gs + [Normal(f)], fs + [f])
    ensures !Named(f) ==> WriteAlike(gs, fs + [f])
  {
    NormalWritesTheSame(f);
    assert Normal(f).required == f.required;
    FrontOfAppend(gs, Normal(f));
    FrontOfAppend(fs, f);
    hide Trim, PropertyOf, Put, Normal;
  }

  lemma NormalsAppend(fs: seq<Field>, f: Field)
    ensures Normals(NamedOnly(fs + [f]))
            == if Named(f) then Normals(NamedOnly(fs)) + [Normal(f)] else Normals(NamedOnly(fs))
  {
    FrontOfAppend(fs, f);
    hide Trim, Normal;
  }

  lemma NothingWritten()
    ensures WriteAlike(Normals(NamedOnly([])), [])
  {
    assert Normals([]) == [];
  }

  lemma {:induction false} NormalFormsWriteTheParts(fs: seq<Field>)
    ensures WriteAlike(Normals(NamedOnly(fs)), fs)
  {
    NothingWritten();
    hide WriteAlike, Normals, NamedOnly, Normal, Named;
    if fs != [] {
      var rest, f := Front(fs), Last(fs);
      NormalFormsWriteTheParts(rest);
      WriteAlikeFurther(Normals(NamedOnly(rest)), rest, f);
      NormalsAppend(rest, f);
      assert fs == rest + [f];
    }
  }

  /** Writing the normal forms gives the same schema again. */
  lemma NormalFormsWriteTheSame(fs: seq<Field>)
    ensures SchemaOf(Normals(NamedOnly(fs))) == SchemaOf(fs)
  {
    NormalFormsWriteTheParts(fs);
  }

  // ---- saving what came back ------------------------------------------------------------

  function ByItself(): Text -> Text {
    (k: Text) => k
  }

  /** Fields as the editor shows them: named, and in normal form. */
  ghost predicate AllNormal(gs: seq<Field>) {
    forall g :: g in gs ==> Named(g) && Trim(g.name) == g.name != PROTO && g == Normal(g)
  }

  lemma {:induction false} RequiredFromTheFront(g: Field, gs: seq<Field>)
    requires Named(g) && Trim(g.name) == g.name
    ensures RequiredNames([g] + gs) == if g.required then [g.name] + RequiredNames(gs) else RequiredNames(gs)
  {
    hide Trim, Named;
    if gs == [] {
      assert [g] + gs == [g] && Front([g]) == [];
    } else {
      assert Front([g] + gs) == [g] + Front(gs) && Last([g] + gs) == Last(gs);
      RequiredFromTheFront(g, Front(gs));
    }
  }

  lemma NormalHead(gs: seq<Field>)
    requires AllNormal(gs) && gs != [] && InOrder(ByName(), gs)
    ensures Named(gs[0]) && Trim(gs[0].name) == gs[0].name && gs == [gs[0]] + gs[1..]
    ensures AllNormal(gs[1..]) && InOrder(ByName(), gs[1..])
  {
    hide Trim, Named, Earlier, Normal;
    assert gs[0] in gs && forall x :: x in gs[1..] ==> x in gs;
  }

  lemma {:induction false} PlacedRequired(gs: seq<Field>, f: Field)
    requires AllNormal(gs) && AllNormal([f]) && InOrder(ByName(), gs)
    ensures RequiredNames(Place(ByName(), gs, f))
            == if f.required then Place(ByItself(), RequiredNames(gs), f.name) else RequiredNames(gs)
  {
    NormalHead([f]);
    if gs == [] {
      RequiredFromTheFront(f, []);
      assert [f] + [] == [f];
    } else {
      NormalHead(gs);
      RequiredAreLaterAll(gs, f.name);
      var g, rest := gs[0], gs[1..];
      PlaceUnfolds(ByName(), g, rest, f);
      hide Trim, Named, Earlier, Normal, AllNormal, InOrder;
      RequiredFromTheFront(g, rest);
      if Earlier(f.name, g.name) {
        RequiredFromTheFront(f, gs);
        PlaceFirst(RequiredNames(gs), f.name);
      } else {
        PlacedRequired(rest, f);
        RequiredFromTheFront(g, Place(ByName(), rest, f));
        PlaceSecond(g.name, RequiredNames(rest), f.name);
      }
    }
  }

  lemma PlaceFirst(ks: seq<Text>, k: Text)
    requires ks != [] ==> Earlier(k, ks[0])
    ensures Place(ByItself(), ks, k) == [k] + ks
  {
    hide Earlier;
  }

  lemma PlaceSecond(g: Text, ks: seq<Text>, k: Text)
    requires !Earlier(k, g)
    ensures Place(ByItself(), [g] + ks, k) == [g] + Place(ByItself(), ks, k)
  {
    hide Earlier;
    assert ([g] + ks)[1..] == ks;
  }

  lemma RequiredAreLaterAll(gs: seq<Field>, k: Text)
    requires AllNormal(gs) && gs != [] && InOrder(ByName(), gs)
    ensures Earlier(k, gs[0].name) && RequiredNames(gs) != [] ==> Earlier(k, RequiredNames(gs)[0])
  {
    if Earlier(k, gs[0].name) { RequiredAreLater(gs, k); }
  }

  lemma RequiredAreLater(gs: seq<Field>, k: Text)
    requires AllNormal(gs) && gs != [] && InOrder(ByName(), gs) && Earlier(k, gs[0].name)
    ensures RequiredNames(gs) != [] ==> Earlier(k, RequiredNames(gs)[0])
  {
    if RequiredNames(gs) != [] {
      var r := RequiredNames(gs)[0];
      RequiredIsAName(gs, r);
      var i :| 0 <= i < |gs| && gs[i].name == r;
      if i > 0 { EarlierThrough(k, gs[0].name, r); }
    }
  }

  lemma {:induction false} RequiredIsAName(gs: seq<Field>, k: Text)
    requires AllNormal(gs) && k in RequiredNames(gs)
    ensures exists i :: 0 <= i < |gs| && gs[i].name == k
  {
    hide Trim, Named, Normal;
    assert gs == Front(gs) + [Last(gs)];
    assert Last(gs) in gs && forall g :: g in Front(gs) ==> g in gs;
    if k in RequiredNames(Front(gs)) {
      RequiredIsAName(Front(gs), k);
      var i :| 0 <= i < |Front(gs)| && Front(gs)[i].name == k;
      assert gs[i].name == k;
    } else {
      assert gs[|gs| - 1].name == k;
    }
  }

  lemma NormalLast(gs: seq<Field>)
    requires AllNormal(gs) && gs != []
    ensures AllNormal(Front(gs)) && AllNormal([Last(gs)])
    ensures Named(Last(gs)) && Trim(Last(gs).name) == Last(gs).name != PROTO
  {
    hide Trim, Named, Normal;
    assert Last(gs) in gs && forall g :: g in Front(gs) ==> g in gs;
  }

  lemma ArrangedStaysNormal(gs: seq<Field>)
    requires AllNormal(gs)
    ensures AllNormal(Arranged(ByName(), gs)) && InOrder(ByName(), Arranged(ByName(), gs))
  {
    ArrangedMembers(ByName(), gs);
    ArrangedIsInOrder(ByName(), gs);
    hide Named, Trim, Normal, Earlier;
  }

  lemma RequiredAppend(gs: seq<Field>, f: Field)
    requires Named(f) && Trim(f.name) == f.name
    ensures RequiredNames(gs + [f]) == if f.required then RequiredNames(gs) + [f.name] else RequiredNames(gs)
  {
    FrontOfAppend(gs, f);
  }

  /** One more field: its name joins the required names where it joins the fields. */
  lemma ArrangedRequiredAppend(gs: seq<Field>, f: Field)
    requires AllNormal(gs) && AllNormal([f]) && Named(f) && Trim(f.name) == f.name
    requires RequiredNames(Arranged(ByName(), gs)) == Arranged(ByItself(), RequiredNames(gs))
    ensures RequiredNames(Arranged(ByName(), gs + [f])) == Arranged(ByItself(), RequiredNames(gs + [f]))
  {
    ArrangedStaysNormal(gs);
    PlacedRequired(Arranged(ByName(), gs), f);
    ArrangedAppend(ByName(), gs, f);
    RequiredAppend(gs, f);
    ArrangedAppend(ByItself(), RequiredNames(gs), f.name);
    hide AllNormal, InOrder, Named, Trim;
  }

  lemma {:induction false} ArrangedRequired(gs: seq<Field>)
    requires AllNormal(gs)
    ensures RequiredNames(Arranged(ByName(), gs)) == Arranged(ByItself(), RequiredNames(gs))
  {
    NothingArranged();
    hide AllNormal, Named, Trim, Place, Arranged, RequiredNames;
    if gs != [] {
      NormalLast(gs);
      ArrangedRequired(Front(gs));
      ArrangedRequiredAppend(Front(gs), Last(gs));
      assert gs == Front(gs) + [Last(gs)];
    }
  }

  lemma NothingArranged()
    ensures RequiredNames(Arranged(ByName(), [])) == Arranged(ByItself(), RequiredNames([]))
  {
  }

  lemma SurvivorsAppend(gs: seq<Field>, f: Field)
    requires Named(f) && Trim(f.name) == f.name != PROTO
    ensures Survivors(gs + [f]) == Survivors(gs) + [f] && NamesOf(gs + [f]) == NamesOf(gs) + [f.name]
    ensures FieldNames(gs + [f]) == FieldNames(gs) + [f.name]
  {
    FrontOfAppend(gs, f);
  }

  lemma {:induction false} NormalFieldsSurvive(gs: seq<Field>)
    requires AllNormal(gs)
    ensures Survivors(gs) == gs && NamesOf(gs) == FieldNames(gs)
  {
    NobodySurvives();
    hide Trim, Named, Normal, AllNormal, Survivors, NamesOf, FieldNames;
    if gs != [] {
      NormalLast(gs);
      NormalFieldsSurvive(Front(gs));
      SurvivorsAppend(Front(gs), Last(gs));
      assert gs == Front(gs) + [Last(gs)];
    }
  }

  lemma NobodySurvives()
    ensures Survivors([]) == [] && NamesOf([]) == FieldNames([])
  {
  }

  lemma NormalFieldsAreNormals(gs: seq<Field>)
    requires AllNormal(gs)
    ensures Normals(gs) == gs
  {
    hide Trim, Named, Normal;
    assert forall i :: 0 <= i < |gs| ==> gs[i] in gs;
  }

  lemma {:induction false} KeysStayDistinct(fs: seq<Field>)
    ensures Distinct(KeysOf(Properties(fs)))
  {
    if fs != [] {
      KeysStayDistinct(Front(fs));
      PutStaysDistinct(Properties(Front(fs)), Trim(Last(fs).name), Obj(PropertyOf(Last(fs))));
    }
  }

  lemma NamedFieldsAreNormal(fs: seq<Field>)
    requires PROTO !in NamesOf(fs)
    ensures AllNormal(Normals(NamedOnly(fs)))
  {
    var gs := Normals(NamedOnly(fs));
    NormalFormsWriteTheParts(fs);
    forall g | g in gs ensures Named(g) && Trim(g.name) == g.name != PROTO && g == Normal(g) {
      var i :| 0 <= i < |gs| && gs[i] == g;
      var f := NamedOnly(fs)[i];
      NamedOnlyAreNamed(fs, i);
      NormalWritesTheSame(f);
      TrimTwice(f.description);
      assert FieldNames(gs)[i] == g.name;
    }
  }

  lemma {:induction false} NamedOnlyAreNamed(fs: seq<Field>, i: nat)
    requires i < |NamedOnly(fs)|
    ensures Named(NamedOnly(fs)[i])
  {
    hide Trim;
    if i < |NamedOnly(Front(fs))| { NamedOnlyAreNamed(Front(fs), i); }
  }

  /** Saving the fields that came back: the properties are the same again, and so
      is the whole schema exactly when the required names are listed in the order
      JavaScript gives them. */
  lemma SecondSave(fs: seq<Field>)
    requires Distinct(NamesOf(fs)) && PROTO !in NamesOf(fs)
    ensures var shown := Arranged(ByName(), Normals(NamedOnly(fs)));
            && Properties(shown) == Properties(fs)
            && (SchemaOf(shown) == SchemaOf(fs) <==> InOrder(ByItself(), RequiredNames(fs)))
  {
    var gs := Normals(NamedOnly(fs));
    var shown := Arranged(ByName(), gs);
    WhoSurvives(fs);
    PropertiesAre(fs);
    KeysStayDistinct(fs);
    WrittenKeys(shown);
    NamedFieldsAreNormal(fs);
    ArrangedMembers(ByName(), gs);
    assert AllNormal(shown);
    NormalFieldsSurvive(shown);
    NormalFieldsAreNormals(shown);
    PropertiesAre(shown);
    ArrangedIsInOrder(ByName(), gs);
    ArrangedExactly(ByName(), shown);
    ArrangedRequired(gs);
    NormalFormsWriteTheParts(fs);
    ArrangedExactly(ByItself(), RequiredNames(fs));
    SameRequired(shown, fs);
  }

  lemma SameRequired(a: seq<Field>, b: seq<Field>)
    requires Properties(a) == Properties(b)
    ensures SchemaOf(a) == SchemaOf(b) <==> RequiredNames(a) == RequiredNames(b)
  {
    SchemaGets(a, REQUIRED);
    SchemaGets(b, REQUIRED);
    KeywordsDiffer();
    OnlyStrsOfStrs(RequiredNames(a));
    OnlyStrsOfStrs(RequiredNames(b));
    hide Get, Properties;
  }

  // ---- field names -------------------------------------------------------------------

  function FirstSeen(ks: seq<Text>): seq<Text> {
    if ks == [] then [] else FirstSeen(Front(ks)) + (if Last(ks) in Front(ks) then [] else [Last(ks)])
  }

  function Occurrences(ks: seq<Text>, k: Text): nat {
    if ks == [] then 0 else Occurrences(Front(ks), k) + (if Last(ks) == k then 1 else 0)
  }

  /** Those of `order` that occur more than once in `ks`. */
  function Repeated(order: seq<Text>, ks: seq<Text>): seq<Text> {
    if order == [] then []
    else Repeated(Front(order), ks) + (if Occurrences(ks, Last(order)) > 1 then [Last(order)] else [])
  }

  lemma {:induction false} OccursSomewhere(ks: seq<Text>, k: Text)
    ensures k in ks <==> Occurrences(ks, k) > 0
  {
    if ks != [] {
      OccursSomewhere(Front(ks), k);
      assert ks == Front(ks) + [Last(ks)];
    }
  }

  lemma {:induction false} SeenAreAll(ks: seq<Text>)
    ensures forall k :: k in FirstSeen(ks) <==> k in ks
  {
    if ks != [] {
      SeenAreAll(Front(ks));
      assert ks == Front(ks) + [Last(ks)];
    }
  }

  lemma {:induction false} RepeatedAre(order: seq<Text>, ks: seq<Text>)
    ensures forall k :: k in Repeated(order, ks) <==> k in order && Occurrences(ks, k) > 1
  {
    if order != [] {
      RepeatedAre(Front(order), ks);
      assert order == Front(order) + [Last(order)];
    }
  }

  lemma {:induction false} DistinctMeansOnce(ks: seq<Text>)
    ensures Distinct(ks) <==> forall k :: k in ks ==> Occurrences(ks, k) <= 1
  {
    if ks != [] {
      var rest, last := Front(ks), Last(ks);
      assert ks == rest + [last];
      DistinctMeansOnce(rest);
      OccursSomewhere(rest, last);
      if Distinct(ks) { DistinctFront(rest, last); }
      if forall k :: k in ks ==> Occurrences(ks, k) <= 1 {
        assert last in ks && Occurrences(ks, last) <= 1;
        assert forall k :: k in rest ==> k in ks && Occurrences(rest, k) <= Occurrences(ks, k);
      }
    }
  }

  /** The inline validation: what it lists are the repeated names, and it lists
      none exactly when the names are distinct, which is what the round trip
      asks for. */
  method FieldNameIssues(fields: seq<Field>) returns (duplicates: seq<Text>, hasEmpty: bool)
    ensures hasEmpty <==> exists i :: 0 <= i < |fields| && !Named(fields[i])
    ensures forall k :: k in duplicates <==> Occurrences(NamesOf(fields), k) > 1
    ensures duplicates == Repeated(FirstSeen(NamesOf(fields)), NamesOf(fields))
    ensures duplicates == [] <==> Distinct(NamesOf(fields))
  {
    hide Trim, FirstSeen, Occurrences, Counts, Repeats, Repeated;
    var order: seq<Text>, seen: map<Text, nat> := [], map[];
    NothingSeen();
    hasEmpty := false;
    ghost var names: seq<Text> := [];
    for i := 0 to |fields|
      invariant names == NamesOf(fields[..i]) && order == FirstSeen(names) && Counts(seen, names)
      invariant hasEmpty <==> exists j :: 0 <= j < i && !Named(fields[j])
    {
      assert Front(fields[..i + 1]) == fields[..i];
      var name := Trim(fields[i].name);
      if name == [] {
        hasEmpty := true;
        continue;
      }
      CountsGrow(seen, names, name);
      FrontOfAppend(names, name);
      SeenGrows(seen, names, name);
      if name in seen {
        seen := seen[name := seen[name] + 1];
      } else {
        seen := seen[name := 1];
        order := order + [name];
      }
      names := names + [name];
    }
    assert fields[..|fields|] == fields;
    OrderIsCounted(seen, names);
    duplicates := Repeats(order, seen);
    RepeatsAreRepeated(order, seen, names);
    IssuesAreRepeats(names);
  }

  /** Those counted more than once, in order. */
  function Repeats(order: seq<Text>, seen: map<Text, nat>): seq<Text>
    requires forall k :: k in order ==> k in seen
  {
    if order == [] then []
    else
      assert order == Front(order) + [Last(order)];
      Repeats(Front(order), seen) + (if seen[Last(order)] > 1 then [Last(order)] else [])
  }

  lemma {:induction false} RepeatsAreRepeated(order: seq<Text>, seen: map<Text, nat>, names: seq<Text>)
    requires Counts(seen, names) && forall k :: k in order ==> k in seen
    ensures Repeats(order, seen) == Repeated(order, names)
  {
    if order != [] {
      assert order == Front(order) + [Last(order)];
      RepeatsAreRepeated(Front(order), seen, names);
    }
  }

  /** `seen` counts the names so far. */
  ghost predicate Counts(seen: map<Text, nat>, names: seq<Text>) {
    forall k :: (k in seen <==> k in names) && (k in seen ==> seen[k] == Occurrences(names, k))
  }

  lemma NothingSeen()
    ensures FirstSeen([]) == [] && Counts(map[], [])
  {
  }

  lemma SeenGrows(seen: map<Text, nat>, names: seq<Text>, name: Text)
    requires Counts(seen, names)
    ensures FirstSeen(names + [name]) == FirstSeen(names) + (if name in seen then [] else [name])
  {
    FrontOfAppend(names, name);
  }

  lemma OrderIsCounted(seen: map<Text, nat>, names: seq<Text>)
    requires Counts(seen, names)
    ensures forall k :: k in FirstSeen(names) ==> k in seen
  {
    SeenAreAll(names);
  }

  lemma CountsGrow(seen: map<Text, nat>, names: seq<Text>, name: Text)
    requires Counts(seen, names)
    ensures Counts(seen[name := if name in seen then seen[name] + 1 else 1], names + [name])
  {
    OccursSomewhere(names, name);
    FrontOfAppend(names, name);
  }

  lemma IssuesAreRepeats(names: seq<Text>)
    ensures forall k :: k in Repeated(FirstSeen(names), names) <==> Occurrences(names, k) > 1
    ensures Repeated(FirstSeen(names), names) == [] <==> Distinct(names)
  {
    var duplicates := Repeated(FirstSeen(names), names);
    SeenAreAll(names);
    RepeatedAre(FirstSeen(names), names);
    DistinctMeansOnce(names);
    forall k ensures k in duplicates <==> Occurrences(names, k) > 1 {
      OccursSomewhere(names, k);
    }
    assert duplicates != [] ==> duplicates[0] in duplicates;
  }
}
