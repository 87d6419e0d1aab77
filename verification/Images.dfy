/**
 Image inputs: what a prompt template may see of them, and what is attached to
 the model call instead.

 Two functions decide independently which inputs are images (one hides their
 values from the template, the other attaches them).  Names are byte strings,
 each byte below 256.  Iteration over a Go map is in an arbitrary order.
 */
module Images {
  import opened Prelude
  import opened Json
  import Canonical

  type Name = Text

  /** A decoded request value, as far as images are concerned. */
  datatype Value = Str(s: Text) | List(items: seq<Value>) | Other(v: int)

  type Inputs = map<Name, Value>

  /** What the code reads of one schema property. */
  datatype Property = Property(kind: Text, format: Text, itemsFormat: Text)

  /** An input schema: `typed` is the typed parse of its properties (None when the
      schema is absent, is not JSON, or has a property of another shape), and
      `declared` the property names the untyped parse finds. */
  datatype Schema = Schema(typed: Option<map<Name, Property>>, declared: set<Name>)

  const STRING: Text := [0x73, 0x74, 0x72, 0x69, 0x6E, 0x67]
  const ARRAY: Text := [0x61, 0x72, 0x72, 0x61, 0x79]
  const IMAGE: Text := [0x69, 0x6D, 0x61, 0x67, 0x65]
  const IMAGES: Text := [0x69, 0x6D, 0x61, 0x67, 0x65, 0x73]

  predicate IsImage(p: Property) {
    (p.kind == STRING && p.format == IMAGE) || (p.kind == ARRAY && p.itemsFormat == IMAGE)
  }

  /** The names the schema itself types as images. */
  function Typed(s: Schema): set<Name> {
    if s.typed.None? then {} else set k | k in s.typed.value && IsImage(s.typed.value[k])
  }

  /** The schema's image fields and the names that always count as images. */
  function ImageFields(s: Schema): set<Name> {
    Typed(s) + {IMAGE, IMAGES}
  }

  // ---- hiding: internal/tasks/render.go ------------------------------------------------

  /** imageInputFields. */
  method ImageInputFields(s: Schema) returns (out: set<Name>)
    ensures out == ImageFields(s)
  {
    out := {IMAGE, IMAGES};
    if s.typed.None? {
      return;
    }
    var properties := s.typed.value;
    var left := properties.Keys;
    while left != {}
      invariant left <= properties.Keys
      invariant out == {IMAGE, IMAGES} + set k | k in properties && k !in left && IsImage(properties[k])
      decreases |left|
    {
      var name :| name in left;
      if IsImage(properties[name]) {
        out := out + {name};
      }
      left := left - {name};
    }
  }

  predicate Attachable(v: Value) {
    v.Str? && v.s != []
  }

  /** The images in a list of values, in order. */
  function ImagesIn(items: seq<Value>): seq<Text> {
    if items == [] then []
    else ImagesIn(Front(items)) + (if Attachable(Last(items)) then [Last(items).s] else [])
  }

  /** The images an input value holds: itself, or its elements. */
  function ImagesOf(v: Value): seq<Text> {
    match v
    case Str(text) => if text != [] then [text] else []
    case List(items) => ImagesIn(items)
    case Other(_) => []
  }

  /** imageValueCount. */
  method ImageValueCount(v: Value) returns (n: nat)
    ensures n == |ImagesOf(v)|
  {
    match v {
      case Str(s) =>
        n := if s != [] then 1 else 0;
      case List(items) =>
        n := 0;
        for i := 0 to |items|
          invariant n == |ImagesIn(items[..i])|
        {
          assert Front(items[..i + 1]) == items[..i];
          if items[i].Str? && items[i].s != [] {
            n := n + 1;
          }
        }
        assert items[..|items|] == items;
      case Other(_) =>
        n := 0;
    }
  }

  /** What the template sees under one name. */
  datatype Shown = Given(v: Value) | Count(n: nat)

  const BLANK := Given(Value.Str([]))

  function ShownAs(s: Schema, inputs: Inputs, k: Name): Shown {
    if k !in inputs then BLANK
    else if k in ImageFields(s) then Count(|ImagesOf(inputs[k])|)
    else Given(inputs[k])
  }

  /** The data of a template: declared fields default to "", images are counts. */
  function DataOf(s: Schema, inputs: Inputs): map<Name, Shown> {
    map k | k in s.declared + inputs.Keys :: ShownAs(s, inputs, k)
  }

  lemma DataNameByName(s: Schema, inputs: Inputs, data: map<Name, Shown>)
    requires forall k :: k in data <==> k in s.declared || k in inputs
    requires forall k :: k in data ==> data[k] == ShownAs(s, inputs, k)
    ensures data == DataOf(s, inputs)
  {
    hide ShownAs;
  }

  /** A compiled template: the rendered text, or no value when execution fails. */
  type Template = map<Name, Shown> -> Option<Text>

  /** RenderPrompt after parsing. */
  method RenderPrompt(template: Template, s: Schema, inputs: Inputs) returns (text: Option<Text>)
    ensures text == template(DataOf(s, inputs))
  {
    hide ImageFields, ImagesOf, Typed, DataOf;
    var imageFields := ImageInputFields(s);
    var filled: map<Name, Shown> := map[];
    var left := s.declared;
    while left != {}
      invariant left <= s.declared && forall k :: k in filled <==> k in s.declared && k !in left
      invariant forall k :: k in filled ==> filled[k] == BLANK
      decreases |left|
    {
      var k :| k in left;
      filled := filled[k := BLANK];
      left := left - {k};
    }
    left := inputs.Keys;
    while left != {}
      invariant left <= inputs.Keys && forall k :: k in filled <==> k in s.declared || (k in inputs && k !in left)
      invariant forall k :: k in filled ==> filled[k] == if k in left then BLANK else ShownAs(s, inputs, k)
      decreases |left|
    {
      var k :| k in left;
      if k in imageFields {
        var n := ImageValueCount(inputs[k]);
        filled := filled[k := Count(n)];
      } else {
        filled := filled[k := Given(inputs[k])];
      }
      left := left - {k};
    }
    DataNameByName(s, inputs, filled);
    text := template(filled);
  }

  // ---- attaching: internal/api/predict_core.go -----------------------------------------

  /** `names` lists a set, each member once, in byte order. */
  ghost predicate Lists(names: seq<Name>, all: set<Name>) {
    Canonical.StrictlySorted(names) && forall k :: k in names <==> k in all
  }

  /** imageSchemaFieldNames. */
  method ImageSchemaFieldNames(s: Schema) returns (names: seq<Name>)
    ensures Lists(names, Typed(s))
  {
    if s.typed.None? {
      return [];
    }
    var properties := s.typed.value;
    names := [];
    var left := properties.Keys;
    while left != {}
      invariant left <= properties.Keys && Distinct(names)
      invariant forall k :: k in names <==> k in properties && k !in left && IsImage(properties[k])
      decreases |left|
    {
      var name :| name in left;
      if IsImage(properties[name]) {
        names := names + [name];
      }
      left := left - {name};
    }
    SortedSameKeys(names);
    Canonical.SortedSorts(names);
    names := Sorted(names);
  }

  /** The legacy names the schema does not list itself. */
  function Legacy(s: Schema): seq<Name> {
    (if IMAGE in Typed(s) then [] else [IMAGE]) + (if IMAGES in Typed(s) then [] else [IMAGES])
  }

  /** The images of these fields, field after field. */
  function Gather(names: seq<Name>, inputs: Inputs): seq<Text> {
    if names == [] then []
    else Gather(Front(names), inputs) + (if Last(names) in inputs then ImagesOf(inputs[Last(names)]) else [])
  }

  /** collectImages: the schema's fields in byte order, then the legacy names. */
  method CollectImages(inputs: Inputs, s: Schema) returns (out: seq<Text>)
    ensures exists typed :: Lists(typed, Typed(s)) && out == Gather(typed + Legacy(s), inputs)
  {
    hide Canonical.StrictlySorted;
    var order := ImageSchemaFieldNames(s);
    ghost var typed := order;
    var seen := set k | k in order;
    if IMAGE !in seen {
      order := order + [IMAGE];
      seen := seen + {IMAGE};
    }
    if IMAGES !in seen {
      order := order + [IMAGES];
      seen := seen + {IMAGES};
    }
    assert order == typed + Legacy(s) by { NamesDiffer(); }
    hide Lists, Typed, Legacy;
    out := [];
    for i := 0 to |order|
      invariant out == Gather(order[..i], inputs)
    {
      assert Front(order[..i + 1]) == order[..i];
      if order[i] in inputs {
        match inputs[order[i]] {
          case Str(v) =>
            if v != [] {
              out := out + [v];
            }
          case List(items) =>
            ghost var before := out;
            for j := 0 to |items|
              invariant out == before + ImagesIn(items[..j])
            {
              assert Front(items[..j + 1]) == items[..j];
              if items[j].Str? && items[j].s != [] {
                out := out + [items[j].s];
              }
            }
            assert items[..|items|] == items;
          case Other(_) =>
        }
      }
    }
    assert order[..|order|] == order;
  }

  lemma NamesDiffer()
    ensures IMAGE != IMAGES
  {
    assert |IMAGE| != |IMAGES|;
  }

  // ---- what is hidden and what is attached, in plain terms ----------------------------

  /** An image field: a name that always is one, or a property that is a string of
      format "image" or an array whose items have that format. */
  predicate TakesImages(s: Schema, k: Name) {
    || k == Ascii("image") || k == Ascii("images")
    || (s.typed.Some? && k in s.typed.value
        && var p := s.typed.value[k];
           || (p.kind == Ascii("string") && p.format == Ascii("image"))
           || (p.kind == Ascii("array") && p.itemsFormat == Ascii("image")))
  }

  lemma NamesAreSpelled()
    ensures STRING == Ascii("string") && ARRAY == Ascii("array") && IMAGE == Ascii("image") && IMAGES == Ascii("images")
  {
  }

  /** What the template sees under every name, and where images are looked for. */
  lemma ShownAndAttached(s: Schema, inputs: Inputs, typed: seq<Name>)
    requires Lists(typed, Typed(s))
    ensures forall k :: k in typed + Legacy(s) <==> TakesImages(s, k)
    ensures |Legacy(s)| == 2 ==> Legacy(s) == [Ascii("image"), Ascii("images")]
    ensures var data := DataOf(s, inputs);
            && (forall k :: k in data <==> k in s.declared || k in inputs)
            && forall k :: k in data ==>
                 data[k] == if k !in inputs then Given(Value.Str([]))
                            else if TakesImages(s, k) then Count(|ImagesOf(inputs[k])|)
                            else Given(inputs[k])
  {
    NamesAreSpelled();
    HiddenAreAttached(s, typed);
    hide Ascii, ImagesOf, Lists;
  }

  /** The images of a list, one value after another: the strings that are not empty. */
  lemma {:induction false} ImagesOneByOne(items: seq<Value>, v: Value)
    ensures ImagesIn([]) == []
    ensures ImagesIn(items + [v]) == ImagesIn(items) + (if v.Str? && |v.s| > 0 then [v.s] else [])
    ensures ImagesOf(v) == (match v case Str(_) => ImagesIn([v]) case List(vs) => ImagesIn(vs) case Other(_) => [])
  {
    FrontOfAppend(items, v);
    FrontOfAppend([], v);
    assert [] + [v] == [v];
  }

  /** And of the fields, one after another: nothing from a field that was not sent. */
  lemma {:induction false} GatheredOneByOne(names: seq<Name>, k: Name, inputs: Inputs)
    ensures Gather([], inputs) == []
    ensures Gather(names + [k], inputs) == Gather(names, inputs) + (if k in inputs then ImagesOf(inputs[k]) else [])
  {
    FrontOfAppend(names, k);
  }

  // ---- the two sides together ----------------------------------------------------------

  /** Exactly the fields hidden from the template are looked into for images,
      each once. */
  lemma HiddenAreAttached(s: Schema, typed: seq<Name>)
    requires Lists(typed, Typed(s))
    ensures forall k :: k in typed + Legacy(s) <==> k in ImageFields(s)
    ensures Distinct(typed + Legacy(s))
  {
    NamesDiffer();
    SortedAreDistinct(typed);
  }

  lemma SortedAreDistinct(names: seq<Name>)
    requires Canonical.StrictlySorted(names)
    ensures Distinct(names)
  {
    forall i, j | 0 <= i < j < |names| ensures names[i] != names[j] {
      Canonical.BeforeIsTotal(names[i], names[j]);
    }
  }

  /** What the template is told about the given image fields, added up. */
  function CountsShown(names: seq<Name>, data: map<Name, Shown>): nat {
    if names == [] then 0
    else
      CountsShown(Front(names), data) +
      (if Last(names) in data && data[Last(names)].Count? then data[Last(names)].n else 0)
  }

  /** The counts the template sees add up to the number of images attached. */
  lemma {:induction false} CountsAddUp(s: Schema, inputs: Inputs, names: seq<Name>)
    requires forall k :: k in names ==> k in ImageFields(s)
    ensures CountsShown(names, DataOf(s, inputs)) == |Gather(names, inputs)|
  {
    if names != [] {
      assert names == Front(names) + [Last(names)];
      CountsAddUp(s, inputs, Front(names));
    }
  }

  /** What a request says under a name that is not an image field: a declared
      name left out reads as the empty string. */
  function Effective(s: Schema, inputs: Inputs, k: Name): Option<Value> {
    if k in inputs then Some(inputs[k]) else if k in s.declared then Some(Value.Str([])) else None
  }

  /** The same text fields, and in each image field as many images. */
  ghost predicate SameButForImageBytes(s: Schema, a: Inputs, b: Inputs) {
    forall k: Name ::
      if k in ImageFields(s)
      then (k in a <==> k in b) && (k in a && k in b ==> |ImagesOf(a[k])| == |ImagesOf(b[k])|)
      else Effective(s, a, k) == Effective(s, b, k)
  }

  /** The bytes of an image never reach the prompt: two requests give the
      template the same data, and so the same prompt, exactly when they differ
      in nothing but which images they carry. */
  lemma ImagesDoNotInterfere(s: Schema, a: Inputs, b: Inputs)
    ensures DataOf(s, a) == DataOf(s, b) <==> SameButForImageBytes(s, a, b)
  {
    var dataA, dataB := DataOf(s, a), DataOf(s, b);
    forall k: Name ensures k in dataA <==> k in s.declared || k in a
                   ensures k in dataB <==> k in s.declared || k in b
    {
    }
    if dataA == dataB {
      forall k: Name
        ensures if k in ImageFields(s)
                then (k in a <==> k in b) && (k in a && k in b ==> |ImagesOf(a[k])| == |ImagesOf(b[k])|)
                else Effective(s, a, k) == Effective(s, b, k)
      {
        if k in dataA { assert dataA[k] == dataB[k]; }
      }
    }
    if SameButForImageBytes(s, a, b) {
      assert dataA == dataB by {
        assert forall k :: k in dataA ==> k in dataB && dataA[k] == dataB[k];
        assert forall k :: k in dataB ==> k in dataA;
      }
    }
  }

  /** The whole of it: the counts the template sees of the fields looked into
      add up to the images attached, and those fields are all the hidden ones. */
  lemma AttachedAsShown(s: Schema, inputs: Inputs, typed: seq<Name>)
    requires Lists(typed, Typed(s))
    ensures CountsShown(typed + Legacy(s), DataOf(s, inputs)) == |Gather(typed + Legacy(s), inputs)|
    ensures forall k :: k in DataOf(s, inputs) && DataOf(s, inputs)[k].Count? ==> k in typed + Legacy(s)
  {
    HiddenAreAttached(s, typed);
    CountsAddUp(s, inputs, typed + Legacy(s));
  }

  /** The images attached, and the order they are attached in, do not depend on
      the order the map of properties was walked in. */
  lemma AttachedInOneOrder(s: Schema, one: seq<Name>, other: seq<Name>)
    requires Lists(one, Typed(s)) && Lists(other, Typed(s))
    ensures one == other
  {
    Canonical.SortedIsUnique(one, other);
  }
}
