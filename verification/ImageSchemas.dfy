/**
 Schemas from the editor at the gateway: what the visual editor writes for a field
 decides whether the gateway takes its input for images.
 */
module ImageSchemas {
  import opened Prelude
  import opened Json
  import opened SchemaEditor
  import SchemaMeaning
  import Images

  function TextOf(v: Option<Value>): Text {
    if v.Some? && v.value.Str? then v.value.s else []
  }

  function MembersOf(v: Option<Value>): Members {
    if v.Some? && v.value.Obj? then v.value.members else []
  }

  /** What the gateway reads of one property. */
  function AsRead(ms: Members): Images.Property {
    Images.Property(TextOf(Get(ms, Ascii("type"))), TextOf(Get(ms, Ascii("format"))),
                    TextOf(Get(MembersOf(Get(ms, Ascii("items"))), Ascii("format"))))
  }

  /** What it reads of the schema the editor writes for some fields. */
  function SchemaRead(fs: seq<Field>): Images.Schema {
    var ps := Properties(fs);
    Images.Schema(Some(map k | k in KeysOf(ps) :: AsRead(MembersOf(Get(ps, k)))), set k | k in KeysOf(ps))
  }

  lemma FormatsWritten(f: Field)
    ensures var p := AsRead(PropertyOf(f));
            && p.kind == Ascii(if f.kind == ImageKind then "array" else SchemaMeaning.Spelled(f.kind))
            && p.format == [] && p.itemsFormat == (if f.kind == ImageKind then Ascii("image") else [])
  {
    SchemaMeaning.WhatIsWritten(f);
    SchemaMeaning.KeywordsAreSpelled();
    KeywordsDiffer();
    var items: Members := [Member(Ascii("type"), Str(Ascii("string"))), Member(Ascii("format"), Str(Ascii("image")))];
    assert items[1..] == [Member(Ascii("format"), Str(Ascii("image")))];
    assert Get(items[1..], Ascii("format")) == Some(Str(Ascii("image"))) == Get(items, Ascii("format"));
    var element: Members := [Member(Ascii("type"), Str(Ascii(SchemaMeaning.Spelled(f.itemKind))))];
    assert element[1..] == [] && Get(element, Ascii("format")) == None;
    hide Ascii, PropertyOf, SchemaMeaning.Spelled;
  }

  /** One property: it takes images exactly when its field is an image field. */
  lemma PropertyTakesImages(f: Field, s: Images.Schema, name: Text)
    requires s.typed.Some? && name in s.typed.value && s.typed.value[name] == AsRead(PropertyOf(f))
    ensures Images.TakesImages(s, name) <==> f.kind == ImageKind || name == Ascii("image") || name == Ascii("images")
  {
    FormatsWritten(f);
    SchemaMeaning.TypesAreSpelled();
    KindOfWord(f.kind);
    SchemaMeaning.WordsAreSpelled(f.kind);
    assert IMAGE != [];
    hide Ascii, AsRead, SchemaMeaning.Spelled;
  }

  /** A whole schema: of fields with distinct names, those that take images, that
      are hidden from the template and looked into for attachments, are the image
      fields, and the ones called "image" or "images". */
  lemma FieldTakesImages(fs: seq<Field>, f: Field, inputs: Images.Inputs, typed: seq<Text>)
    requires Distinct(NamesOf(fs)) && f in fs && Named(f) && Trim(f.name) != Ascii("__proto__")
    requires Images.Lists(typed, Images.Typed(SchemaRead(fs)))
    ensures var s, name := SchemaRead(fs), Trim(f.name);
            var image := f.kind == ImageKind || name == Ascii("image") || name == Ascii("images");
            && (name in typed + Images.Legacy(s) <==> image)
            && name in Images.DataOf(s, inputs)
            && (name in inputs ==> (Images.DataOf(s, inputs)[name].Count? <==> image))
  {
    var s, name := SchemaRead(fs), Trim(f.name);
    SchemaMeaning.FieldIsWritten(fs, f);
    GetIsLookup(Properties(fs), name);
    assert s.typed.value[name] == AsRead(PropertyOf(f));
    PropertyTakesImages(f, s, name);
    Images.ShownAndAttached(s, inputs, typed);
    hide SchemaRead, Images.TakesImages, Ascii, Images.DataOf, Images.Typed, Images.Lists, Images.Legacy, Trim;
  }
}
