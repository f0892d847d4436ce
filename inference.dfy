/**
  Property inference: how the walk over a type descriptor fills a schema
  node. The functions here describe, update by update, what the in-place
  `read*` methods of the `property` object do to it (jsonschema.go:122-222),
  and the lemmas state what the resulting schema looks like.
 */
module Inference {
  import opened Options
  import opened Tags
  import opened Kinds

  /** A schema node (`property`): a JSON type, optional items, child nodes, required names. */
  datatype Node = Node(
    ty: string,
    items: Option<Item>,
    properties: map<string, Node>,
    required: seq<string>,
    additionalProperties: bool)

  /** The element schema of an array node (`item`): a type and, for struct elements, child nodes. */
  datatype Item = Item(ty: string, properties: map<string, Node>)

  /** A freshly allocated `&property{}`: every field at its zero value. */
  const Empty: Node := Node("", None, map[], [], false)

  /** The key under which a map node describes its values. */
  const AnyKey: string := ".*"

  /** The name part of a field's `jschema` tag; non-empty marks a metadata field. */
  function SchemaName(f: Field): string {
    TagName(f.jschema)
  }

  /** The name part of a field's `json` tag. */
  function JsonName(f: Field): string {
    TagName(f.json)
  }

  /** The option part of a field's `json` tag. */
  function JsonOptions(f: Field): string {
    TagOptions(f.json)
  }

  /** The name a field is published under: its `json` name, or its Go name when that is empty. */
  function VisibleName(f: Field): string {
    if JsonName(f) == "" then f.name else JsonName(f)
  }

  /** A field that becomes a property of its struct: no `jschema` name, and a `json` name other than "-". */
  predicate IsData(f: Field) {
    SchemaName(f) == "" && JsonName(f) != "-"
  }

  /** A data field listed in `required`: its `json` options lack `omitempty`. */
  predicate IsRequired(f: Field) {
    IsData(f) && !HasOption(JsonOptions(f), OmitEmpty) && VisibleName(f) != "-"
  }

  /** A field of a slice's element struct that becomes an item property: only the `jschema` name is checked. */
  predicate IsItemField(f: Field) {
    SchemaName(f) == ""
  }

  /** `property.read`: write the mapped type first, then dispatch on the kind. */
  function Read(p: Node, t: Type): Node
    decreases t, 0
  {
    var mapped := TypeFromMapping(KindOf(t));
    var p1 := if mapped != "" then p.(ty := mapped) else p;
    match t
    case SliceOf(e) => ReadFromSlice(p1, e)
    case MapOf(v) => ReadFromMap(p1, v)
    case StructOf(fs) => ReadFromStruct(p1, fs)
    case PtrTo(e) => Read(p1, e)
    case Scalar(_) => p1
  }

  /** The node read into a fresh `&property{}`. */
  function Infer(t: Type): Node
    decreases t, 1
  {
    Read(Empty, t)
  }

  /** `property.readFromSlice`, given the element type. */
  function ReadFromSlice(p: Node, elem: Type): Node
    decreases elem, 1
  {
    var k := KindOf(elem);
    if k == Uint8 then p.(ty := "string")
    else match elem
      case StructOf(fs) => p.(items := Some(Item("object", ItemProperties(fs))))
      case _ =>
        var mapped := TypeFromMapping(k);
        if mapped != "" then p.(items := Some(Item(mapped, map[]))) else p
  }

  /** The item properties of a struct element type, after its first |fs| fields. */
  function ItemProperties(fs: seq<Field>): map<string, Node>
    decreases fs, 0
  {
    if |fs| == 0 then map[]
    else
      var m := ItemProperties(fs[..|fs| - 1]);
      var f := fs[|fs| - 1];
      if IsItemField(f) then m[VisibleName(f) := Infer(f.ty)] else m
  }

  /** `property.readFromMap`, given the value type. */
  function ReadFromMap(p: Node, val: Type): Node {
    var mapped := TypeFromMapping(KindOf(val));
    if mapped != "" then p.(properties := map[AnyKey := Empty.(ty := mapped)])
    else p.(additionalProperties := true)
  }

  /** `property.readFromStruct`, given the fields in declaration order. */
  function ReadFromStruct(p: Node, fs: seq<Field>): Node
    decreases fs, 1
  {
    p.(ty := "object",
       properties := StructProperties(fs),
       additionalProperties := false,
       required := p.required + StructRequired(fs))
  }

  /** The properties map after the field loop has visited the fields `fs`. */
  function StructProperties(fs: seq<Field>): map<string, Node>
    decreases fs, 0
  {
    if |fs| == 0 then map[]
    else
      var m := StructProperties(fs[..|fs| - 1]);
      var f := fs[|fs| - 1];
      if IsData(f) then m[VisibleName(f) := Infer(f.ty)] else m
  }

  /** The names the field loop appends to `required` while visiting the fields `fs`. */
  function StructRequired(fs: seq<Field>): seq<string> {
    if |fs| == 0 then []
    else
      StructRequired(fs[..|fs| - 1])
        + (if IsRequired(fs[|fs| - 1]) then [VisibleName(fs[|fs| - 1])] else [])
  }

  /** One more field visited by the struct loop. */
  lemma StructStep(fs: seq<Field>, i: nat)
    requires i < |fs|
    ensures StructProperties(fs[..i + 1]) ==
      if IsData(fs[i]) then StructProperties(fs[..i])[VisibleName(fs[i]) := Infer(fs[i].ty)]
      else StructProperties(fs[..i])
    ensures StructRequired(fs[..i + 1]) ==
      StructRequired(fs[..i]) + (if IsRequired(fs[i]) then [VisibleName(fs[i])] else [])
  {
    assert fs[..i + 1][..i] == fs[..i];
  }

  /** One more field visited by the item loop. */
  lemma ItemStep(fs: seq<Field>, i: nat)
    requires i < |fs|
    ensures ItemProperties(fs[..i + 1]) ==
      if IsItemField(fs[i]) then ItemProperties(fs[..i])[VisibleName(fs[i]) := Infer(fs[i].ty)]
      else ItemProperties(fs[..i])
  {
    assert fs[..i + 1][..i] == fs[..i];
  }

  // ---------------------------------------------------------------------
  // Properties of the inference
  // ---------------------------------------------------------------------

  /** `t` behind `n` levels of pointers. */
  function Pointers(t: Type, n: nat): Type {
    if n == 0 then t else PtrTo(Pointers(t, n - 1))
  }

  /** Pointers are invisible: reading `*...*T` changes the node exactly as reading `T` does. */
  lemma {:induction false} PointersTransparent(p: Node, t: Type, n: nat)
    ensures Read(p, Pointers(t, n)) == Read(p, t)
    decreases n
  {
    if n > 0 {
      PointersStep(p, t, n);
      PointersTransparent(p, t, n - 1);
    }
  }

  /** Peeling off the outermost of `n` pointer levels. */
  lemma PointersStep(p: Node, t: Type, n: nat)
    requires n > 0
    ensures Read(p, Pointers(t, n)) == Read(p, Pointers(t, n - 1))
  {
    ReadThroughPointer(p, Pointers(t, n - 1));
  }

  /** One pointer level: `Ptr` is unmapped, so reading `*T` only reads `T`. */
  lemma ReadThroughPointer(p: Node, t: Type)
    ensures Read(p, PtrTo(t)) == Read(p, t)
  {
    assert TypeFromMapping(KindOf(PtrTo(t))) == "";
  }

  /** A kind without further structure gets its mapped type (possibly none) and nothing else. */
  lemma ScalarRule(k: ScalarKind)
    ensures Infer(Scalar(k)) == Empty.(ty := TypeFromMapping(k))
  {
  }

  /** An unmapped kind leaves the node exactly as it was. */
  lemma UnmappedScalarUntouched(p: Node, k: ScalarKind)
    requires TypeFromMapping(k) == ""
    ensures Read(p, Scalar(k)) == p
  {
  }

  /** Later fields overwrite earlier ones with the same name: properties of fs + gs. */
  lemma {:induction false} StructPropertiesConcat(fs: seq<Field>, gs: seq<Field>)
    ensures StructProperties(fs + gs) == StructProperties(fs) + StructProperties(gs)
    decreases |gs|
  {
    if |gs| == 0 {
      assert fs + gs == fs;
    } else {
      var gs' := gs[..|gs| - 1];
      assert (fs + gs)[..|fs + gs| - 1] == fs + gs';
      StructPropertiesConcat(fs, gs');
    }
  }

  /** `required` follows declaration order: the names of fs + gs are those of fs, then those of gs. */
  lemma {:induction false} StructRequiredConcat(fs: seq<Field>, gs: seq<Field>)
    ensures StructRequired(fs + gs) == StructRequired(fs) + StructRequired(gs)
    decreases |gs|
  {
    if |gs| == 0 {
      assert fs + gs == fs;
    } else {
      var gs' := gs[..|gs| - 1];
      assert (fs + gs)[..|fs + gs| - 1] == fs + gs';
      StructRequiredConcat(fs, gs');
    }
  }

  /** The keys of a struct's properties are exactly the visible names of its data fields. */
  lemma {:induction false} StructPropertiesKeys(fs: seq<Field>)
    ensures forall i :: 0 <= i < |fs| && IsData(fs[i]) ==> VisibleName(fs[i]) in StructProperties(fs)
    ensures forall name :: name in StructProperties(fs) ==>
      exists i :: 0 <= i < |fs| && IsData(fs[i]) && VisibleName(fs[i]) == name
  {
    if |fs| > 0 {
      var n := |fs| - 1;
      var fs', f := fs[..n], fs[n];
      StructPropertiesKeys(fs');
      assert StructProperties(fs) == if IsData(f) then StructProperties(fs')[VisibleName(f) := Infer(f.ty)] else StructProperties(fs');
      forall name | name in StructProperties(fs)
        ensures exists i :: 0 <= i < |fs| && IsData(fs[i]) && VisibleName(fs[i]) == name
      {
        if !(IsData(f) && VisibleName(f) == name) {
          var i :| 0 <= i < |fs'| && IsData(fs'[i]) && VisibleName(fs'[i]) == name;
          assert fs'[i] == fs[i];
        }
      }
      forall i | 0 <= i < |fs| && IsData(fs[i])
        ensures VisibleName(fs[i]) in StructProperties(fs)
      {
        if i < n {
          assert fs'[i] == fs[i];
        }
      }
    }
  }

  /** The node stored under a name is the one read for the last data field published under that name. */
  lemma {:induction false} StructPropertiesValue(fs: seq<Field>, i: nat)
    requires i < |fs| && IsData(fs[i])
    requires forall j :: i < j < |fs| && IsData(fs[j]) ==> VisibleName(fs[j]) != VisibleName(fs[i])
    ensures VisibleName(fs[i]) in StructProperties(fs)
    ensures StructProperties(fs)[VisibleName(fs[i])] == Infer(fs[i].ty)
  {
    if i < |fs| - 1 {
      var fs' := fs[..|fs| - 1];
      StructPropertiesValue(fs', i);
    }
  }

  /** Names in `required` are exactly the visible names of the required fields. */
  lemma {:induction false} StructRequiredNames(fs: seq<Field>)
    ensures forall i :: 0 <= i < |fs| && IsRequired(fs[i]) ==> VisibleName(fs[i]) in StructRequired(fs)
    ensures forall name :: name in StructRequired(fs) ==>
      exists i :: 0 <= i < |fs| && IsRequired(fs[i]) && VisibleName(fs[i]) == name
  {
    if |fs| > 0 {
      var n := |fs| - 1;
      var fs', f := fs[..n], fs[n];
      var extra := if IsRequired(f) then [VisibleName(f)] else [];
      StructRequiredNames(fs');
      assert StructRequired(fs) == StructRequired(fs') + extra;
      forall name | name in StructRequired(fs)
        ensures exists i :: 0 <= i < |fs| && IsRequired(fs[i]) && VisibleName(fs[i]) == name
      {
        if name !in extra {
          var i :| 0 <= i < |fs'| && IsRequired(fs'[i]) && VisibleName(fs'[i]) == name;
          assert fs'[i] == fs[i];
        }
      }
      forall i | 0 <= i < |fs| && IsRequired(fs[i])
        ensures VisibleName(fs[i]) in StructRequired(fs)
      {
        if i < n {
          assert fs'[i] == fs[i];
          assert VisibleName(fs[i]) in StructRequired(fs');
        } else {
          assert i == n;
        }
      }
    }
  }

  /** Every name in `required` is also a property key, and "-" is never required. */
  lemma StructRequiredMembers(fs: seq<Field>)
    ensures forall name :: name in StructRequired(fs) ==> name in StructProperties(fs)
    ensures "-" !in StructRequired(fs)
  {
    StructPropertiesKeys(fs);
    StructRequiredNames(fs);
    forall name | name in StructRequired(fs)
      ensures name in StructProperties(fs) && name != "-"
    {
      var i :| 0 <= i < |fs| && IsRequired(fs[i]) && VisibleName(fs[i]) == name;
      assert IsData(fs[i]);
    }
  }

  /** Reading a struct into a fresh node: the mapped type "object" is written, then the field loop runs. */
  lemma InferStruct(fs: seq<Field>)
    ensures Infer(StructOf(fs)) == ReadFromStruct(Empty.(ty := "object"), fs)
  {
  }

  /**
    A struct becomes a closed object whose keys are the visible names of its
    data fields and whose `required` lists, in declaration order, the names of
    its required fields.
   */
  lemma StructRule(fs: seq<Field>)
    ensures Infer(StructOf(fs)).ty == "object"
    ensures !Infer(StructOf(fs)).additionalProperties
    ensures Infer(StructOf(fs)).items == None
    ensures forall name :: name in Infer(StructOf(fs)).properties <==>
      exists i :: 0 <= i < |fs| && IsData(fs[i]) && VisibleName(fs[i]) == name
    ensures Infer(StructOf(fs)).required == StructRequired(fs)
    ensures forall name :: name in Infer(StructOf(fs)).required ==> name in Infer(StructOf(fs)).properties
  {
    InferStruct(fs);
    StructPropertiesKeys(fs);
    StructRequiredMembers(fs);
  }

  /** A struct made only of metadata fields (or `json:"-"` ones) reads as a closed object with no properties. */
  lemma {:induction false} MetadataOnlyStruct(fs: seq<Field>)
    requires forall i :: 0 <= i < |fs| ==> !IsData(fs[i])
    ensures StructProperties(fs) == map[] && StructRequired(fs) == []
    ensures Infer(StructOf(fs)) == Empty.(ty := "object")
  {
    if |fs| > 0 {
      var fs' := fs[..|fs| - 1];
      assert forall i :: 0 <= i < |fs'| ==> fs'[i] == fs[i];
      MetadataOnlyStruct(fs');
    }
    InferStruct(fs);
  }

  lemma SplitAt(fs: seq<Field>, i: nat)
    requires i < |fs|
    ensures fs == (fs[..i] + [fs[i]]) + fs[i + 1..]
  {
  }

  /** A field that is not data (a metadata field, or `json:"-"`) has no effect on the struct's node. */
  lemma SkippedFieldIrrelevant(fs: seq<Field>, i: nat)
    requires i < |fs| && !IsData(fs[i])
    ensures Infer(StructOf(fs)) == Infer(StructOf(fs[..i] + fs[i + 1..]))
  {
    SkippedFieldProperties(fs, i);
    SkippedFieldRequired(fs, i);
    InferStruct(fs);
    InferStruct(fs[..i] + fs[i + 1..]);
  }

  lemma SkippedFieldProperties(fs: seq<Field>, i: nat)
    requires i < |fs| && !IsData(fs[i])
    ensures StructProperties(fs) == StructProperties(fs[..i] + fs[i + 1..])
  {
    var a, f, b := fs[..i], fs[i], fs[i + 1..];
    SplitAt(fs, i);
    assert StructProperties([f]) == map[] by {
      assert [f][..0] == [];
    }
    calc {
      StructProperties(fs);
      { StructPropertiesConcat(a + [f], b); }
      StructProperties(a + [f]) + StructProperties(b);
      { StructPropertiesConcat(a, [f]); }
      StructProperties(a) + StructProperties(b);
      { StructPropertiesConcat(a, b); }
      StructProperties(a + b);
    }
  }

  lemma SkippedFieldRequired(fs: seq<Field>, i: nat)
    requires i < |fs| && !IsData(fs[i])
    ensures StructRequired(fs) == StructRequired(fs[..i] + fs[i + 1..])
  {
    var a, f, b := fs[..i], fs[i], fs[i + 1..];
    SplitAt(fs, i);
    assert StructRequired([f]) == [] by {
      assert [f][..0] == [];
    }
    calc {
      StructRequired(fs);
      { StructRequiredConcat(a + [f], b); }
      StructRequired(a + [f]) + StructRequired(b);
      { StructRequiredConcat(a, [f]); }
      StructRequired(a) + StructRequired(b);
      { StructRequiredConcat(a, b); }
      StructRequired(a + b);
    }
  }

  /** The keys of item properties: visible names of every field without a `jschema` name, "-" included. */
  lemma {:induction false} ItemPropertiesKeys(fs: seq<Field>)
    ensures forall i :: 0 <= i < |fs| && IsItemField(fs[i]) ==> VisibleName(fs[i]) in ItemProperties(fs)
    ensures forall name :: name in ItemProperties(fs) ==>
      exists i :: 0 <= i < |fs| && IsItemField(fs[i]) && VisibleName(fs[i]) == name
  {
    if |fs| > 0 {
      var n := |fs| - 1;
      var fs', f := fs[..n], fs[n];
      ItemPropertiesKeys(fs');
      assert ItemProperties(fs) == if IsItemField(f) then ItemProperties(fs')[VisibleName(f) := Infer(f.ty)] else ItemProperties(fs');
      forall name | name in ItemProperties(fs)
        ensures exists i :: 0 <= i < |fs| && IsItemField(fs[i]) && VisibleName(fs[i]) == name
      {
        if !(IsItemField(f) && VisibleName(f) == name) {
          var i :| 0 <= i < |fs'| && IsItemField(fs'[i]) && VisibleName(fs'[i]) == name;
          assert fs'[i] == fs[i];
        }
      }
      forall i | 0 <= i < |fs| && IsItemField(fs[i])
        ensures VisibleName(fs[i]) in ItemProperties(fs)
      {
        if i < n {
          assert fs'[i] == fs[i];
        }
      }
    }
  }

  /**
    Slices: a byte slice is a string with no items; a struct slice is an array
    whose object items carry the element's fields; any other element kind
    gives items of its mapped type, or no items when it has none.
   */
  lemma InferSlice(e: Type)
    ensures Infer(SliceOf(e)) == ReadFromSlice(Empty.(ty := "array"), e)
  {
    assert TypeFromMapping(Slice) == "array";
  }

  lemma SliceRule(e: Type)
    ensures KindOf(e) == Uint8 ==> Infer(SliceOf(e)) == Empty.(ty := "string")
    ensures e.StructOf? ==>
      Infer(SliceOf(e)) == Empty.(ty := "array", items := Some(Item("object", ItemProperties(e.fields))))
    ensures e.StructOf? ==> forall name :: name in Infer(SliceOf(e)).items.value.properties <==>
      exists i :: 0 <= i < |e.fields| && IsItemField(e.fields[i]) && VisibleName(e.fields[i]) == name
    ensures KindOf(e) != Uint8 && !e.StructOf? ==>
      Infer(SliceOf(e)) == Empty.(ty := "array",
        items := if TypeFromMapping(KindOf(e)) != "" then Some(Item(TypeFromMapping(KindOf(e)), map[])) else None)
  {
    InferSlice(e);
    if e.StructOf? {
      var fs := e.fields;
      ItemPropertiesKeys(fs);
      forall name | exists i :: 0 <= i < |fs| && IsItemField(fs[i]) && VisibleName(fs[i]) == name
        ensures name in ItemProperties(fs)
      {
        var i :| 0 <= i < |fs| && IsItemField(fs[i]) && VisibleName(fs[i]) == name;
      }
    }
  }

  /**
    Maps: a mapped value kind gives an object with the single key ".*" holding
    a node of that type; otherwise an object open to any additional property.
   */
  lemma MapRule(v: Type)
    ensures Infer(MapOf(v)).ty == "object" && Infer(MapOf(v)).items == None
    ensures TypeFromMapping(KindOf(v)) != "" ==>
      Infer(MapOf(v)).properties.Keys == {AnyKey}
      && Infer(MapOf(v)).properties[AnyKey] == Empty.(ty := TypeFromMapping(KindOf(v)))
      && !Infer(MapOf(v)).additionalProperties
    ensures TypeFromMapping(KindOf(v)) == "" ==>
      Infer(MapOf(v)).properties == map[] && Infer(MapOf(v)).additionalProperties
  {
  }

  /** A plain `T` with fields `Name string` and `` Age int `json:",omitempty"` ``. */
  const Person: Type := StructOf([
    Field("Name", "", "", Scalar(String)),
    Field("Age", "", "," + OmitEmpty, Scalar(Int))])

  /** `Name` has no tags: a required data field published under its Go name. */
  lemma PersonNameField()
    ensures IsRequired(Person.fields[0]) && VisibleName(Person.fields[0]) == "Name"
  {
    assert ParseTag("") == ("", "");
    EmptyOptionsContainNothing(OmitEmpty);
  }

  /** `Age` is tagged `json:",omitempty"`: a data field under its Go name, but not required. */
  lemma PersonAgeField()
    ensures IsData(Person.fields[1]) && !IsRequired(Person.fields[1]) && VisibleName(Person.fields[1]) == "Age"
  {
    ParseTagNameless(OmitEmpty);
    OmitEmptyIsPlain();
    SingleOption(OmitEmpty, OmitEmpty);
  }

  lemma PersonFields()
    ensures IsRequired(Person.fields[0]) && VisibleName(Person.fields[0]) == "Name"
    ensures IsData(Person.fields[1]) && !IsRequired(Person.fields[1]) && VisibleName(Person.fields[1]) == "Age"
  {
    PersonNameField();
    PersonAgeField();
  }

  lemma PersonFieldNodes()
    ensures Infer(Person.fields[0].ty) == Empty.(ty := "string")
    ensures Infer(Person.fields[1].ty) == Empty.(ty := "integer")
  {
    ScalarRule(String);
    ScalarRule(Int);
  }

  /** A struct of a required data field followed by an optional one. */
  lemma RequiredThenOptional(a: Field, b: Field)
    requires IsRequired(a) && IsData(b) && !IsRequired(b)
    ensures Infer(StructOf([a, b])) == Node("object", None,
      map[VisibleName(a) := Infer(a.ty)][VisibleName(b) := Infer(b.ty)], [VisibleName(a)], false)
  {
    var fs := [a, b];
    assert fs[..1] == [a];
    assert [a][..0] == [];
    assert StructProperties([a]) == map[VisibleName(a) := Infer(a.ty)];
    assert StructRequired([a]) == [VisibleName(a)];
    InferStruct(fs);
  }

  /** The person type reads as an object with both keys, of which only Name is required. */
  lemma PersonSchema()
    ensures Infer(Person) == Node("object", None,
      map["Name" := Empty.(ty := "string"), "Age" := Empty.(ty := "integer")],
      ["Name"], false)
  {
    PersonFields();
    PersonFieldNodes();
    RequiredThenOptional(Person.fields[0], Person.fields[1]);
    assert Person == StructOf([Person.fields[0], Person.fields[1]]);
  }

  /** A field with only a comma-free `json` name is a required data field published under that name. */
  lemma PlainlyNamed(f: Field)
    requires f.jschema == "" && f.json != "" && f.json != "-" && ',' !in f.json
    ensures IsRequired(f) && VisibleName(f) == f.json
  {
    ParseTagSplits(f.jschema);
    ParseTagSplits(f.json);
    EmptyOptionsContainNothing(OmitEmpty);
  }

  /** Two required fields under one name: the later one's node wins, and the name is listed twice. */
  lemma SharedName(a: Field, b: Field)
    requires IsRequired(a) && IsRequired(b) && VisibleName(a) == VisibleName(b)
    ensures StructProperties([a, b]) == map[VisibleName(a) := Infer(b.ty)]
    ensures StructRequired([a, b]) == [VisibleName(a), VisibleName(a)]
  {
    var fs := [a, b];
    assert fs[..1] == [a];
    assert [a][..0] == [];
    assert StructProperties([a]) == map[VisibleName(a) := Infer(a.ty)];
    assert StructRequired([a]) == [VisibleName(a)];
    assert StructProperties(fs) == StructProperties([a])[VisibleName(b) := Infer(b.ty)];
    assert StructRequired(fs) == StructRequired([a]) + [VisibleName(b)];
  }
}
