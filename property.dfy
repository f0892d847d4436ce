/**
  The `property` object and its in-place `read*` methods (jsonschema.go:122-222).
  Each method changes only the receiver and is proved to leave it in the state
  the matching function of `Inference` describes. A child node is read into a
  freshly allocated `Property` and stored by value in its parent's map.
 */
module PropertyModel {
  import opened Options
  import opened Tags
  import opened Kinds
  import opened Inference

  class Property {
    var ty: string
    var items: Option<Item>
    var properties: map<string, Node>
    var required: seq<string>
    var additionalProperties: bool

    /** The node this object currently holds. */
    function Value(): Node
      reads this
    {
      Node(ty, items, properties, required, additionalProperties)
    }

    /** `&property{}`. */
    constructor ()
      ensures Value() == Empty
    {
      ty, items, properties, required, additionalProperties := "", None, map[], [], false;
    }

    /** `property.read`. */
    method Read(t: Type)
      modifies this
      ensures Value() == Inference.Read(old(Value()), t)
      decreases t, 1
    {
      var kind := KindOf(t);
      var jsType := TypeFromMapping(kind);
      if jsType != "" {
        ty := jsType;
      }
      if kind == Slice {
        ReadFromSlice(t);
      } else if kind == Map {
        ReadFromMap(t);
      } else if kind == Struct {
        ReadFromStruct(t);
      } else if kind == Ptr {
        Read(t.target);
      }
    }

    /** `property.readFromSlice`. */
    method ReadFromSlice(t: Type)
      requires t.SliceOf?
      modifies this
      ensures Value() == Inference.ReadFromSlice(old(Value()), t.elem)
      decreases t, 0
    {
      var k := KindOf(t.elem);
      if k == Uint8 {
        ty := "string";
      } else if k == Struct {
        var fs := t.elem.fields;
        items := Some(Item("object", map[]));
        for i := 0 to |fs|
          invariant items == Some(Item("object", ItemProperties(fs[..i])))
          invariant ty == old(ty) && properties == old(properties)
          invariant required == old(required) && additionalProperties == old(additionalProperties)
        {
          ItemStep(fs, i);
          var f := fs[i];
          var name := TagName(f.jschema);
          if name != "" {
            continue;
          }
          name := TagName(f.json);
          if name == "" {
            name := f.name;
          }
          var child := new Property();
          child.Read(f.ty);
          items := Some(items.value.(properties := items.value.properties[name := child.Value()]));
        }
        assert fs[..|fs|] == fs;
      } else {
        var jsType := TypeFromMapping(k);
        if jsType != "" {
          items := Some(Item(jsType, map[]));
        }
      }
    }

    /** `property.readFromMap`. */
    method ReadFromMap(t: Type)
      requires t.MapOf?
      modifies this
      ensures Value() == Inference.ReadFromMap(old(Value()), t.val)
    {
      var jsType := TypeFromMapping(KindOf(t.val));
      if jsType != "" {
        properties := map[AnyKey := Empty.(ty := jsType)];
      } else {
        additionalProperties := true;
      }
    }

    /** `property.readFromStruct`. */
    method ReadFromStruct(t: Type)
      requires t.StructOf?
      modifies this
      ensures Value() == Inference.ReadFromStruct(old(Value()), t.fields)
      decreases t, 0
    {
      ty := "object";
      properties := map[];
      additionalProperties := false;
      var fs := t.fields;
      for i := 0 to |fs|
        invariant properties == StructProperties(fs[..i])
        invariant required == old(required) + StructRequired(fs[..i])
        invariant ty == "object" && !additionalProperties && items == old(items)
      {
        StructStep(fs, i);
        var f := fs[i];
        ghost var extra := if IsRequired(f) then [VisibleName(f)] else [];
        AppendAssoc(old(required), StructRequired(fs[..i]), extra);
        var name := TagName(f.jschema);
        if name != "" {
          assert !IsData(f) && !IsRequired(f);
          continue;
        }
        var opts;
        name, opts := TagName(f.json), TagOptions(f.json);
        if name == "-" {
          assert !IsData(f) && !IsRequired(f);
          continue;
        }
        if name == "" {
          name := f.name;
        }
        assert IsData(f) && VisibleName(f) == name && JsonOptions(f) == opts;
        var child := new Property();
        child.Read(f.ty);
        properties := properties[name := child.Value()];
        var omitted := Contains(opts, OmitEmpty);
        ghost var before := required;
        if !omitted {
          if name != "-" {
            required := required + [name];
          }
        }
        assert required == before + extra;
      }
      assert fs[..|fs|] == fs;
    }
  }
}
