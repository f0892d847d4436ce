/**
  The `links` list and its in-place readers (jsonschema.go:274-346): each
  method only appends to the list, and what it appends is the matching
  function of `Harvest`.
 */
module LinksModel {
  import opened Options
  import opened Tags
  import opened Values
  import opened Harvest

  class LinkList {
    var items: seq<Link>

    /** `&links{}`. */
    constructor ()
      ensures items == []
    {
      items := [];
    }

    /** `links.readLinks`: dispatch on the kind of `v`; a nil pointer adds nothing. */
    method ReadLinks(v: Value)
      requires Safe(v)
      modifies this
      ensures items == old(items) + Links(v)
      decreases v, 1
    {
      if v.StructVal? {
        ReadLinksFromStruct(v);
      } else if v.PtrVal? {
        if v.target.Some? {
          ReadLinks(v.target.value);
        }
      } else if v.SliceVal? {
        ReadLinksFromSlice(v);
      }
    }

    /** `links.readLinksFromStruct`: descend into pointer fields and into fields tagged "schema" or "links". */
    method ReadLinksFromStruct(v: Value)
      requires v.StructVal? && Safe(v)
      modifies this
      ensures items == old(items) + LinksFromFields(v.fields)
      decreases v, 0
    {
      var fs := v.fields;
      assert FieldsSafe(fs);
      assert fs[..0] == [];
      for i := 0 to |fs|
        invariant items == old(items) + LinksFromFields(fs[..i])
      {
        LinksFromFieldsStep(fs, i);
        var f := fs[i];
        ghost var before := items;
        if f.val.PtrVal? {
          ReadLinks(f.val);
        } else {
          var tag := TagName(f.jschema);
          if tag == BaseTag {
            ReadLinks(f.val);
          } else if tag == LinksTag {
            ReadLinks(f.val);
          }
        }
        assert items == before + (if Descends(f) then Links(f.val) else []);
        AppendAssoc(old(items), LinksFromFields(fs[..i]), if Descends(f) then Links(f.val) else []);
      }
      assert fs[..|fs|] == fs;
    }

    /**
      `links.readLinksFromSlice`: one accumulator shared by all elements, each
      tagged field overwriting its attribute; appended only when not blank.
     */
    method ReadLinksFromSlice(v: Value)
      requires v.SliceVal? && Safe(v)
      modifies this
      ensures items == old(items) + LinksFromSlice(v.elems)
    {
      var es := v.elems;
      assert AllRecords(es);
      var link := NoLink;
      assert es[..0] == [];
      for i := 0 to |es|
        invariant link == AbsorbRecords(NoLink, es[..i])
        invariant items == old(items)
      {
        AbsorbRecordsStep(es, i);
        ghost var before := link;
        var field := es[i].target.value;
        var fs := field.fields;
        for j := 0 to |fs|
          invariant link == AbsorbFields(before, fs[..j])
          invariant items == old(items)
        {
          AbsorbFieldsStep(before, fs, j);
          var tag := TagName(fs[j].jschema);
          if tag == TitleTag {
            link := link.(title := Str(fs[j].val));
          } else if tag == LinkDescriptionTag {
            link := link.(description := Str(fs[j].val));
          } else if tag == MethodTag {
            link := link.(httpMethod := Str(fs[j].val));
          } else if tag == HrefTag {
            link := link.(href := Str(fs[j].val));
          } else if tag == RelTag {
            link := link.(rel := Str(fs[j].val));
          }
        }
        assert fs[..|fs|] == fs;
      }
      assert es[..|es|] == es;
      assert link == AbsorbRecords(NoLink, es);
      if !IsBlank(link) {
        items := items + [link];
      }
    }
  }
}
