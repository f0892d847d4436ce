/**
  The `Document` and its `Read` entry point (jsonschema.go:60-81, 224-272):
  set defaults, infer the root property from the value's type, harvest the
  id and description, then the links.
 */
module DocumentModel {
  import opened Options
  import opened Tags
  import opened Kinds
  import opened Values
  import Inference
  import opened Harvest
  import opened PropertyModel
  import opened LinksModel

  /** The `$schema` URI a document gets when none is set. */
  const DefaultSchema: string := "http://json-schema.org/schema#"

  /** A whole document as a value: the envelope and the root node. */
  datatype DocumentValue = DocumentValue(
    schema: string, id: string, description: string, links: Option<seq<Link>>, root: Inference.Node)

  /** A document built by one `Read` of `v` into a zero `Document`. */
  function Build(v: Value): DocumentValue
  {
    DocumentValue(DefaultSchema, Harvested("", v, IdTag), Harvested("", v, DescriptionTag),
      Some(Links(v)), Inference.Infer(TypeOf(v)))
  }

  /** A zero `Document`, as `&Document{}` leaves it. */
  const Zero: DocumentValue := DocumentValue("", "", "", None, Inference.Empty)

  /** The document after one `Read` of `v` into the document `d`. */
  function ReadInto(d: DocumentValue, v: Value): DocumentValue
  {
    DocumentValue(
      if d.schema == "" then DefaultSchema else d.schema,
      Harvested(d.id, v, IdTag),
      Harvested(d.description, v, DescriptionTag),
      Some(d.links.GetOr([]) + Links(v)),
      Inference.Read(d.root, TypeOf(v)))
  }

  /** Reading into a zero document gives the document built from `v` alone. */
  lemma ReadIntoZero(v: Value)
    ensures ReadInto(Zero, v) == Build(v)
  {
    assert [] + Links(v) == Links(v);
  }

  /** A document whose parts are those `ReadInto` gives. */
  lemma ReadIntoParts(d: DocumentValue, v: Value, schema: string, id: string, description: string,
                      items: seq<Link>, root: Inference.Node)
    requires schema == if d.schema == "" then DefaultSchema else d.schema
    requires id == Harvested(d.id, v, IdTag) && description == Harvested(d.description, v, DescriptionTag)
    requires items == d.links.GetOr([]) + Links(v)
    requires root == Inference.Read(d.root, TypeOf(v))
    ensures DocumentValue(schema, id, description, Some(items), root) == ReadInto(d, v)
  {
  }

  class Document {
    var schema: string
    var id: string
    var description: string
    var links: LinkList?
    /** The embedded `property`. */
    const root: Property

    /** The document's current contents. */
    function Snapshot(): DocumentValue
      reads this, root, links
    {
      DocumentValue(schema, id, description, if links == null then None else Some(links.items), root.Value())
    }

    /** `&Document{}`. */
    constructor ()
      ensures fresh(root)
      ensures Snapshot() == Zero
    {
      schema, id, description, links := "", "", "", null;
      root := new Property();
    }

    /** `Document.setDefaultSchema`: fill in the schema URI and an empty links list where unset. */
    method SetDefaultSchema()
      modifies this
      ensures schema == if old(schema) == "" then DefaultSchema else old(schema)
      ensures id == old(id) && description == old(description)
      ensures old(links) != null ==> links == old(links)
      ensures old(links) == null ==> links != null && fresh(links) && links.items == []
    {
      if schema == "" {
        schema := DefaultSchema;
      }
      if links == null {
        links := new LinkList();
      }
    }

    /** `Document.readId`: the id becomes the container's string form when a field is marked "id". */
    method ReadId(v: Value)
      modifies this`id
      ensures id == Harvested(old(id), v, IdTag)
    {
      if !v.StructVal? {
        return;
      }
      var fs := v.fields;
      for i := 0 to |fs|
        invariant id == if AnyMarked(fs, i, IdTag) then Str(v) else old(id)
      {
        AnyMarkedStep(fs, i, IdTag);
        var f := fs[i];
        var name, opts := TagName(f.jschema), TagOptions(f.jschema);
        if name == "" {
          continue;
        }
        var omitted := Contains(opts, OmitEmpty);
        if omitted {
          continue;
        }
        var marked := Contains(opts, IdTag);
        if !marked {
          continue;
        }
        id := Str(v);
      }
    }

    /** `Document.readDescription`: as `ReadId`, for the "description" option. */
    method ReadDescription(v: Value)
      modifies this`description
      ensures description == Harvested(old(description), v, DescriptionTag)
    {
      if !v.StructVal? {
        return;
      }
      var fs := v.fields;
      for i := 0 to |fs|
        invariant description == if AnyMarked(fs, i, DescriptionTag) then Str(v) else old(description)
      {
        AnyMarkedStep(fs, i, DescriptionTag);
        var f := fs[i];
        var name, opts := TagName(f.jschema), TagOptions(f.jschema);
        if name == "" {
          continue;
        }
        var omitted := Contains(opts, OmitEmpty);
        if omitted {
          continue;
        }
        var marked := Contains(opts, DescriptionTag);
        if !marked {
          continue;
        }
        description := Str(v);
      }
    }

    /** `Document.Read`. */
    method Read(v: Value)
      requires Safe(v)
      modifies this, root, links
      ensures links != null && (old(links) != null ==> links == old(links))
      ensures Snapshot() == ReadInto(old(Snapshot()), v)
    {
      ghost var d := Snapshot();
      SetDefaultSchema();
      ghost var before := links.items;
      assert before == d.links.GetOr([]);
      root.Read(TypeOf(v));
      ghost var node := root.Value();
      assert node == Inference.Read(d.root, TypeOf(v));
      ReadId(v);
      ReadDescription(v);
      links.ReadLinks(v);
      assert root.Value() == node;
      ReadIntoParts(d, v, schema, id, description, links.items, node);
    }
  }
}
