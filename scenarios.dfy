/**
  Whole-document consequences for the shapes the package itself declares
  (`Base`, `BaseLink`, `BaseLinks`, jsonschema.go:39-53) and for a field that
  does trigger the id harvest.
 */
module Scenarios {
  import opened Options
  import opened Tags
  import opened Kinds
  import opened Values
  import Inference
  import opened Harvest
  import opened DocumentModel

  /** A tag without a comma is all name. */
  lemma PlainTag(tag: string)
    requires ',' !in tag
    ensures TagName(tag) == tag && TagOptions(tag) == ""
  {
  }

  /** The type of `BaseLink`: five strings tagged `json:"-"` and with the five link tags. */
  const BaseLinkType: Type := StructOf([
    Field("Title", TitleTag, "-", Scalar(String)),
    Field("Description", LinkDescriptionTag, "-", Scalar(String)),
    Field("Method", MethodTag, "-", Scalar(String)),
    Field("Href", HrefTag, "-", Scalar(String)),
    Field("Rel", RelTag, "-", Scalar(String))])

  /** The fields of a `BaseLink` value. */
  function BaseLinkFields(l: Link): seq<FieldValue> {
    [FieldValue("Title", TitleTag, "-", StringVal(l.title))]
      + [FieldValue("Description", LinkDescriptionTag, "-", StringVal(l.description))]
      + [FieldValue("Method", MethodTag, "-", StringVal(l.httpMethod))]
      + [FieldValue("Href", HrefTag, "-", StringVal(l.href))]
      + [FieldValue("Rel", RelTag, "-", StringVal(l.rel))]
  }

  /** A `*BaseLink` holding the given attributes. */
  function BaseLinkRecord(l: Link): Value {
    PtrVal("*jsonschema.BaseLink", BaseLinkType,
      Some(StructVal("jsonschema.BaseLink", BaseLinkFields(l))))
  }

  /** The records of a `BaseLinks` slice holding the given links, in order. */
  function Records(ls: seq<Link>): seq<Value> {
    if |ls| == 0 then [] else Records(ls[..|ls| - 1]) + [BaseLinkRecord(ls[|ls| - 1])]
  }

  /** The `Links` field of a `Base` value: a `BaseLinks` slice of one record per link. */
  function BaseLinksField(ls: seq<Link>): FieldValue {
    FieldValue("Links", LinksTag, "-", SliceVal("jsonschema.BaseLinks", PtrTo(BaseLinkType), Records(ls)))
  }

  /** A `Base` value with the given id, description and links. */
  function BaseValue(id: string, description: string, ls: seq<Link>): Value {
    StructVal("jsonschema.Base",
      [FieldValue("Id", IdTag, "-", StringVal(id))]
        + [FieldValue("Description", DescriptionTag, "-", StringVal(description))]
        + [BaseLinksField(ls)])
  }

  /** The link the shared accumulator ends as over `ls`: the last one, or the blank link when there is none. */
  function LastLink(ls: seq<Link>): Link {
    if |ls| == 0 then NoLink else ls[|ls| - 1]
  }

  /** Visiting one field of a `BaseLink` record sets the attribute its tag names. */
  lemma AbsorbTitle(acc: Link, s: string)
    ensures Absorb(acc, FieldValue("Title", TitleTag, "-", StringVal(s))) == acc.(title := s)
  {
    PlainTag(TitleTag);
  }

  lemma AbsorbDescription(acc: Link, s: string)
    ensures Absorb(acc, FieldValue("Description", LinkDescriptionTag, "-", StringVal(s))) == acc.(description := s)
  {
    PlainTag(LinkDescriptionTag);
  }

  lemma AbsorbMethod(acc: Link, s: string)
    ensures Absorb(acc, FieldValue("Method", MethodTag, "-", StringVal(s))) == acc.(httpMethod := s)
  {
    PlainTag(MethodTag);
  }

  lemma AbsorbHref(acc: Link, s: string)
    ensures Absorb(acc, FieldValue("Href", HrefTag, "-", StringVal(s))) == acc.(href := s)
  {
    PlainTag(HrefTag);
  }

  lemma AbsorbRel(acc: Link, s: string)
    ensures Absorb(acc, FieldValue("Rel", RelTag, "-", StringVal(s))) == acc.(rel := s)
  {
    PlainTag(RelTag);
  }

  /** A whole `BaseLink` record overwrites all five attributes, empty ones included. */
  lemma AbsorbBaseLink(acc: Link, l: Link)
    ensures AbsorbFields(acc, BaseLinkFields(l)) == l
  {
    var f1 := FieldValue("Title", TitleTag, "-", StringVal(l.title));
    var f2 := FieldValue("Description", LinkDescriptionTag, "-", StringVal(l.description));
    var f3 := FieldValue("Method", MethodTag, "-", StringVal(l.httpMethod));
    var f4 := FieldValue("Href", HrefTag, "-", StringVal(l.href));
    var f5 := FieldValue("Rel", RelTag, "-", StringVal(l.rel));
    var a1 := acc.(title := l.title);
    var a2 := a1.(description := l.description);
    var a3 := a2.(httpMethod := l.httpMethod);
    var a4 := a3.(href := l.href);
    AbsorbFieldsAppend(acc, [], f1);
    assert [] + [f1] == [f1];
    AbsorbTitle(acc, l.title);
    assert AbsorbFields(acc, [f1]) == a1;
    AbsorbFieldsAppend(acc, [f1], f2);
    AbsorbDescription(a1, l.description);
    assert AbsorbFields(acc, [f1] + [f2]) == a2;
    AbsorbFieldsAppend(acc, [f1] + [f2], f3);
    AbsorbMethod(a2, l.httpMethod);
    assert AbsorbFields(acc, [f1] + [f2] + [f3]) == a3;
    AbsorbFieldsAppend(acc, [f1] + [f2] + [f3], f4);
    AbsorbHref(a3, l.href);
    assert AbsorbFields(acc, [f1] + [f2] + [f3] + [f4]) == a4;
    AbsorbFieldsAppend(acc, [f1] + [f2] + [f3] + [f4], f5);
    AbsorbRel(a4, l.rel);
  }

  /**
    Over any number of `BaseLink` records the accumulator ends as the last
    record: every record overwrites all five attributes, so the earlier
    records' attributes are all lost.
   */
  lemma {:induction false} RecordsLastWins(ls: seq<Link>)
    ensures AllRecords(Records(ls))
    ensures AbsorbRecords(NoLink, Records(ls)) == LastLink(ls)
  {
    if |ls| > 0 {
      var ls', l := ls[..|ls| - 1], ls[|ls| - 1];
      var r := BaseLinkRecord(l);
      RecordsLastWins(ls');
      assert Records(ls) == Records(ls') + [r];
      AllRecordsAppend(Records(ls'), r);
      AbsorbRecordsAppend(NoLink, Records(ls'), r);
      assert RecordFields(r) == BaseLinkFields(l);
      AbsorbBaseLink(AbsorbRecords(NoLink, Records(ls')), l);
    }
  }

  /** A `*BaseLink` record has the element type of `BaseLinks` and is built as Go builds it. */
  lemma RecordWellTyped(l: Link)
    ensures TypeOf(BaseLinkRecord(l)) == PtrTo(BaseLinkType) && WellTyped(BaseLinkRecord(l))
  {
    var fs := BaseLinkFields(l);
    var ts := FieldTypes(fs);
    assert |ts| == |BaseLinkType.fields|;
    assert forall i :: 0 <= i < |ts| ==> ts[i] == BaseLinkType.fields[i];
    assert ts == BaseLinkType.fields;
    assert forall i :: 0 <= i < |fs| ==> fs[i].val.StringVal? && WellTyped(fs[i].val);
    assert WellTyped(StructVal("jsonschema.BaseLink", fs));
  }

  /** Every record of a `BaseLinks` slice is well typed and of the slice's element type. */
  lemma {:induction false} RecordsWellTyped(ls: seq<Link>)
    ensures forall i :: 0 <= i < |Records(ls)| ==>
      TypeOf(Records(ls)[i]) == PtrTo(BaseLinkType) && WellTyped(Records(ls)[i])
  {
    if |ls| > 0 {
      var ls', r := ls[..|ls| - 1], BaseLinkRecord(ls[|ls| - 1]);
      RecordsWellTyped(ls');
      RecordWellTyped(ls[|ls| - 1]);
      assert Records(ls) == Records(ls') + [r];
    }
  }

  /** A `Base` value, with any links, is a value Go can build. */
  lemma BaseWellTyped(id: string, description: string, ls: seq<Link>)
    ensures WellTyped(BaseValue(id, description, ls))
  {
    RecordsWellTyped(ls);
    assert WellTyped(BaseLinksField(ls).val);
  }

  /** The three fields of `Base` carry bare, non-empty `jschema` tags. */
  lemma BaseTags(id: string, description: string, ls: seq<Link>)
    ensures forall i :: 0 <= i < |BaseValue(id, description, ls).fields| ==>
      ',' !in BaseValue(id, description, ls).fields[i].jschema
      && TagName(BaseValue(id, description, ls).fields[i].jschema) != ""
  {
    var fs := BaseValue(id, description, ls).fields;
    forall i | 0 <= i < |fs|
      ensures ',' !in fs[i].jschema && TagName(fs[i].jschema) != ""
    {
      var tag := if i == 0 then IdTag else if i == 1 then DescriptionTag else LinksTag;
      assert fs[i].jschema == tag;
      PlainTag(tag);
    }
  }

  /** The bare `jschema:"id"` and `jschema:"description"` tags of `Base` never fire: both stay empty. */
  lemma BaseIdAndDescription(id: string, description: string, ls: seq<Link>)
    ensures Harvested("", BaseValue(id, description, ls), IdTag) == ""
    ensures Harvested("", BaseValue(id, description, ls), DescriptionTag) == ""
  {
    BaseTags(id, description, ls);
    BareTagsNeverMark(BaseValue(id, description, ls).fields, IdTag);
    BareTagsNeverMark(BaseValue(id, description, ls).fields, DescriptionTag);
  }

  /** The scan does not descend into the `id`-tagged string field of `Base`. */
  lemma IdFieldSkipped(id: string)
    ensures !Descends(FieldValue("Id", IdTag, "-", StringVal(id)))
  {
    PlainTag(IdTag);
  }

  /** The scan does not descend into the `description`-tagged string field of `Base`. */
  lemma DescriptionFieldSkipped(description: string)
    ensures !Descends(FieldValue("Description", DescriptionTag, "-", StringVal(description)))
  {
    PlainTag(DescriptionTag);
  }

  /** The scan descends into the `links`-tagged field of `Base`. */
  lemma LinksFieldDescends(ls: seq<Link>)
    ensures Descends(BaseLinksField(ls))
  {
    PlainTag(LinksTag);
  }

  /** A `BaseLinks` slice yields its last record, unless there is none or it is blank. */
  lemma RecordLinks(ls: seq<Link>)
    ensures Safe(BaseLinksField(ls).val)
    ensures Links(BaseLinksField(ls).val) == if |ls| == 0 || IsBlank(ls[|ls| - 1]) then [] else [ls[|ls| - 1]]
  {
    var v := BaseLinksField(ls).val;
    RecordsLastWins(ls);
    SliceOfRecords(v.typeName, v.elemTy, v.elems);
  }

  /** Of three fields, only the third descended into: the scan yields that field's links. */
  lemma ThirdFieldLinks(f1: FieldValue, f2: FieldValue, f3: FieldValue)
    requires !Descends(f1) && !Descends(f2) && Descends(f3) && Safe(f3.val)
    ensures FieldsSafe([f1] + [f2] + [f3])
    ensures LinksFromFields([f1] + [f2] + [f3]) == Links(f3.val)
  {
    LinksFromFieldsAppend([], f1);
    assert [] + [f1] == [f1];
    LinksFromFieldsAppend([f1], f2);
    LinksFromFieldsAppend([f1] + [f2], f3);
  }

  /** The links of a `Base` value: its last record, unless it has none or that record is blank. */
  lemma BaseLinks(id: string, description: string, ls: seq<Link>)
    ensures Safe(BaseValue(id, description, ls))
    ensures Links(BaseValue(id, description, ls)) == if |ls| == 0 || IsBlank(ls[|ls| - 1]) then [] else [ls[|ls| - 1]]
  {
    var f1 := FieldValue("Id", IdTag, "-", StringVal(id));
    var f2 := FieldValue("Description", DescriptionTag, "-", StringVal(description));
    var f3 := BaseLinksField(ls);
    IdFieldSkipped(id);
    DescriptionFieldSkipped(description);
    LinksFieldDescends(ls);
    RecordLinks(ls);
    ThirdFieldLinks(f1, f2, f3);
    StructOfFields("jsonschema.Base", [f1] + [f2] + [f3]);
  }

  /** A struct value whose every field carries a `jschema` name infers as a closed object with no properties. */
  lemma MetadataOnlyValue(typeName: string, fs: seq<FieldValue>)
    requires forall i :: 0 <= i < |fs| ==> TagName(fs[i].jschema) != ""
    ensures Inference.Infer(TypeOf(StructVal(typeName, fs))) == Inference.Empty.(ty := "object")
  {
    var ts := FieldTypes(fs);
    assert TypeOf(StructVal(typeName, fs)) == StructOf(ts);
    forall i | 0 <= i < |ts|
      ensures !Inference.IsData(ts[i])
    {
      assert ts[i].jschema == fs[i].jschema;
    }
    Inference.MetadataOnlyStruct(ts);
  }

  /** Every field of `Base` carries a `jschema` name, so the root is a closed object with no properties. */
  lemma BaseRoot(id: string, description: string, ls: seq<Link>)
    ensures Inference.Infer(TypeOf(BaseValue(id, description, ls))) == Inference.Empty.(ty := "object")
  {
    BaseTags(id, description, ls);
    MetadataOnlyValue("jsonschema.Base", BaseValue(id, description, ls).fields);
  }

  /** Reading a `Base` value into a fresh document. */
  lemma BaseDocument(id: string, description: string, ls: seq<Link>)
    ensures Safe(BaseValue(id, description, ls))
    ensures Build(BaseValue(id, description, ls)) == DocumentValue(DefaultSchema, "", "",
      Some(if |ls| == 0 || IsBlank(ls[|ls| - 1]) then [] else [ls[|ls| - 1]]), Inference.Empty.(ty := "object"))
  {
    BaseIdAndDescription(id, description, ls);
    BaseLinks(id, description, ls);
    BaseRoot(id, description, ls);
  }

  /** A struct whose `URL` field is tagged `jschema:"api,id"`. */
  function ApiValue(url: string): Value {
    StructVal("main.API", [FieldValue("URL", "api" + "," + IdTag, "url", StringVal(url))])
  }

  /** The `api,id` field is a plain string the link scan does not descend into. */
  lemma ApiSafe(url: string)
    ensures Safe(ApiValue(url)) && WellTyped(ApiValue(url))
  {
    ParseTagJoin("api", IdTag);
    assert !Descends(ApiValue(url).fields[0]);
  }

  /** The `api,id` field marks its struct for the id harvest. */
  lemma ApiMarked(url: string)
    ensures Harvested("", ApiValue(url), IdTag) == Str(ApiValue(url))
  {
    SingleOptionMarks(ApiValue(url).fields[0], "api", IdTag);
    MarkedFieldHarvests("", ApiValue(url), 0, IdTag);
  }

  /** `reflect.Value.String()` of the struct. */
  lemma ApiString(url: string)
    ensures Str(ApiValue(url)) == "<main.API Value>"
  {
  }

  /**
    A field that does fire the id harvest: the document's id is the string
    form of the containing struct, `<main.API Value>`, and not the URL the
    field holds.
   */
  lemma IdIsContainerString(url: string)
    ensures Safe(ApiValue(url))
    ensures Harvested("", ApiValue(url), IdTag) == "<main.API Value>"
  {
    ApiSafe(url);
    ApiMarked(url);
    ApiString(url);
  }
}
