/**
  Metadata harvest over a value: the document id and description
  (jsonschema.go:224-272) and the hypermedia links (jsonschema.go:274-346).
  The functions say what the in-place methods of `Document` and `LinkList`
  compute; the lemmas state what that means.
 */
module Harvest {
  import opened Options
  import opened Tags
  import opened Kinds
  import opened Values

  /** The `jschema` tag names the harvest reacts to. */
  const BaseTag: string := "schema"
  const IdTag: string := "id"
  const DescriptionTag: string := "description"
  const LinksTag: string := "links"
  const TitleTag: string := "links-title"
  const LinkDescriptionTag: string := "links-description"
  const MethodTag: string := "links-method"
  const HrefTag: string := "links-href"
  const RelTag: string := "links-rel"

  /** The five tags that set an attribute of a link. */
  predicate IsLinkTag(tag: string) {
    tag in {TitleTag, LinkDescriptionTag, MethodTag, HrefTag, RelTag}
  }

  /** One hypermedia link. */
  datatype Link = Link(title: string, description: string, httpMethod: string, href: string, rel: string)

  /** `&link{}`. */
  const NoLink: Link := Link("", "", "", "", "")

  /**
    A link that encodes as `{}`: every attribute is an `omitempty` string, so
    this is exactly the case where all five are empty.
   */
  predicate IsBlank(l: Link) {
    l.title == "" && l.description == "" && l.httpMethod == "" && l.href == "" && l.rel == ""
  }

  /** The attribute of a link that the given link tag sets. */
  function Attr(l: Link, tag: string): string
    requires IsLinkTag(tag)
  {
    if tag == TitleTag then l.title
    else if tag == LinkDescriptionTag then l.description
    else if tag == MethodTag then l.httpMethod
    else if tag == HrefTag then l.href
    else l.rel
  }

  // ---------------------------------------------------------------------
  // Id and description
  // ---------------------------------------------------------------------

  /**
    The condition on a field under which `readId` (key "id") or
    `readDescription` (key "description") fires: a non-empty `jschema` name,
    no `omitempty` option, and the key among the options.
   */
  predicate Marks(f: FieldValue, key: string) {
    TagName(f.jschema) != ""
    && !HasOption(TagOptions(f.jschema), OmitEmpty)
    && HasOption(TagOptions(f.jschema), key)
  }

  /**
    The id (or description) after the harvest over `v`: when `v` is a struct
    with a marked field, the string form of `v` itself, the container, and
    not that of the field; otherwise the value it had before.
   */
  function Harvested(current: string, v: Value, key: string): string {
    if v.StructVal? && AnyMarked(v.fields, |v.fields|, key) then Str(v) else current
  }

  /** Some field among the first n is marked with the key. */
  predicate AnyMarked(fs: seq<FieldValue>, n: nat, key: string)
    requires n <= |fs|
  {
    exists i :: 0 <= i < n && Marks(fs[i], key)
  }

  /** The scan after one more field. */
  lemma AnyMarkedStep(fs: seq<FieldValue>, n: nat, key: string)
    requires n < |fs|
    ensures AnyMarked(fs, n + 1, key) <==> AnyMarked(fs, n, key) || Marks(fs[n], key)
  {
  }

  /** A bare tag such as `jschema:"id"` has no options, so it never marks its field. */
  lemma BareTagNeverMarks(f: FieldValue, key: string)
    requires ',' !in f.jschema
    ensures !Marks(f, key)
  {
    EmptyOptionsContainNothing(key);
  }

  /** A struct whose `jschema` tags are all bare never fires the harvest. */
  lemma BareTagsNeverMark(fs: seq<FieldValue>, key: string)
    requires forall i :: 0 <= i < |fs| ==> ',' !in fs[i].jschema
    ensures !AnyMarked(fs, |fs|, key)
  {
    forall i | 0 <= i < |fs|
      ensures !Marks(fs[i], key)
    {
      BareTagNeverMarks(fs[i], key);
    }
  }

  /** A tag `name,key` with a plain name and a single option marks its field for that key. */
  lemma SingleOptionMarks(f: FieldValue, name: string, key: string)
    requires ',' !in name && name != "" && ',' !in key && key != "" && key != OmitEmpty
    requires f.jschema == name + "," + key
    ensures Marks(f, key)
  {
    ParseTagJoin(name, key);
    SingleOption(key, OmitEmpty);
    SingleOption(key, key);
  }

  /** One marked field is enough: the harvest yields the container's string form. */
  lemma MarkedFieldHarvests(current: string, v: Value, i: nat, key: string)
    requires v.StructVal? && i < |v.fields| && Marks(v.fields[i], key)
    ensures Harvested(current, v, key) == Str(v)
  {
  }

  /** A marked field's tag is `name,opts` with a non-empty name and the key among the options. */
  lemma MarkedTagShape(f: FieldValue, key: string)
    requires Marks(f, key) && key != "" && key != OmitEmpty
    ensures ',' in f.jschema
    ensures f.jschema == TagName(f.jschema) + "," + TagOptions(f.jschema)
    ensures key in Split(TagOptions(f.jschema)) && OmitEmpty !in Split(TagOptions(f.jschema))
  {
    if ',' !in f.jschema {
      BareTagNeverMarks(f, key);
    }
    HasOptionIsMembership(TagOptions(f.jschema), key);
    HasOptionIsMembership(TagOptions(f.jschema), OmitEmpty);
  }

  // ---------------------------------------------------------------------
  // Links
  // ---------------------------------------------------------------------

  /** A field the struct scan descends into: any pointer, or a field tagged "schema" or "links". */
  predicate Descends(f: FieldValue) {
    f.val.PtrVal? || TagName(f.jschema) == BaseTag || TagName(f.jschema) == LinksTag
  }

  /** A slice element the slice scan can read: a non-nil pointer to a struct. */
  predicate IsLinkRecord(e: Value) {
    e.PtrVal? && e.target.Some? && e.target.value.StructVal?
  }

  /**
    Whether the descent from a value stays clear of a panic: every slice it
    reaches holds only link records, since `readLinksFromSlice` calls
    `NumField` on each element's target (jsonschema.go:320-321).
   */
  predicate Safe(v: Value)
    decreases v, 1
  {
    match v
    case StructVal(_, fs) => FieldsSafe(fs)
    case PtrVal(_, _, target) => target.Some? ==> Safe(target.value)
    case SliceVal(_, _, es) => AllRecords(es)
    case _ => true
  }

  /** Every field the struct scan descends into is itself safe to descend into. */
  predicate FieldsSafe(fs: seq<FieldValue>)
    decreases fs, 0
  {
    forall i :: 0 <= i < |fs| ==> Descends(fs[i]) ==> Safe(fs[i].val)
  }

  /** Every element of a slice is a link record. */
  predicate AllRecords(es: seq<Value>) {
    forall i :: 0 <= i < |es| ==> IsLinkRecord(es[i])
  }

  /**
    `links.readLinks`: the links appended while descending from `v`. The
    functions are total; where the descent is not `Safe` they say nothing
    about the program, which panics there, and no method reaches that case.
   */
  function Links(v: Value): seq<Link>
    decreases v, 1
  {
    match v
    case StructVal(_, fs) => LinksFromFields(fs)
    case PtrVal(_, _, target) => if target.Some? then Links(target.value) else []
    case SliceVal(_, _, es) => LinksFromSlice(es)
    case _ => []
  }

  /** `links.readLinksFromStruct`, over the fields in declaration order. */
  function LinksFromFields(fs: seq<FieldValue>): seq<Link>
    decreases fs, 0
  {
    if |fs| == 0 then []
    else
      var f := fs[|fs| - 1];
      LinksFromFields(fs[..|fs| - 1]) + (if Descends(f) then Links(f.val) else [])
  }

  /** A field of a link record overwrites the attribute its tag names with the field's string form. */
  function Absorb(l: Link, f: FieldValue): Link {
    var tag := TagName(f.jschema);
    if tag == TitleTag then l.(title := Str(f.val))
    else if tag == LinkDescriptionTag then l.(description := Str(f.val))
    else if tag == MethodTag then l.(httpMethod := Str(f.val))
    else if tag == HrefTag then l.(href := Str(f.val))
    else if tag == RelTag then l.(rel := Str(f.val))
    else l
  }

  /** The accumulator after the inner loop has visited the fields `fs` of one record. */
  function AbsorbFields(l: Link, fs: seq<FieldValue>): Link {
    if |fs| == 0 then l else Absorb(AbsorbFields(l, fs[..|fs| - 1]), fs[|fs| - 1])
  }

  /** The fields of a link record (none for an element that is not one). */
  function RecordFields(e: Value): seq<FieldValue> {
    if IsLinkRecord(e) then e.target.value.fields else []
  }

  /** The accumulator after the outer loop has visited the elements `es`. */
  function AbsorbRecords(l: Link, es: seq<Value>): Link {
    if |es| == 0 then l
    else AbsorbFields(AbsorbRecords(l, es[..|es| - 1]), RecordFields(es[|es| - 1]))
  }

  /** `links.readLinksFromSlice`: one shared accumulator, kept only when not blank. */
  function LinksFromSlice(es: seq<Value>): seq<Link> {
    var l := AbsorbRecords(NoLink, es);
    if IsBlank(l) then [] else [l]
  }

  /** A struct value is safe exactly when its fields are, and its links are those of its fields. */
  lemma StructOfFields(typeName: string, fs: seq<FieldValue>)
    ensures Safe(StructVal(typeName, fs)) <==> FieldsSafe(fs)
    ensures Links(StructVal(typeName, fs)) == LinksFromFields(fs)
  {
  }

  /** A slice is safe exactly when all its elements are link records, and its links are those of the slice scan. */
  lemma SliceOfRecords(typeName: string, elemTy: Type, es: seq<Value>)
    ensures Safe(SliceVal(typeName, elemTy, es)) <==> AllRecords(es)
    ensures Links(SliceVal(typeName, elemTy, es)) == LinksFromSlice(es)
  {
  }

  /** Scanning one more field at the end. */
  lemma LinksFromFieldsAppend(fs: seq<FieldValue>, f: FieldValue)
    ensures LinksFromFields(fs + [f]) == LinksFromFields(fs) + (if Descends(f) then Links(f.val) else [])
  {
    assert (fs + [f])[..|fs|] == fs;
  }

  /** One more field that is safe to descend into keeps a field list safe. */
  lemma FieldsSafeAppend(fs: seq<FieldValue>, f: FieldValue)
    requires FieldsSafe(fs) && (Descends(f) ==> Safe(f.val))
    ensures FieldsSafe(fs + [f])
  {
    assert forall i :: 0 <= i < |fs| ==> (fs + [f])[i] == fs[i];
  }

  /** The struct scan after one more field. */
  lemma LinksFromFieldsStep(fs: seq<FieldValue>, i: nat)
    requires i < |fs|
    ensures LinksFromFields(fs[..i + 1]) == LinksFromFields(fs[..i]) + (if Descends(fs[i]) then Links(fs[i].val) else [])
  {
    assert fs[..i + 1][..i] == fs[..i];
  }

  /** Visiting one more field at the end. */
  lemma AbsorbFieldsAppend(l: Link, fs: seq<FieldValue>, f: FieldValue)
    ensures AbsorbFields(l, fs + [f]) == Absorb(AbsorbFields(l, fs), f)
  {
    assert (fs + [f])[..|fs|] == fs;
  }

  /** Visiting one more element at the end. */
  lemma AbsorbRecordsAppend(l: Link, es: seq<Value>, e: Value)
    ensures AbsorbRecords(l, es + [e]) == AbsorbFields(AbsorbRecords(l, es), RecordFields(e))
  {
    assert (es + [e])[..|es|] == es;
  }

  /** One more link record keeps a slice made of link records. */
  lemma AllRecordsAppend(es: seq<Value>, e: Value)
    requires AllRecords(es) && IsLinkRecord(e)
    ensures AllRecords(es + [e])
  {
    assert forall i :: 0 <= i < |es| ==> (es + [e])[i] == es[i];
  }

  /** The inner loop after one more field. */
  lemma AbsorbFieldsStep(l: Link, fs: seq<FieldValue>, j: nat)
    requires j < |fs|
    ensures AbsorbFields(l, fs[..j + 1]) == Absorb(AbsorbFields(l, fs[..j]), fs[j])
  {
    assert fs[..j + 1][..j] == fs[..j];
  }

  /** The outer loop after one more element. */
  lemma AbsorbRecordsStep(es: seq<Value>, i: nat)
    requires i < |es|
    ensures AbsorbRecords(NoLink, es[..i + 1]) == AbsorbFields(AbsorbRecords(NoLink, es[..i]), RecordFields(es[i]))
  {
    assert es[..i + 1][..i] == es[..i];
  }

  /** Every field of every record, in the order the two loops visit them. */
  function AllFields(es: seq<Value>): seq<FieldValue> {
    if |es| == 0 then [] else AllFields(es[..|es| - 1]) + RecordFields(es[|es| - 1])
  }

  /** Visiting fs and then gs is visiting fs + gs. */
  lemma {:induction false} AbsorbFieldsConcat(l: Link, fs: seq<FieldValue>, gs: seq<FieldValue>)
    ensures AbsorbFields(l, fs + gs) == AbsorbFields(AbsorbFields(l, fs), gs)
    decreases |gs|
  {
    if |gs| == 0 {
      assert fs + gs == fs;
    } else {
      assert (fs + gs)[..|fs + gs| - 1] == fs + gs[..|gs| - 1];
      AbsorbFieldsConcat(l, fs, gs[..|gs| - 1]);
    }
  }

  /** The nested loops amount to one scan over all fields of all records. */
  lemma {:induction false} AbsorbRecordsFlat(l: Link, es: seq<Value>)
    ensures AbsorbRecords(l, es) == AbsorbFields(l, AllFields(es))
  {
    if |es| > 0 {
      var es' := es[..|es| - 1];
      AbsorbRecordsFlat(l, es');
      AbsorbFieldsConcat(l, AllFields(es'), RecordFields(es[|es| - 1]));
    }
  }

  /** One field sets the attribute its tag names and leaves every other attribute alone. */
  lemma AbsorbAttr(l: Link, f: FieldValue, tag: string)
    requires IsLinkTag(tag)
    ensures Attr(Absorb(l, f), tag) == if TagName(f.jschema) == tag then Str(f.val) else Attr(l, tag)
  {
  }

  /** An attribute no visited field is tagged for keeps its value. */
  lemma {:induction false} AbsorbFieldsUntouched(l: Link, fs: seq<FieldValue>, tag: string)
    requires IsLinkTag(tag)
    requires forall k :: 0 <= k < |fs| ==> TagName(fs[k].jschema) != tag
    ensures Attr(AbsorbFields(l, fs), tag) == Attr(l, tag)
  {
    if |fs| > 0 {
      AbsorbFieldsUntouched(l, fs[..|fs| - 1], tag);
      AbsorbAttr(AbsorbFields(l, fs[..|fs| - 1]), fs[|fs| - 1], tag);
    }
  }

  /** An attribute holds the string form of the last visited field tagged for it. */
  lemma {:induction false} AbsorbFieldsLast(l: Link, fs: seq<FieldValue>, tag: string, j: nat)
    requires IsLinkTag(tag)
    requires j < |fs| && TagName(fs[j].jschema) == tag
    requires forall k :: j < k < |fs| ==> TagName(fs[k].jschema) != tag
    ensures Attr(AbsorbFields(l, fs), tag) == Str(fs[j].val)
  {
    if j < |fs| - 1 {
      AbsorbFieldsLast(l, fs[..|fs| - 1], tag, j);
    }
    AbsorbAttr(AbsorbFields(l, fs[..|fs| - 1]), fs[|fs| - 1], tag);
  }

  /**
    Last write wins across the whole slice: each attribute of the accumulated
    link is the string form of the last field, over all elements in order,
    carrying its tag, and empty when no field carries it.
   */
  lemma SliceLastWriteWins(es: seq<Value>, tag: string)
    requires IsLinkTag(tag)
    ensures forall j :: (0 <= j < |AllFields(es)| && TagName(AllFields(es)[j].jschema) == tag
                         && (forall k :: j < k < |AllFields(es)| ==> TagName(AllFields(es)[k].jschema) != tag))
                        ==> Attr(AbsorbRecords(NoLink, es), tag) == Str(AllFields(es)[j].val)
    ensures (forall k :: 0 <= k < |AllFields(es)| ==> TagName(AllFields(es)[k].jschema) != tag)
      ==> Attr(AbsorbRecords(NoLink, es), tag) == ""
  {
    AbsorbRecordsFlat(NoLink, es);
    forall j | 0 <= j < |AllFields(es)| && TagName(AllFields(es)[j].jschema) == tag
      && (forall k :: j < k < |AllFields(es)| ==> TagName(AllFields(es)[k].jschema) != tag)
      ensures Attr(AbsorbRecords(NoLink, es), tag) == Str(AllFields(es)[j].val)
    {
      AbsorbFieldsLast(NoLink, AllFields(es), tag, j);
    }
    if forall k :: 0 <= k < |AllFields(es)| ==> TagName(AllFields(es)[k].jschema) != tag {
      AbsorbFieldsUntouched(NoLink, AllFields(es), tag);
    }
  }

  /** One slice yields at most one link, and one exactly when some attribute ended up non-empty. */
  lemma SliceYieldsAtMostOne(es: seq<Value>)
    ensures |LinksFromSlice(es)| <= 1
    ensures |LinksFromSlice(es)| == 1 <==> !IsBlank(AbsorbRecords(NoLink, es))
    ensures |LinksFromSlice(es)| == 1 ==> LinksFromSlice(es)[0] == AbsorbRecords(NoLink, es)
  {
  }

  /** The struct scan over fs + gs appends the links of gs after those of fs. */
  lemma {:induction false} LinksFromFieldsConcat(fs: seq<FieldValue>, gs: seq<FieldValue>)
    ensures LinksFromFields(fs + gs) == LinksFromFields(fs) + LinksFromFields(gs)
    decreases |gs|
  {
    if |gs| == 0 {
      assert fs + gs == fs;
    } else {
      var gs', g := gs[..|gs| - 1], gs[|gs| - 1];
      assert gs == gs' + [g];
      assert fs + gs == (fs + gs') + [g];
      LinksFromFieldsConcat(fs, gs');
      LinksFromFieldsAppend(fs + gs', g);
      LinksFromFieldsAppend(gs', g);
      var x := if Descends(g) then Links(g.val) else [];
      AppendAssoc(LinksFromFields(fs), LinksFromFields(gs'), x);
    }
  }

  /** A field that is neither a pointer nor tagged "schema"/"links" contributes nothing, whatever it holds. */
  lemma IgnoredFieldIrrelevant(fs: seq<FieldValue>, f: FieldValue)
    requires !Descends(f)
    ensures LinksFromFields(fs + [f]) == LinksFromFields(fs)
  {
    assert (fs + [f])[..|fs|] == fs;
  }

  /** No blank link is ever appended. */
  lemma {:induction false} LinksNonBlank(v: Value)
    ensures forall k :: 0 <= k < |Links(v)| ==> !IsBlank(Links(v)[k])
    decreases v, 1
  {
    match v
    case StructVal(_, fs) => LinksFromFieldsNonBlank(fs);
    case PtrVal(_, _, target) => if target.Some? { LinksNonBlank(target.value); }
    case SliceVal(_, _, es) =>
    case _ =>
  }

  lemma {:induction false} LinksFromFieldsNonBlank(fs: seq<FieldValue>)
    ensures forall k :: 0 <= k < |LinksFromFields(fs)| ==> !IsBlank(LinksFromFields(fs)[k])
    decreases fs, 0
  {
    if |fs| > 0 {
      var f := fs[|fs| - 1];
      LinksFromFieldsNonBlank(fs[..|fs| - 1]);
      if Descends(f) {
        LinksNonBlank(f.val);
      }
    }
  }
}
