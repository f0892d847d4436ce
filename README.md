# jsonschema: a verified model of the schema generator

The Go package `jsonschema` derives a JSON-Schema document from a Go value.
It does this by walking the value's type through reflection:

- **Struct tags.** A small tag language, `name,opt1,opt2`, is shared by the
  `json` and `jschema` tags. `parseTag` splits off the name and
  `tagOptions.Contains` tests for one option.
- **Type mapping.** A fixed table maps each Go kind to a JSON type name.
- **Property inference.** The `property` object reads a type into itself in
  place: the mapped type first, then the slice, map, struct or pointer rule.
  Each data field of a struct becomes a child property, and fields without
  `omitempty` are appended to `required`.
- **Metadata harvest.** `Document.Read` sets the default `$schema` and an
  empty links list, infers the root property, and fills in the id and the
  description from fields flagged by `jschema` options. It then collects
  hypermedia links from slices of link records.

The project models each of these in Dafny. Pure code (`parseTag`,
`getTypeFromMapping`) becomes functions. Code that updates state in place
becomes classes with `modifies` clauses:

- `Property`, with the four `read*` methods;
- `LinkList`, with the three `readLinks*` methods;
- `Document`, with `Read`, `setDefaultSchema`, `readId` and `readDescription`.

Every method is proved against a specification function on values:

- `Inference.Read` and its siblings describe what `property.read*` does;
- `Harvest.Harvested`, `Harvest.Links` and their helpers describe the harvest;
- `DocumentModel.ReadInto` describes `Document.Read`.

The lemmas state what those functions mean: which keys a struct node gets, which names
are required, pointer transparency, last-write-wins in a link slice, and the
round trips of the tag language.

Go reflection is replaced by two datatypes:

- `Kinds.Type` is a type descriptor: scalar kinds, slices, maps, structs with
  tagged fields, and pointers.
- `Values.Value` is a run-time value: strings, other scalars, nil or non-nil
  pointers, slices, maps and structs. `Values.WellTyped` says that a
  pointer's target and a slice's elements have the declared element type, as
  in any value Go builds. The operations and lemmas do not need it. The
  scenario values are proved to have it.

`reflect.Value.String()` is `Values.Str`. It gives the string itself for a
string value, and `<T Value>` otherwise.

Files: `options.dfy` (Option, sequence regrouping), `tags.dfy`, `kinds.dfy`,
`values.dfy`, `inference.dfy`, `property.dfy`, `harvest.dfy`, `links.dfy`,
`document.dfy`, `scenarios.dfy` (the package's own `Base`/`BaseLink` types
and an `api,id` field worked through end to end).

### Behaviour of the code worth knowing

- **Id and description flags.** The id (or description) flag is the option
  `id` (or `description`) in a tagged field, not the tag's name. A field
  fires only when three things hold:
  - its `jschema` name is non-empty;
  - its options lack `omitempty`;
  - its options contain the key.

  A bare `jschema:"id"`, as on `Base.Id`, therefore never fires
  (`Scenarios.BaseIdAndDescription`). When a field does fire, the stored
  string is the container's `String()`, not the field's
  (`Scenarios.IdIsContainerString`).
- **Pointers.** A pointer is not looked up after dereferencing. `Ptr` is not
  in the table: it maps to `""` and only recurses. The resulting node is the
  same (`Inference.PointersTransparent`).
- **The `schema` marker.** The structural marker for descent is the tag name
  `schema`. No `base` marker exists in the code.

## Model

| member | source | states |
|---|---|---|
| Tags.IndexOf | jsonschema.go:431 | -1 exactly when the character is absent; otherwise the first position that holds it |
| Tags.ParseTagSplits | jsonschema.go:430-435 | with a comma, the name is comma-free and `name + "," + options` is the tag; without one, the tag is all name and the options are empty |
| Tags.ParseTagJoin | jsonschema.go:430-435 | parsing `name,opts` with a comma-free name gives back exactly (name, opts) |
| Tags.ParseTagNameless | jsonschema.go:430-435 | a tag that starts with a comma has an empty name, and everything after the comma is options |
| Tags.ParseTagSegments | jsonschema.go:430-435 | the name is the first comma-separated segment, and the options are the remaining segments |
| Tags.Contains | jsonschema.go:437-455 | the scanning loop answers true exactly when the segment scan `HasOption` finds the name, for every option text and name |
| Tags.HasOptionInSegments | jsonschema.go:437-455 | the scan agrees, in both directions, with the segment-list definition: the name equals some segment other than an empty final one |
| Tags.HasOptionIsMembership | jsonschema.go:437-455 | a non-empty name is found exactly when it is one of the comma-separated segments; a name containing a comma is never found |
| Tags.EmptyOptionsContainNothing | jsonschema.go:438-440 | empty options contain nothing, not even the empty name |
| Tags.SingleOption | jsonschema.go:437-455 | comma-free options contain a name exactly when they equal it and it is non-empty |
| Tags.SplitCommaFree | jsonschema.go:443-447 | no segment of a split contains a comma |
| Tags.JoinSplit | jsonschema.go:443-447 | joining the segments with commas gives back the original text |
| Kinds.MappingTableScalars | jsonschema.go:400-426 | `bool`, `integer`, `number` and `string` are returned for exactly the kinds the table lists for them (both directions) |
| Kinds.MappingTableContainers | jsonschema.go:400-426 | `array` exactly for Slice; `object` exactly for Struct and Map |
| Kinds.MappingTableUnlisted | jsonschema.go:420-426 | `""` exactly for the kinds the table does not list (Ptr, Interface, Complex, Chan, Func and the rest) |
| Values.TypeOf | jsonschema.go:63-64 | the type of a value has the value's kind |
| Values.Str | jsonschema.go:245 | `reflect.Value.String()`, with no contract of its own; `Scenarios.ApiString` states it for a struct |
| Inference.ReadThroughPointer | jsonschema.go:122-139 | reading `*T` changes any node exactly as reading `T` does |
| Inference.PointersTransparent | jsonschema.go:122-139 | any number of pointer levels is invisible to the inference |
| Inference.ScalarRule | jsonschema.go:122-139 | a scalar kind read into a fresh node gives just its mapped type (possibly none) |
| Inference.UnmappedScalarUntouched | jsonschema.go:125-127 | an unmapped scalar kind leaves any node unchanged |
| Inference.InferStruct | jsonschema.go:122-133 | (helper: unfolds the struct case of `Read` for the lemmas below) a struct is first given the mapped type `object`, then read by the struct rule |
| Inference.StructRule | jsonschema.go:189-222 | a struct node is an `object` with `additionalProperties` false and no items; its keys are exactly the visible names of its data fields; `required` is the declaration-order list, and every entry is a key |
| Inference.StructPropertiesKeys | jsonschema.go:198-214 | both directions: every data field's visible name is a key, and every key is the visible name of some data field |
| Inference.StructPropertiesValue | jsonschema.go:211-214 | the node under a name is the one inferred for the last data field published under that name |
| Inference.StructRequiredNames | jsonschema.go:198-220 | both directions: `required` holds exactly the visible names of the fields that are data and lack `omitempty` |
| Inference.StructRequiredMembers | jsonschema.go:198-220 | every required name is a property key, and `-` is never required |
| Inference.StructPropertiesConcat | jsonschema.go:194-221 | properties of `fs + gs` are those of `fs` overridden by those of `gs` |
| Inference.StructRequiredConcat | jsonschema.go:194-221 | `required` of `fs + gs` is that of `fs` followed by that of `gs` |
| Inference.SkippedFieldIrrelevant | jsonschema.go:198-209 | deleting a metadata field or a `json:"-"` field does not change the struct's node |
| Inference.SkippedFieldProperties | jsonschema.go:198-209 | deleting a non-data field does not change the properties |
| Inference.SkippedFieldRequired | jsonschema.go:198-209 | deleting a non-data field does not change `required` |
| Inference.MetadataOnlyStruct | jsonschema.go:189-222 | a struct without data fields is a closed `object` with no properties and nothing required |
| Inference.PlainlyNamed | jsonschema.go:205-220 | a field with only a comma-free `json` name is required and published under that name |
| Inference.SharedName | jsonschema.go:211-220 | two required fields under one name: the later node wins, and the name is listed twice in `required` |
| Inference.RequiredThenOptional | jsonschema.go:189-222 | a required field then an `omitempty` field: both keys are present, and only the first is required |
| Inference.PersonSchema | jsonschema.go:189-222 | `Name string` and `` Age int `json:",omitempty"` `` give `{object, {Name: string, Age: integer}, required [Name], closed}` |
| Inference.InferSlice | jsonschema.go:122-130 | (helper: unfolds the slice case of `Read` for `SliceRule`) a slice is first given the mapped type `array`, then read by the slice rule |
| Inference.SliceRule | jsonschema.go:141-176 | `[]uint8` is a `string` without items; `[]struct` is an `array` with `object` items whose keys are exactly the names of fields without a `jschema` name (`-` not skipped); any other element kind gives items of its mapped type, or none |
| Inference.ItemPropertiesKeys | jsonschema.go:150-170 | both directions: the item keys are exactly the visible names of fields without a `jschema` name |
| Inference.MapRule | jsonschema.go:178-187 | a mapped value kind gives an `object` whose only key is `.*`, holding that type; otherwise an `object` with no properties and `additionalProperties` true |
| Tags.ParseTag | jsonschema.go:430-435 | specification function with no contract of its own: split at the first comma; what it means is proved in `ParseTagSplits`, `ParseTagJoin`, `ParseTagNameless` and `ParseTagSegments` |
| Tags.HasOption | jsonschema.go:437-455 | specification function with no contract of its own: the segment-by-segment scan; `Contains` meets it, and `HasOptionInSegments` and `HasOptionIsMembership` prove it is segment membership |
| Kinds.TypeFromMapping | jsonschema.go:400-426 | the `mapping` table and its lookup, with no contract of its own; its contents are stated kind by kind in the three `MappingTable` lemmas |
| Inference.Read | jsonschema.go:122-139 | specification function with no contract of its own; `Property.Read` meets it, and `ReadThroughPointer`, `PointersTransparent`, `ScalarRule` and `UnmappedScalarUntouched` state what it does |
| Inference.Infer | jsonschema.go:122-139 | `Read` into a fresh property, with no contract of its own; the `...Rule` lemmas below are stated on it |
| Inference.ReadFromSlice | jsonschema.go:141-176 | specification function with no contract of its own; `Property.ReadFromSlice` meets it, and `SliceRule` and `ItemPropertiesKeys` state what it does |
| Inference.ReadFromMap | jsonschema.go:178-187 | specification function with no contract of its own; `Property.ReadFromMap` meets it, and `MapRule` states what it does |
| Inference.ReadFromStruct | jsonschema.go:189-222 | specification function with no contract of its own; `Property.ReadFromStruct` meets it, and `StructRule` and the `StructProperties`/`StructRequired` lemmas state what it does |
| PropertyModel.Property.Read | jsonschema.go:122-139 | the node after the call is `Inference.Read` of the node before |
| PropertyModel.Property.ReadFromSlice | jsonschema.go:141-176 | the node after the call is `Inference.ReadFromSlice` of the node before; the item loop keeps the item properties of the fields visited so far |
| PropertyModel.Property.ReadFromMap | jsonschema.go:178-187 | the node after the call is `Inference.ReadFromMap` of the node before |
| PropertyModel.Property.ReadFromStruct | jsonschema.go:189-222 | the node after the call is `Inference.ReadFromStruct` of the node before; the field loop keeps the properties and the appended `required` names of the fields visited so far |
| Harvest.Harvested | jsonschema.go:224-272 | specification function with no contract of its own; `Document.ReadId` and `Document.ReadDescription` meet it, and `BareTagNeverMarks`, `BareTagsNeverMark` and `MarkedFieldHarvests` state when it fires |
| Harvest.Links | jsonschema.go:274-291 | specification function with no contract of its own; `LinkList.ReadLinks` meets it, and `LinksNonBlank` states what it yields |
| Harvest.LinksFromFields | jsonschema.go:293-315 | specification function with no contract of its own; `LinkList.ReadLinksFromStruct` meets it, and `LinksFromFieldsConcat`, `IgnoredFieldIrrelevant` and `LinksFromFieldsNonBlank` state what it does |
| Harvest.LinksFromSlice | jsonschema.go:317-346 | specification function with no contract of its own; `LinkList.ReadLinksFromSlice` meets it, and `SliceLastWriteWins` and `SliceYieldsAtMostOne` state what it yields |
| Harvest.Absorb | jsonschema.go:322-339 | one visit of the inner loop, with no contract of its own; `AbsorbAttr` states what it does |
| Harvest.BareTagNeverMarks | jsonschema.go:234-244 | a comma-free `jschema` tag never flags its field for the id or the description |
| Harvest.BareTagsNeverMark | jsonschema.go:224-247 | a struct whose `jschema` tags are all comma-free never triggers the harvest |
| Harvest.SingleOptionMarks | jsonschema.go:234-244 | a tag `name,key`, with a plain name and a key other than `omitempty`, flags its field |
| Harvest.MarkedFieldHarvests | jsonschema.go:242-245 | one flagged field is enough: the harvested value is the container's string form |
| Harvest.MarkedTagShape | jsonschema.go:234-244 | a flagged field's tag is `name,opts`, with the key among the option segments and `omitempty` not among them |
| Harvest.StructOfFields | jsonschema.go:282-284 | (helper: unfolds the struct case of `Links`) a struct value is safe to scan exactly when its fields are, and its links are the links of its fields |
| Harvest.SliceOfRecords | jsonschema.go:288-289 | (helper: unfolds the slice case of `Links`) a slice is safe to scan exactly when all its elements are link records, and its links are those the slice scan yields |
| Harvest.AbsorbAttr | jsonschema.go:322-339 | one field sets the attribute its tag names to the field's string form and leaves the others |
| Harvest.AbsorbFieldsUntouched | jsonschema.go:321-340 | an attribute that no visited field is tagged for keeps its value |
| Harvest.AbsorbFieldsLast | jsonschema.go:321-340 | an attribute holds the string form of the last visited field tagged for it |
| Harvest.AbsorbRecordsFlat | jsonschema.go:318-341 | the nested element and field loops equal one scan over all fields of all records, in order |
| Harvest.SliceLastWriteWins | jsonschema.go:317-341 | across the whole slice, each attribute is the string form of the last field carrying its tag, or empty when none carries it |
| Harvest.SliceYieldsAtMostOne | jsonschema.go:342-345 | a slice yields at most one link, exactly when the shared accumulator is not blank, and that link is the accumulator |
| Harvest.LinksFromFieldsConcat | jsonschema.go:293-315 | the scan of `fs + gs` appends the links of `gs` after those of `fs` |
| Harvest.IgnoredFieldIrrelevant | jsonschema.go:300-313 | a field that is neither a pointer nor tagged `schema`/`links` contributes nothing, whatever it holds |
| Harvest.LinksNonBlank | jsonschema.go:274-346 | no link collected from a value is blank |
| Harvest.LinksFromFieldsNonBlank | jsonschema.go:293-315 | no link collected from a struct's fields is blank |
| LinksModel.LinkList.ReadLinks | jsonschema.go:274-291 | the list after the call is the old list followed by `Links(v)`; a nil pointer adds nothing |
| LinksModel.LinkList.ReadLinksFromStruct | jsonschema.go:293-315 | the list after the call is the old list followed by the links of the fields that are descended into (pointers, and fields tagged `schema` or `links`) |
| LinksModel.LinkList.ReadLinksFromSlice | jsonschema.go:317-346 | the list after the call is the old list followed by the shared accumulator, when that is not blank |
| DocumentModel.Document.SetDefaultSchema | jsonschema.go:71-81 | an empty schema becomes the default URI and a nil links list becomes a fresh empty one; set values and the id and description are kept |
| DocumentModel.Document.ReadId | jsonschema.go:224-247 | the id after the call is `Harvested(old id, v, "id")` |
| DocumentModel.Document.ReadDescription | jsonschema.go:249-272 | the description after the call is `Harvested(old description, v, "description")` |
| DocumentModel.Document.Read | jsonschema.go:60-69 | the document after the call is `ReadInto(document before, v)`; the links list is present and is the old one when one existed |
| DocumentModel.ReadInto | jsonschema.go:60-69 | specification function with no contract of its own; `Document.Read` meets it |
| DocumentModel.Build | jsonschema.go:60-81 | a read into a zero document, with no contract of its own; `ReadIntoZero` ties it to `ReadInto` |
| DocumentModel.ReadIntoZero | jsonschema.go:60-81 | reading into a zero document gives the document built from the value alone |
| Scenarios.AbsorbBaseLink | jsonschema.go:45-51 | a `BaseLink` record overwrites all five attributes of the accumulator, empty ones included |
| Scenarios.RecordsLastWins | jsonschema.go:317-341 | over any number of `BaseLink` records the accumulator ends as the last record (the blank link when there are none); every earlier record's attributes are lost, empty ones included |
| Scenarios.RecordLinks | jsonschema.go:317-346 | a `BaseLinks` slice of any length yields its last record, unless it is empty or that record is blank |
| Scenarios.BaseWellTyped | jsonschema.go:39-53 | a `Base` value with any number of link records is well typed: every record is a `*BaseLink`, the element type `BaseLinks` declares |
| Scenarios.BaseIdAndDescription | jsonschema.go:39-42 | the bare `jschema:"id"` and `jschema:"description"` tags of `Base` never fire, so both stay empty |
| Scenarios.BaseLinks | jsonschema.go:39-53 | a `Base` value with any number of link records yields one link, equal to its last record, unless there is none or it is blank |
| Scenarios.BaseRoot | jsonschema.go:39-43 | every field of `Base` carries a `jschema` name, so its root is a closed `object` with no properties |
| Scenarios.BaseDocument | jsonschema.go:39-69 | the whole document read from a `Base` value with any number of link records: default schema, empty id and description, at most the last link, and an empty object root |
| Scenarios.IdIsContainerString | jsonschema.go:239-245 | a field tagged `jschema:"api,id"` sets the id to the containing struct's `<main.API Value>`, not to the field's URL |

## Left out

- `Document.Marshal` and `Document.String` (jsonschema.go:84-92) are left out: they only call the `encoding/json` encoder and its indentation.
- The test `json.Marshal(link) != "{}"` (jsonschema.go:342-343) is modelled as "some attribute is non-empty" (`Harvest.IsBlank`). All five attributes are `omitempty` strings, so the two agree.
- Go reflection (`reflect.ValueOf`, `Type`, `Kind`, `Elem`, `Field`, `Tag.Get`) is modelled only through the `Type` and `Value` datatypes. A struct tag is given as the text of its `jschema` and `json` keys ("" when absent).
- `reflect.Value.String()` is reduced to the string itself for strings and `<T Value>` for other values. Go's exact type-name printing is not modelled.
- An interface-typed field is `PlainVal(Interface, …)`: the inference gives it no type, and `readLinks` ignores kind `Interface`, so nothing looks into its contents. Not modelled: a slice of interfaces whose elements hold struct values. `readLinksFromSlice` reads such an element through `Elem()` (jsonschema.go:320), but `Harvest.Safe` admits only slices of non-nil pointers to structs.
- `Document.Read(nil)` is left out: `reflect.ValueOf(nil).Type()` panics (jsonschema.go:63-64), so `Values.PlainKind` excludes `Invalid`.
- Recursive Go types are left out: the datatypes are inductive, so every descriptor is finite.
- Slice elements that are not non-nil pointers to structs are left out. `readLinksFromSlice` panics on them, so `LinksModel.LinkList.ReadLinks` and `DocumentModel.Document.Read` require `Harvest.Safe`, which excludes such elements. The `Harvest` link functions are total, and no lemma about them requires `Safe`.
- The unused `opts` parameter of `property.read` is dropped.
- Nil and empty Go maps are not distinguished: both are an empty Dafny map.
- Child properties are stored by value (`Inference.Node`), not as pointers to shared `property` objects. Each child is read into a freshly allocated `Property`, so no aliasing is lost.
- The commented-out links-schema code (jsonschema.go:51, 55-57, 68, 78-80, 108, 112-115, 348-398) and the unused `TAG_LINKS_SCHEMA_*` constants are left out, because they are dead code.
- The `DEFAULT_SCHEMA_TYPE` constant is left out: it is used only in commented-out code.
