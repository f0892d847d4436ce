/**
  Run-time values as the harvest sees them through reflection: strings,
  other plain values, pointers (nil or not), slices, maps and structs whose
  fields carry their tags.
 */
module Values {
  import opened Options
  import opened Kinds

  /**
    Kinds of plain values other than strings. `Interface` stands for an
    interface-typed field, whose contents no reader looks into. No value has
    kind `Invalid`: `Document.Read(nil)` panics at `value.Type()`
    (jsonschema.go:63-64), and a nil pointer's missing target is `None`.
   */
  type PlainKind = k: ScalarKind | k != String && k != Invalid witness Bool

  /**
    A Go value. Every constructor but `StringVal` carries the printed name of
    its Go type (`main.T`, `*main.T`, `[]*main.L`), which
    `reflect.Value.String()` shows for a value that is not a string.
   */
  datatype Value =
    | StringVal(s: string)
    | PlainVal(kind: PlainKind, typeName: string)
    | PtrVal(typeName: string, elemTy: Type, target: Option<Value>)
    | SliceVal(typeName: string, elemTy: Type, elems: seq<Value>)
    | MapVal(typeName: string, valTy: Type)
    | StructVal(typeName: string, fields: seq<FieldValue>)

  /** A struct field's declaration (name and tags) together with its value. */
  datatype FieldValue = FieldValue(name: string, jschema: string, json: string, val: Value)

  /** `reflect.Value.Type()`. */
  function TypeOf(v: Value): (t: Type)
    ensures KindOf(t) == KindOfValue(v)
    decreases v, 1
  {
    match v
    case StringVal(_) => Scalar(String)
    case PlainVal(k, _) => Scalar(k)
    case PtrVal(_, e, _) => PtrTo(e)
    case SliceVal(_, e, _) => SliceOf(e)
    case MapVal(_, e) => MapOf(e)
    case StructVal(_, fs) => StructOf(FieldTypes(fs))
  }

  /** The declared fields of a struct value's type. */
  function FieldTypes(fs: seq<FieldValue>): (r: seq<Field>)
    ensures |r| == |fs|
    ensures forall i :: 0 <= i < |fs| ==>
      r[i] == Field(fs[i].name, fs[i].jschema, fs[i].json, TypeOf(fs[i].val))
    decreases fs, 0
  {
    if |fs| == 0 then []
    else
      var f := fs[|fs| - 1];
      FieldTypes(fs[..|fs| - 1]) + [Field(f.name, f.jschema, f.json, TypeOf(f.val))]
  }

  /** `reflect.Value.Kind()`. */
  function KindOfValue(v: Value): Kind {
    match v
    case StringVal(_) => String
    case PlainVal(k, _) => k
    case PtrVal(_, _, _) => Ptr
    case SliceVal(_, _, _) => Slice
    case MapVal(_, _) => Map
    case StructVal(_, _) => Struct
  }

  /** `reflect.Value.String()`: a string value itself, otherwise `<T Value>`. */
  function Str(v: Value): string {
    match v
    case StringVal(s) => s
    case _ => "<" + v.typeName + " Value>"
  }

  /**
    A value as Go builds it: a pointer's target and a slice's elements have
    the element type the container declares, all the way down.
   */
  predicate WellTyped(v: Value)
    decreases v, 1
  {
    match v
    case PtrVal(_, e, target) => target.Some? ==> TypeOf(target.value) == e && WellTyped(target.value)
    case SliceVal(_, e, es) => forall i :: 0 <= i < |es| ==> TypeOf(es[i]) == e && WellTyped(es[i])
    case StructVal(_, fs) => FieldsWellTyped(fs)
    case _ => true
  }

  /** Every field value is well typed. */
  predicate FieldsWellTyped(fs: seq<FieldValue>)
    decreases fs, 0
  {
    forall i :: 0 <= i < |fs| ==> WellTyped(fs[i].val)
  }
}
