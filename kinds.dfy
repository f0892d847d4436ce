/**
  Go's closed set of reflection kinds, the kind-to-JSON-type table, and the
  type descriptors that the inference walks.
 */
module Kinds {

  /** Every kind of Go's reflection package, in its own order. */
  datatype Kind =
    | Invalid | Bool
    | Int | Int8 | Int16 | Int32 | Int64
    | Uint | Uint8 | Uint16 | Uint32 | Uint64 | Uintptr
    | Float32 | Float64 | Complex64 | Complex128
    | Array | Chan | Func | Interface | Map | Ptr | Slice | String | Struct
    | UnsafePointer

  /** Signed and unsigned integer kinds of the table (Uintptr is not one of them). */
  predicate IsIntegerKind(k: Kind) {
    k.Int? || k.Int8? || k.Int16? || k.Int32? || k.Int64?
    || k.Uint? || k.Uint8? || k.Uint16? || k.Uint32? || k.Uint64?
  }

  /** Kinds the table does not list. */
  predicate IsUnmappedKind(k: Kind) {
    k.Invalid? || k.Uintptr? || k.Complex64? || k.Complex128? || k.Array?
    || k.Chan? || k.Func? || k.Interface? || k.Ptr? || k.UnsafePointer?
  }

  /** Kinds whose type descriptor has further structure: maps, pointers, slices and structs. */
  predicate IsCompositeKind(k: Kind) {
    k.Map? || k.Ptr? || k.Slice? || k.Struct?
  }

  /**
    The fixed table from kinds to JSON-Schema type names; a kind the table
    does not list (a pointer, say) gives the empty string.
   */
  function TypeFromMapping(k: Kind): string {
    match k
    case Bool => "bool"
    case Int | Int8 | Int16 | Int32 | Int64 => "integer"
    case Uint | Uint8 | Uint16 | Uint32 | Uint64 => "integer"
    case Float32 | Float64 => "number"
    case String => "string"
    case Slice => "array"
    case Struct | Map => "object"
    case _ => ""
  }

  /** The table's scalar entries, in both directions. */
  lemma MappingTableScalars(k: Kind)
    ensures TypeFromMapping(k) == "bool" <==> k == Bool
    ensures TypeFromMapping(k) == "integer" <==> IsIntegerKind(k)
    ensures TypeFromMapping(k) == "number" <==> k == Float32 || k == Float64
    ensures TypeFromMapping(k) == "string" <==> k == String
  {
  }

  /** The table's container entries, in both directions. */
  lemma MappingTableContainers(k: Kind)
    ensures TypeFromMapping(k) == "array" <==> k == Slice
    ensures TypeFromMapping(k) == "object" <==> k == Struct || k == Map
  {
  }

  /** Exactly the kinds the table does not list map to the empty string. */
  lemma MappingTableUnlisted(k: Kind)
    ensures TypeFromMapping(k) == "" <==> IsUnmappedKind(k)
  {
  }

  /** Kinds whose descriptor carries no further structure that the inference looks at. */
  type ScalarKind = k: Kind | !IsCompositeKind(k) witness Bool

  /** A Go type descriptor, reduced to what the inference reads from it. */
  datatype Type =
    | Scalar(kind: ScalarKind)
    | SliceOf(elem: Type)
    | MapOf(val: Type)
    | StructOf(fields: seq<Field>)
    | PtrTo(target: Type)

  /** A struct field: its declared Go name, its `jschema` and `json` tag texts ("" when absent), and its type. */
  datatype Field = Field(name: string, jschema: string, json: string, ty: Type)

  /** `reflect.Type.Kind()`. */
  function KindOf(t: Type): (k: Kind)
    ensures t.Scalar? <==> !IsCompositeKind(k)
  {
    match t
    case Scalar(k) => k
    case SliceOf(_) => Slice
    case MapOf(_) => Map
    case StructOf(_) => Struct
    case PtrTo(_) => Ptr
  }
}
