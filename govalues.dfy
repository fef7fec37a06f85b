/**
 * A model of the part of Go's reflection that the binding engine and copyStruct use: the kinds
 * of field setValue tells apart, field values, the declaration of a struct type (fields in
 * declaration order with their tags, and the method sets of the type and of its pointer type),
 * and interface values that hold nothing, a struct, a pointer, or some other value.
 */
module GoValues {
  import opened Options
  import opened Strconv

  /** reflect.Kind, as far as setValue distinguishes kinds; every other kind is Other. */
  datatype Kind =
    | String | Bool
    | Int | Int8 | Int16 | Int32 | Int64
    | Uint | Uint8 | Uint16 | Uint32 | Uint64
    | Float32 | Float64
    | Other(name: string)
  {
    predicate IsSigned() { this == Int || this == Int8 || this == Int16 || this == Int32 || this == Int64 }

    predicate IsUnsigned() {
      this == Uint || this == Uint8 || this == Uint16 || this == Uint32 || this == Uint64
    }

    /** The width in bits of an integer kind; int and uint are 64 bits wide. */
    function Bits(): (b: nat)
      requires IsSigned() || IsUnsigned()
      ensures b >= 8
    {
      if this == Int8 || this == Uint8 then 8
      else if this == Int16 || this == Uint16 then 16
      else if this == Int32 || this == Uint32 then 32
      else 64
    }
  }

  /** The value held by a field; OpaqueV stands for the value of a slice, map, struct, ... field. */
  datatype Value =
    | StrV(s: string)
    | BoolV(b: bool)
    | IntV(i: int)
    | UintV(n: nat)
    | FloatV(r: real)
    | OpaqueV(data: string)

  /** The values a field of kind k can hold: integers within the width of their kind. */
  predicate HasKind(v: Value, k: Kind) {
    match k
    case String => v.StrV?
    case Bool => v.BoolV?
    case Int | Int8 | Int16 | Int32 | Int64 =>
      v.IntV? && -(Pow2(k.Bits() - 1) as int) <= v.i < Pow2(k.Bits() - 1)
    case Uint | Uint8 | Uint16 | Uint32 | Uint64 => v.UintV? && v.n < Pow2(k.Bits())
    case Float32 | Float64 => v.FloatV?
    case Other(_) => v.OpaqueV?
  }

  /** The zero value of a field of kind k. */
  function Zero(k: Kind): (v: Value)
    ensures HasKind(v, k)
  {
    match k
    case String => StrV("")
    case Bool => BoolV(false)
    case Int | Int8 | Int16 | Int32 | Int64 => IntV(0)
    case Uint | Uint8 | Uint16 | Uint32 | Uint64 => UintV(0)
    case Float32 | Float64 => FloatV(0.0)
    case Other(_) => OpaqueV("")
  }

  /**
   * A struct field: its name, its kind, whether its type is a defined type of that kind (such as
   * time.Duration, or `type Env string`) rather than the predeclared type itself, whether it is
   * exported, and its tag as key/value pairs.
   */
  datatype FieldDecl = FieldDecl(name: string, kind: Kind, definedType: bool, exported: bool, tags: map<string, string>)

  /** reflect.StructTag.Get: the value under key, or "" when the tag has no such key. */
  function TagGet(tags: map<string, string>, key: string): (v: string)
    ensures key !in tags ==> v == ""
  {
    if key in tags then tags[key] else ""
  }

  /**
   * A struct type: its fields in declaration order, the methods declared on the struct type
   * itself, those declared on its pointer type, and among them the methods whose call faults
   * (panics, or does not accept the argument it is given).
   */
  datatype StructType = StructType(
    fields: seq<FieldDecl>,
    valueMethods: set<string>,
    pointerMethods: set<string>,
    faulting: set<string>)
  {
    /**
     * The struct types the model covers: distinct field names (Go also allows several blank `_`
     * fields, which are left out) and non-empty method names, which Go guarantees.
     */
    predicate WellFormed() {
      && (forall i, j :: 0 <= i < j < |fields| ==> fields[i].name != fields[j].name)
      && "" !in valueMethods && "" !in pointerMethods
    }

    /** The method set of the type as handed over: a pointer also has the pointer-receiver methods. */
    function MethodSet(byPointer: bool): set<string> {
      if byPointer then valueMethods + pointerMethods else valueMethods
    }
  }

  /** Type.FieldByName: the position of the first field with that name. */
  function FieldIndex(fields: seq<FieldDecl>, name: string): (r: Option<nat>)
    ensures r.Some? ==> r.value < |fields| && fields[r.value].name == name
    ensures r.Some? ==> forall i :: 0 <= i < r.value ==> fields[i].name != name
    ensures r.None? ==> forall i :: 0 <= i < |fields| ==> fields[i].name != name
  {
    if fields == [] then None
    else if fields[0].name == name then Some(0)
    else match FieldIndex(fields[1..], name)
      case None => None
      case Some(i) => Some(i + 1)
  }

  /** With distinct field names, looking a field up by its name finds that field. */
  lemma FieldIndexAt(fields: seq<FieldDecl>, i: nat)
    requires i < |fields|
    requires forall a, b :: 0 <= a < b < |fields| ==> fields[a].name != fields[b].name
    ensures FieldIndex(fields, fields[i].name) == Some(i)
  {
    var r := FieldIndex(fields, fields[i].name);
    assert r.Some?;
    assert !(r.value < i);
  }

  /** A struct value of type t: one value per field, in declaration order, each of the field's kind. */
  predicate Conforms(t: StructType, values: seq<Value>) {
    |values| == |t.fields| && forall i :: 0 <= i < |values| ==> HasKind(values[i], t.fields[i].kind)
  }

  /** A struct value: its type and its field values, in declaration order. */
  datatype StructValue = StructValue(typ: StructType, values: seq<Value>)

  /** An interface{} value: nil, a struct, a pointer to a value, or a value of another kind. */
  datatype Iface =
    | Nil
    | Struct(v: StructValue)
    | Pointer(target: Iface)
    | Scalar(kind: Kind, value: Value)
  {
    /** A struct, or a pointer to one. */
    predicate IsStructLike() {
      Struct? || (Pointer? && target.Struct?)
    }

    /** The struct an IsStructLike value holds or points to. */
    function StructOf(): StructValue
      requires IsStructLike()
    {
      if Struct? then v else target.v
    }
  }
}
