/**
 * JSON-like JavaScript values as they occur in a locale message catalog,
 * together with the `typeof` operator and the three type guards the type
 * generator imports (`isObject`, `isArray`, `isFunction`).
 */
module JsValue {

  /** The own enumerable properties of an object, in enumeration order. */
  type Fields = seq<(string, Value)>

  /**
   * A message value. `Func` stands for any function-valued message (its code
   * is opaque); `Arr` keeps its elements although the generator never looks
   * at them; `Obj` holds the object's own keys in the order `for...in`
   * enumerates them.
   */
  datatype Value =
    | Undefined
    | Null
    | Bool(b: bool)
    | Num(n: real)
    | Str(s: string)
    | Func
    | Arr(items: seq<Value>)
    | Obj(fields: Fields)

  /** The keys of an object, in enumeration order (`Object.keys`). */
  function Keys(fields: Fields): (keys: seq<string>)
    ensures |keys| == |fields|
    ensures forall i :: 0 <= i < |fields| ==> keys[i] == fields[i].0
  {
    seq(|fields|, i requires 0 <= i < |fields| => fields[i].0)
  }

  /** JavaScript's `typeof` operator on a value. */
  function TypeOf(v: Value): (name: string)
    ensures name in {"undefined", "object", "boolean", "number", "string", "function"}
    ensures name == "undefined" <==> v.Undefined?
    ensures name == "boolean" <==> v.Bool?
    ensures name == "number" <==> v.Num?
    ensures name == "string" <==> v.Str?
    ensures name == "object" <==> v.Null? || v.Arr? || v.Obj?
    ensures name == "function" <==> v.Func?
  {
    match v
    case Undefined => "undefined"
    case Null => "object"
    case Bool(_) => "boolean"
    case Num(_) => "number"
    case Str(_) => "string"
    case Func => "function"
    case Arr(_) => "object"
    case Obj(_) => "object"
  }

  /** `isObject`: a non-null value whose `typeof` is "object". */
  function IsObject(v: Value): (b: bool)
    ensures b <==> v.Arr? || v.Obj?
  {
    v != Null && TypeOf(v) == "object"
  }

  /** `isArray`, i.e. `Array.isArray`. */
  function IsArray(v: Value): (b: bool)
    ensures b ==> IsObject(v)
    ensures b <==> v.Arr?
  {
    v.Arr?
  }

  /** `isFunction`: a value whose `typeof` is "function". */
  function IsFunction(v: Value): (b: bool)
    ensures b <==> v.Func?
  {
    TypeOf(v) == "function"
  }

  /**
   * A size that decreases from an object to each of its property values;
   * the recursive definitions over `Fields` use it as their measure.
   */
  function Size(v: Value): (n: nat)
    ensures n >= 1
    decreases v
  {
    match v
    case Obj(fields) => 1 + SizeFrom(fields, 0)
    case _ => 1
  }

  function SizeFrom(fields: Fields, i: nat): nat
    requires i <= |fields|
    decreases Obj(fields), |fields| - i
  {
    if i == |fields| then 0 else Size(fields[i].1) + SizeFrom(fields, i + 1)
  }

  /** The total size of the property values of an object. */
  function FieldsSize(fields: Fields): nat
  {
    SizeFrom(fields, 0)
  }

  lemma {:induction false} SizeFromShift(fields: Fields, i: nat)
    requires 1 <= i <= |fields|
    ensures SizeFrom(fields, i) == SizeFrom(fields[1..], i - 1)
    decreases |fields| - i
  {
    if i < |fields| {
      SizeFromShift(fields, i + 1);
    }
  }

  /** The size of an object splits into its first property and the rest. */
  lemma {:induction false} FieldsSizeCons(fields: Fields)
    requires fields != []
    ensures FieldsSize(fields) == Size(fields[0].1) + FieldsSize(fields[1..])
  {
    SizeFromShift(fields, 1);
  }
}
