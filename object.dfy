/** Runtime values of the evaluator (object/object.go), with their type tags
    and display strings. */
module Object {
  import opened Wrappers
  import opened Strings

  /** Integer, Float, Bool, Null and ReturnVal are the types of object.go; the
      Array, String, Builtin and Error variants stand for the evaluator's other
      object types, whose source is not part of this model. */
  datatype Value =
    | Integer(value: int)
    | Float(fvalue: real)
    | Bool(bvalue: bool)
    | Null
    | ReturnVal(inner: Value)
    | Str(bytes: seq<byte>)
    | Array(elements: seq<Value>)
    | Builtin(name: string)
    | Error(message: string)

  const INTEGER_OBJ := "INTEGER"
  const FLOAT_OBJ := "FLOAT"
  const BOOL_OBJ := "BOOL"
  const NULL_OBJ := "NULL"
  const RETURN_OBJ := "RETURN_VAL"
  const STRING_OBJ := "STRING"
  const ARRAY_OBJ := "ARRAY"
  const BUILTIN_OBJ := "BUILTIN"
  const ERROR_OBJ := "ERROR"

  /** `Type()`: the fixed tag of each variant. */
  function Type(v: Value): string {
    match v
    case Integer(_) => INTEGER_OBJ
    case Float(_) => FLOAT_OBJ
    case Bool(_) => BOOL_OBJ
    case Null => NULL_OBJ
    case ReturnVal(_) => RETURN_OBJ
    case Str(_) => STRING_OBJ
    case Array(_) => ARRAY_OBJ
    case Builtin(_) => BUILTIN_OBJ
    case Error(_) => ERROR_OBJ
  }

  /** `Inspect()` for the types of object.go: `%d` of an integer, `%t` of a
      boolean, "null", and a return value shows what it wraps. `None` where the
      rendering is outside the model (`%f` of a float, the other types). */
  function Inspect(v: Value): Option<string> {
    match v
    case Integer(i) => Some(IntToString(i))
    case Bool(b) => Some(if b then "true" else "false")
    case Null => Some("null")
    case ReturnVal(inner) => Inspect(inner)
    case _ => None
  }

  /** Two values have the same tag exactly when they are the same variant. */
  lemma TypeTagsDistinct(a: Value, b: Value)
    ensures Type(a) == Type(b) <==>
      (a.Integer? == b.Integer? && a.Float? == b.Float?
       && a.Bool? == b.Bool? && a.Null? == b.Null? && a.ReturnVal? == b.ReturnVal?
       && a.Str? == b.Str? && a.Array? == b.Array? && a.Builtin? == b.Builtin? && a.Error? == b.Error?)
  {
  }

  /** An integer's display string is its signed decimal rendering: it reads
      back as the same integer. */
  lemma InspectInteger(i: int)
    ensures Inspect(Integer(i)).Some?
    ensures IsDecimalText(Inspect(Integer(i)).value)
    ensures ParseInt(Inspect(Integer(i)).value) == i
  {
    IntRoundTrip(i);
  }

  /** A boolean shows as "true" or "false", and null as "null". */
  lemma InspectBoolAndNull(b: bool)
    ensures Inspect(Bool(b)) == Some("true") <==> b
    ensures Inspect(Bool(b)) == Some("false") <==> !b
    ensures Inspect(Null) == Some("null")
  {
  }

  /** A value wrapped in any number of return values. */
  function Wrapped(depth: nat, v: Value): (r: Value)
    ensures depth > 0 ==> r.ReturnVal?
  {
    if depth == 0 then v else ReturnVal(Wrapped(depth - 1, v))
  }

  /** A return value displays as the value it wraps, however deeply nested,
      while its own tag is always RETURN_VAL. */
  lemma {:induction false} InspectReturnVal(depth: nat, v: Value)
    ensures Inspect(Wrapped(depth, v)) == Inspect(v)
    ensures depth > 0 ==> Type(Wrapped(depth, v)) == RETURN_OBJ
  {
    if depth > 0 {
      InspectReturnVal(depth - 1, v);
    }
  }
}
