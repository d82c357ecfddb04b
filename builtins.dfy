/** The array builtins of the evaluator (evaluator/builtins.go). Each
    checks the argument count first, then the argument type, and builds a
    fresh result without touching its arguments. */
module Builtins {
  import opened Wrappers
  import opened Strings
  import opened Object

  /** The count error; every builtin says "deberian ser 1", `billboard` too. */
  function ArityError(count: int): Value {
    Error("Numero equivocado de argumentos. Son: " + IntToString(count) + ", deberian ser 1")
  }

  /** The type error, naming a builtin and the expected kind. */
  function TypeError(name: string, expected: string, arg: Value): Value {
    Error("Tipo sin soporte para `" + name + "` no es " + expected + " sino: " + Type(arg))
  }

  /** `len`: element count of an array, byte count of a string. */
  function Len(args: seq<Value>): Value {
    if |args| != 1 then ArityError(|args|)
    else match args[0]
      case Array(elements) => Integer(|elements|)
      case Str(bytes) => Integer(|bytes|)
      case _ => TypeError("len", "string", args[0])
  }

  /** `debut`: the first element, or NULL for an empty array. */
  function Debut(args: seq<Value>): Value {
    if |args| != 1 then ArityError(|args|)
    else if !args[0].Array? then TypeError("debut", "array", args[0])
    else if |args[0].elements| > 0 then args[0].elements[0]
    else Null
  }

  /** `ttpd`: the last element, or NULL for an empty array. */
  function Ttpd(args: seq<Value>): Value {
    if |args| != 1 then ArityError(|args|)
    else if !args[0].Array? then TypeError("ttpd", "array", args[0])
    else if |args[0].elements| > 0 then args[0].elements[|args[0].elements| - 1]
    else Null
  }

  /** `rest`: a new array without the first element, or NULL for an empty
      array. Its type error names `ttpd`, as the source's message does. */
  function Rest(args: seq<Value>): Value {
    if |args| != 1 then ArityError(|args|)
    else if !args[0].Array? then TypeError("ttpd", "array", args[0])
    else if |args[0].elements| > 0 then Array(args[0].elements[1..])
    else Null
  }

  /** `billboard`: a new array with the second argument appended. Its type
      error names `ttpd`, as the source's message does. */
  function Billboard(args: seq<Value>): Value {
    if |args| != 2 then ArityError(|args|)
    else if !args[0].Array? then TypeError("ttpd", "array", args[0])
    else Array(args[0].elements + [args[1]])
  }

  /** The registry: `SpeakNow` returns NULL (its printing is output only). */
  function CallBuiltin(name: string, args: seq<Value>): (r: Option<Value>)
    ensures r.Some? <==> name in {"len", "debut", "ttpd", "rest", "billboard", "SpeakNow"}
  {
    if name == "len" then Some(Len(args))
    else if name == "debut" then Some(Debut(args))
    else if name == "ttpd" then Some(Ttpd(args))
    else if name == "rest" then Some(Rest(args))
    else if name == "billboard" then Some(Billboard(args))
    else if name == "SpeakNow" then Some(Null)
    else None
  }

  /** The argument count each builtin demands. */
  function Arity(name: string): nat {
    if name == "billboard" then 2 else 1
  }

  /** The count is checked before anything else: a wrong count gives the
      count error whatever the arguments are. */
  lemma ArityCheckedFirst(name: string, args: seq<Value>)
    requires name in {"len", "debut", "ttpd", "rest", "billboard"}
    requires |args| != Arity(name)
    ensures CallBuiltin(name, args) == Some(ArityError(|args|))
  {
  }

  /** `len` counts array elements and string bytes and rejects the rest. */
  lemma LenCounts(v: Value)
    ensures v.Array? ==> Len([v]) == Integer(|v.elements|)
    ensures v.Str? ==> Len([v]) == Integer(|v.bytes|)
    ensures !v.Array? && !v.Str? ==> Len([v]).Error? && Len([v]) == TypeError("len", "string", v)
  {
  }

  /** The array builtins reject every argument that is not an array. */
  lemma NonArrayRejected(v: Value, x: Value)
    requires !v.Array?
    ensures Debut([v]) == TypeError("debut", "array", v)
    ensures Ttpd([v]) == TypeError("ttpd", "array", v)
    ensures Rest([v]) == TypeError("ttpd", "array", v) && Billboard([v, x]) == TypeError("ttpd", "array", v)
  {
  }

  /** An empty array has no first, last or rest: each gives NULL. */
  lemma EmptyArray()
    ensures Debut([Array([])]) == Null && Ttpd([Array([])]) == Null && Rest([Array([])]) == Null
  {
  }

  /** `debut` and `rest` split a non-empty array: first element, then the
      others in order. */
  lemma DebutAndRestSplit(a: seq<Value>)
    requires |a| > 0
    ensures Rest([Array(a)]).Array?
    ensures [Debut([Array(a)])] + Rest([Array(a)]).elements == a
    ensures |Rest([Array(a)]).elements| == |a| - 1
  {
  }

  /** `billboard` keeps the old elements in order and puts the new one last,
      where `ttpd` finds it; the length grows by one. */
  lemma BillboardThenTtpd(a: seq<Value>, x: Value)
    ensures Billboard([Array(a), x]).Array?
    ensures Billboard([Array(a), x]).elements[..|a|] == a
    ensures Ttpd([Billboard([Array(a), x])]) == x
    ensures Len([Billboard([Array(a), x])]) == Integer(|a| + 1)
  {
  }

  /** Pushing then dropping the first element is dropping then pushing. */
  lemma RestBillboardCommute(a: seq<Value>, x: Value)
    requires |a| > 0
    ensures Rest([Billboard([Array(a), x])]) == Billboard([Rest([Array(a)]), x])
  {
    assert (a + [x])[1..] == a[1..] + [x];
  }
}
