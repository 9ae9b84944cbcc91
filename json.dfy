/**
  Decoded JSON values as Python's `json` module hands them to the client
  (dict, list, str, int, float, bool, None), together with the two Python
  operations the client applies to them: membership (`key in x`) and
  subscription (`x[key]`), each with the exception Python raises when the
  operand does not support it.
 */
module Json {
  import opened Wrappers

  /** A decoded JSON value. Floats are kept as their literal text: the model never computes with them. */
  datatype Json =
    | Null
    | Bool(b: bool)
    | Int(i: int)
    | Float(literal: string)
    | Str(s: string)
    | Array(items: seq<Json>)
    | Object(members: map<string, Json>)

  /** The Python exception classes that the modelled code raises or lets through. */
  datatype Exception =
    | AttributeError   // an order type with no whitelist
    | TypeError        // `in` or `[]` applied to a value that does not support it
    | KeyError         // `[]` on a dict without the key
    | ValueError       // an enum number without a name
    | ParseError       // the schema parser rejected a payload

  /** `needle` occurs as a contiguous piece of `hay` (Python's `needle in hay` on two strings). */
  predicate IsSubstring(needle: string, hay: string)
    decreases |hay|
  {
    needle <= hay || (hay != [] && IsSubstring(needle, hay[1..]))
  }

  /** Python's `key in container` for a string key. */
  function Contains(container: Json, key: string): (r: Result<bool, Exception>)
    ensures r.Success? <==> (container.Object? || container.Array? || container.Str?)
    ensures container.Object? ==> r == Success(key in container.members)
    ensures container.Array? ==> r == Success(Str(key) in container.items)
    ensures container.Str? ==> r == Success(IsSubstring(key, container.s))
    ensures r.Failure? ==> r.error == TypeError
  {
    match container
    case Object(m) => Success(key in m)
    case Array(items) => Success(Str(key) in items)   // list membership compares with ==
    case Str(s) => Success(IsSubstring(key, s))
    case _ => Failure(TypeError)
  }

  /** Python's `container[key]` for a string key. */
  function Subscript(container: Json, key: string): (r: Result<Json, Exception>)
    ensures r.Success? <==> (container.Object? && key in container.members)
    ensures r.Success? ==> r.value == container.members[key]
    ensures container.Object? && key !in container.members ==> r == Failure(KeyError)
  {
    match container
    case Object(m) => if key in m then Success(m[key]) else Failure(KeyError)
    case _ => Failure(TypeError)   // list indices must be integers; str and scalars likewise refuse a str key
  }
}
