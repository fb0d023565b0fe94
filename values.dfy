/**
 * Python objects as the proxy handles them: configuration trees, request
 * context attributes, user-info documents and log entries. Dictionaries are
 * keyed by strings; their iteration order is not modelled.
 */
module Values {
  import opened PyStr

  datatype Value =
    | Null                                   // None
    | Bool(b: bool)
    | Int(i: int)
    | Float(repr: string)                    // a float, carried by its repr()
    | Str(s: string)
    | List(items: seq<Value>)
    | Dict(entries: map<string, Value>)
    | Object(typeName: string, attrs: map<string, Value>)  // an instance and its attributes

  /** An exception: `type(e).__name__`, `str(e)`, and the names of the classes
    * its class derives from (its method resolution order after itself). */
  datatype PyException = PyException(typeName: string, text: string, bases: seq<string>)

  /** The bases of a built-in exception deriving directly from `Exception`. */
  const ExceptionBases: seq<string> := ["Exception", "BaseException"]

  /** `isinstance(e, cls)` for an exception class named `cls`. */
  predicate IsInstance(e: PyException, cls: string) {
    e.typeName == cls || cls in e.bases
  }

  /** `type(v).__name__`. */
  function TypeName(v: Value): string {
    match v
    case Null => "NoneType"
    case Bool(_) => "bool"
    case Int(_) => "int"
    case Float(_) => "float"
    case Str(_) => "str"
    case List(_) => "list"
    case Dict(_) => "dict"
    case Object(t, _) => t
  }

  /** `bool(v)`. Instances define neither `__bool__` nor `__len__`, so they are true. */
  predicate Truthy(v: Value) {
    match v
    case Null => false
    case Bool(b) => b
    case Int(i) => i != 0
    case Float(r) => r != "0.0" && r != "-0.0"
    case Str(s) => s != ""
    case List(items) => items != []
    case Dict(m) => m != map[]
    case Object(_, _) => true
  }

  predicate IsScalar(v: Value) {
    v.Null? || v.Bool? || v.Int? || v.Float? || v.Str?
  }

  /** A value `str()` is modelled for. */
  type Scalar = v: Value | IsScalar(v) witness Null

  /** `str(v)` for a scalar. */
  function ScalarStr(v: Scalar): string {
    match v
    case Null => "None"
    case Bool(b) => if b then "True" else "False"
    case Int(i) => IntToString(i)
    case Float(r) => r
    case Str(s) => s
  }

  /** A map of strings as a Python dict of `str` values. */
  function StrDict(m: map<string, string>): (r: map<string, Value>)
    ensures r.Keys == m.Keys && forall k :: k in m ==> r[k] == Str(m[k])
  {
    map k | k in m :: Str(m[k])
  }

  /** The error `obj.name` raises when `obj` has no such attribute. */
  function NoAttribute(v: Value, name: string): PyException {
    PyException("AttributeError", "'" + TypeName(v) + "' object has no attribute '" + name + "'", ExceptionBases)
  }
}
