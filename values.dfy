/** The Python values that template arguments resolve to, as far as the chart
    engine looks at them. */
module Values {

  /** A resolved template argument.  `Null` is Python's `None` (also what an
      unresolvable variable becomes), `Num` carries the number together with the
      text Python's `str()` gives for it, `List` is any iterable other than a
      string or a dictionary, and `Dict` lists a dictionary's entries in its
      iteration order. */
  datatype Value =
    | Null
    | Str(s: string)
    | Num(x: real, text: string)
    | List(items: seq<Value>)
    | Dict(entries: seq<(Value, Value)>)

  /** Python truthiness. */
  predicate Truthy(v: Value)
  {
    match v
    case Null => false
    case Str(s) => s != []
    case Num(x, _) => x != 0.0
    case List(items) => items != []
    case Dict(entries) => entries != []
  }

  /** A value Python 2 does not iterate with `__iter__` (strings have none). */
  predicate Scalar(v: Value)
  {
    !v.List? && !v.Dict?
  }

  predicate AllScalar(vs: seq<Value>)
  {
    forall i :: 0 <= i < |vs| ==> Scalar(vs[i])
  }
}
