/** `ChartDataNode.resolve`: the `chart-data` tag's arguments turned into the
    numeric datasets of the chart. */
module Datasets {
  import opened Wrappers
  import opened Values
  import opened Strings

  /** `safefloat(v)`: `float(v)`, or `None` where Python raises.  Converting a
      string is the parameter `parse` (Python's float syntax is not modelled). */
  function SafeFloat(v: Value, parse: string -> Option<real>): (r: Option<real>)
    ensures v.Num? ==> r == Some(v.x)
    ensures v.Null? || v.List? || v.Dict? ==> r.None?
  {
    match v
    case Num(x, _) => Some(x)
    case Str(s) => parse(s)
    case _ => None
  }

  /** `filter(None, xs)`: drops the `None`s and, being a truthiness test, the
      zeros too. */
  function Truthful(xs: seq<Option<real>>): (r: seq<real>)
    ensures |r| <= |xs|
    ensures forall i :: 0 <= i < |r| ==> r[i] != 0.0
  {
    if xs == [] then []
    else (if xs[0].Some? && xs[0].value != 0.0 then [xs[0].value] else []) + Truthful(xs[1..])
  }

  /** The filter keeps every non-zero number exactly as often as it occurs. */
  lemma {:induction false} TruthfulCounts(xs: seq<Option<real>>)
    ensures forall x :: x != 0.0 ==> multiset(Truthful(xs))[x] == multiset(xs)[Some(x)]
    ensures multiset(Truthful(xs))[0.0] == 0
    decreases |xs|
  {
    if xs != [] {
      TruthfulCounts(xs[1..]);
      assert xs == [xs[0]] + xs[1..];
      assert multiset(xs) == multiset([xs[0]]) + multiset(xs[1..]);
    }
  }

  /** The filter works item by item: filtering a concatenation filters each
      part and keeps the parts in order. */
  lemma {:induction false} TruthfulAppend(xs: seq<Option<real>>, ys: seq<Option<real>>)
    ensures Truthful(xs + ys) == Truthful(xs) + Truthful(ys)
    decreases |xs|
  {
    if xs == [] {
      assert xs + ys == ys;
    } else {
      assert (xs + ys)[1..] == xs[1..] + ys;
      TruthfulAppend(xs[1..], ys);
    }
  }

  /** One item: a non-zero number is kept, a zero or a `None` is dropped. */
  lemma TruthfulSingle(x: Option<real>)
    ensures Truthful([x]) == if x.Some? && x.value != 0.0 then [x.value] else []
  {
    assert [x][1..] == [];
  }

  /** Data with no zero and no `None` passes the filter unchanged, in order. */
  lemma {:induction false} TruthfulKeepsAll(xs: seq<Option<real>>)
    requires forall i :: 0 <= i < |xs| ==> xs[i].Some? && xs[i].value != 0.0
    ensures |Truthful(xs)| == |xs|
    ensures forall i :: 0 <= i < |xs| ==> Truthful(xs)[i] == xs[i].value
    decreases |xs|
  {
    if xs != [] {
      TruthfulKeepsAll(xs[1..]);
    }
  }

  /** What `map(safefloat, ...)` sees when it iterates a value; `None` where
      Python cannot iterate it. */
  function Iterated(v: Value): Option<seq<Value>>
  {
    match v
    case Str(s) => None
    case List(items) => Some(items)
    case Dict(entries) => Some(seq(|entries|, i requires 0 <= i < |entries| => entries[i].0))
    case _ => None
  }

  /** The pieces of a comma-separated string, as strings. */
  function Pieces(s: string): (r: seq<Value>)
    ensures |r| == |Split(s, ',')| && forall i :: 0 <= i < |r| ==> r[i] == Str(Split(s, ',')[i])
  {
    var parts := Split(s, ',');
    seq(|parts|, i requires 0 <= i < |parts| => Str(parts[i]))
  }

  function Floats(vs: seq<Value>, parse: string -> Option<real>): (r: seq<Option<real>>)
    ensures |r| == |vs| && forall i :: 0 <= i < |vs| ==> r[i] == SafeFloat(vs[i], parse)
  {
    seq(|vs|, i requires 0 <= i < |vs| => SafeFloat(vs[i], parse))
  }

  /** One argument of `chart-data`: an unresolvable variable (`None` here) gives
      no data, a string is split on `,`, any other iterable is converted item by
      item; a number or `None` cannot be iterated and raises. */
  function ResolveDataset(arg: Option<Value>, parse: string -> Option<real>): (r: Result<seq<real>>)
    ensures r.Err? <==> arg.Some? && (arg.value.Null? || arg.value.Num?)
    ensures arg.None? ==> r == Ok([])
    ensures r.Ok? ==> forall i :: 0 <= i < |r.value| ==> r.value[i] != 0.0
  {
    if arg.None? then Ok([])
    else match arg.value
      case Str(s) => Ok(Truthful(Floats(Pieces(s), parse)))
      case List(items) => Ok(Truthful(Floats(items, parse)))
      case Dict(entries) => Ok(Truthful(Floats(Iterated(arg.value).value, parse)))
      case _ => Err(TypeMismatch)
  }

  /** A string dataset holds each non-zero number its pieces parse to, as often
      as it occurs, and nothing else. */
  lemma ResolveString(s: string, parse: string -> Option<real>)
    ensures var r := ResolveDataset(Some(Str(s)), parse).value;
      forall x :: x != 0.0 ==>
        multiset(r)[x] == multiset(Floats(Pieces(s), parse))[Some(x)]
  {
    TruthfulCounts(Floats(Pieces(s), parse));
  }

  /** A list dataset holds each non-zero number its items convert to, as often
      as it occurs, and nothing else. */
  lemma ResolveList(items: seq<Value>, parse: string -> Option<real>)
    ensures var r := ResolveDataset(Some(List(items)), parse).value;
      && multiset(r)[0.0] == 0
      && forall x :: x != 0.0 ==> multiset(r)[x] == multiset(Floats(items, parse))[Some(x)]
  {
    TruthfulCounts(Floats(items, parse));
  }

  /** A list of non-zero numbers is the dataset itself, in the same order. */
  lemma ResolveNumbers(items: seq<Value>, parse: string -> Option<real>)
    requires forall i :: 0 <= i < |items| ==> items[i].Num? && items[i].x != 0.0
    ensures var r := ResolveDataset(Some(List(items)), parse).value;
      |r| == |items| && forall i :: 0 <= i < |items| ==> r[i] == items[i].x
  {
    TruthfulKeepsAll(Floats(items, parse));
  }

  /** A dictionary dataset converts its keys, in iteration order. */
  lemma ResolveDict(entries: seq<(Value, Value)>, parse: string -> Option<real>)
    ensures var r := ResolveDataset(Some(Dict(entries)), parse).value;
      var keys := Floats(seq(|entries|, i requires 0 <= i < |entries| => entries[i].0), parse);
      && multiset(r)[0.0] == 0
      && forall x :: x != 0.0 ==> multiset(r)[x] == multiset(keys)[Some(x)]
  {
    TruthfulCounts(Floats(seq(|entries|, i requires 0 <= i < |entries| => entries[i].0), parse));
  }

  /** `resolve(context)`: one dataset per argument, in order; the first
      argument that raises aborts the whole tag. */
  method Resolve(args: seq<Option<Value>>, parse: string -> Option<real>) returns (r: Result<seq<seq<real>>>)
    ensures r.Ok? <==> forall i :: 0 <= i < |args| ==> ResolveDataset(args[i], parse).Ok?
    ensures r.Ok? ==> |r.value| == |args|
    ensures r.Ok? ==> forall i :: 0 <= i < |args| ==> ResolveDataset(args[i], parse) == Ok(r.value[i])
  {
    var resolved: seq<seq<real>> := [];
    var i := 0;
    while i < |args|
      invariant 0 <= i <= |args| && |resolved| == i
      invariant forall j :: 0 <= j < i ==> ResolveDataset(args[j], parse) == Ok(resolved[j])
    {
      var data := ResolveDataset(args[i], parse);
      if data.Err? {
        return Err(data.error);
      }
      resolved := resolved + [data.value];
      i := i + 1;
    }
    return Ok(resolved);
  }
}
