/** The string helpers of the chart module: Python's `join` and `split`,
    `smart_join`, `flatten`, `str.replace` for one character, decimal rendering of
    an axis index and the `%` formatting that fills the axis placeholder. */
module Strings {
  import opened Wrappers
  import opened Values

  /** Python's `sep.join(parts)`. */
  function Join(sep: string, parts: seq<string>): string
    decreases |parts|
  {
    if |parts| == 0 then ""
    else if |parts| == 1 then parts[0]
    else parts[0] + sep + Join(sep, parts[1..])
  }

  lemma JoinCons(sep: string, x: string, tail: seq<string>)
    ensures Join(sep, [x] + tail) == if tail == [] then x else x + sep + Join(sep, tail)
  {
    assert ([x] + tail)[1..] == tail;
  }

  /** Python's `s.split(c)` with a one-character separator: there is always at
      least one piece, and no piece contains the separator. */
  function Split(s: string, c: char): (r: seq<string>)
    ensures |r| >= 1
    ensures forall i :: 0 <= i < |r| ==> c !in r[i]
    decreases |s|
  {
    if s == [] then [""]
    else
      var rest := Split(s[1..], c);
      if s[0] == c then [""] + rest
      else [[s[0]] + rest[0]] + rest[1..]
  }

  /** Joining the pieces of a split with the separator gives the string back. */
  lemma {:induction false} JoinSplit(s: string, c: char)
    ensures Join([c], Split(s, c)) == s
    decreases |s|
  {
    if s != [] {
      JoinSplit(s[1..], c);
      var rest := Split(s[1..], c);
      if s[0] == c {
        JoinCons([c], "", rest);
        assert s == [c] + s[1..];
      } else {
        JoinSplitStep(s[0], rest, c, s[1..]);
        assert s == [s[0]] + s[1..];
      }
    }
  }

  lemma JoinSplitStep(x: char, rest: seq<string>, c: char, tail: string)
    requires |rest| >= 1 && Join([c], rest) == tail
    ensures Join([c], [[x] + rest[0]] + rest[1..]) == [x] + tail
  {
    JoinCons([c], [x] + rest[0], rest[1..]);
    JoinCons([c], rest[0], rest[1..]);
    assert [rest[0]] + rest[1..] == rest;
  }

  lemma {:induction false} SplitAfterPlain(x: string, s: string, c: char)
    requires c !in x
    ensures Split(x + s, c) == [x + Split(s, c)[0]] + Split(s, c)[1..]
    decreases |x|
  {
    if x == [] {
      assert x + s == s;
      assert x + Split(s, c)[0] == Split(s, c)[0];
      assert [Split(s, c)[0]] + Split(s, c)[1..] == Split(s, c);
    } else {
      SplitAfterPlain(x[1..], s, c);
      assert x[0] in x;
      assert (x + s)[0] == x[0];
      assert (x + s)[1..] == x[1..] + s;
      var rest := Split(x[1..] + s, c);
      assert rest[0] == x[1..] + Split(s, c)[0];
      assert rest[1..] == Split(s, c)[1..];
      assert Split(x + s, c) == [[x[0]] + rest[0]] + rest[1..];
      assert [x[0]] + (x[1..] + Split(s, c)[0]) == x + Split(s, c)[0];
    }
  }

  /** Splitting a join of separator-free pieces gives the pieces back. */
  lemma {:induction false} SplitJoin(parts: seq<string>, c: char)
    requires |parts| >= 1
    requires forall i :: 0 <= i < |parts| ==> c !in parts[i]
    ensures Split(Join([c], parts), c) == parts
    decreases |parts|
  {
    if |parts| == 1 {
      SplitAfterPlain(parts[0], "", c);
      assert parts[0] + "" == parts[0];
      assert Split("", c) == [""];
      assert Join([c], parts) == parts[0];
    } else {
      var tail := parts[1..];
      SplitJoin(tail, c);
      JoinCons([c], parts[0], tail);
      assert [parts[0]] + tail == parts;
      var rest := [c] + Join([c], tail);
      SplitAfterPlain(parts[0], rest, c);
      assert parts[0] + [c] + Join([c], tail) == parts[0] + rest;
      assert rest[0] == c && rest[1..] == Join([c], tail);
      assert Split(rest, c) == [""] + tail;
      assert Split(rest, c)[0] == "" && Split(rest, c)[1..] == tail;
      assert parts[0] + "" == parts[0];
      assert Split(Join([c], parts), c) == [parts[0] + ""] + tail;
    }
  }

  /** The arguments Python's `smart_join` keeps: every one that is not `None`. */
  function Present(args: seq<Value>): (r: seq<Value>)
    ensures forall i :: 0 <= i < |r| ==> r[i] != Null
    ensures AllScalar(args) ==> AllScalar(r)
    ensures |r| <= |args|
  {
    if args == [] then []
    else (if args[0] == Null then [] else [args[0]]) + Present(args[1..])
  }

  lemma {:induction false} PresentAppend(a: seq<Value>, b: seq<Value>)
    ensures Present(a + b) == Present(a) + Present(b)
    decreases |a|
  {
    if a != [] {
      PresentAppend(a[1..], b);
      assert (a + b)[1..] == a[1..] + b;
    } else {
      assert a + b == b;
    }
  }

  /** Python's `str(v)`, which is also what `%s` and `smart_str` give: lists and
      dictionaries render as their `repr`. */
  function Text(v: Value): string
  {
    match v
    case Null => "None"
    case Str(s) => s
    case Num(_, t) => t
    case List(items) => "[" + Join(", ", seq(|items|, i requires 0 <= i < |items| => Repr(items[i]))) + "]"
    case Dict(entries) =>
      "{" + Join(", ", seq(|entries|, i requires 0 <= i < |entries| =>
        Repr(entries[i].0) + ": " + Repr(entries[i].1))) + "}"
  }

  /** Python's `repr(v)`: a string is quoted (escapes inside it are not modelled). */
  function Repr(v: Value): string
  {
    match v
    case Str(s) => "'" + s + "'"
    case Null => "None"
    case Num(_, t) => t
    case List(items) => "[" + Join(", ", seq(|items|, i requires 0 <= i < |items| => Repr(items[i]))) + "]"
    case Dict(entries) =>
      "{" + Join(", ", seq(|entries|, i requires 0 <= i < |entries| =>
        Repr(entries[i].0) + ": " + Repr(entries[i].1))) + "}"
  }

  function Texts(vs: seq<Value>): (r: seq<string>)
    ensures |r| == |vs| && forall i :: 0 <= i < |vs| ==> r[i] == Text(vs[i])
  {
    seq(|vs|, i requires 0 <= i < |vs| => Text(vs[i]))
  }

  lemma TextsAppend(a: seq<Value>, b: seq<Value>)
    ensures Texts(a + b) == Texts(a) + Texts(b)
  {
    var l, r := Texts(a + b), Texts(a) + Texts(b);
    forall i | 0 <= i < |l| ensures l[i] == r[i] {
      if i >= |a| {
        assert (a + b)[i] == b[i - |a|];
      }
    }
  }

  /** The module's `smart_join(sep, *args)`: the `str()` of every argument that is
      not `None`, joined with `sep`. */
  function SmartJoin(sep: string, args: seq<Value>): string
  {
    Join(sep, Texts(Present(args)))
  }

  /** A `None` argument leaves no trace in the joined text, not even a separator. */
  lemma SmartJoinSkipsNone(sep: string, a: seq<Value>, b: seq<Value>)
    ensures SmartJoin(sep, a + [Null] + b) == SmartJoin(sep, a + b)
  {
    PresentAppend(a + [Null], b);
    PresentAppend(a, [Null]);
    PresentAppend(a, b);
    assert Present([Null]) == [];
    assert Present(a + [Null]) == Present(a);
  }

  /** Arguments a one-character `smart_join` can be split back into: at least
      one is not `None`, and none of those renders with the separator in it. */
  predicate Separable(c: char, args: seq<Value>)
  {
    |Present(args)| >= 1 && forall i :: 0 <= i < |args| && args[i] != Null ==> c !in Text(args[i])
  }

  /** Splitting a one-character `smart_join` recovers the rendered arguments that
      were not `None`. */
  lemma SmartJoinSplit(c: char, args: seq<Value>)
    ensures Separable(c, args) ==> Split(SmartJoin([c], args), c) == Texts(Present(args))
  {
    if Separable(c, args) {
      PresentOnlyFrom(args);
      SplitJoin(Texts(Present(args)), c);
    }
  }

  lemma {:induction false} PresentOnlyFrom(args: seq<Value>)
    ensures forall i :: 0 <= i < |Present(args)| ==> Present(args)[i] in args
    decreases |args|
  {
    if args != [] {
      PresentOnlyFrom(args[1..]);
      forall i | 0 <= i < |Present(args)| ensures Present(args)[i] in args {
        var head := if args[0] == Null then [] else [args[0]];
        assert Present(args) == head + Present(args[1..]);
        if i >= |head| {
          assert Present(args)[i] == Present(args[1..])[i - |head|];
          assert Present(args)[i] in args[1..];
        }
      }
    }
  }

  /** The module's `flatten`: nested iterables are spliced in place, depth first;
      a dictionary contributes its keys.  Python 2 strings have no `__iter__`, so
      strings are kept whole. */
  function Flatten(vs: seq<Value>): (r: seq<Value>)
    ensures AllScalar(r)
    decreases vs
  {
    if vs == [] then [] else FlattenOne(vs[0]) + Flatten(vs[1..])
  }

  /** What one item of the iteration contributes. */
  function FlattenOne(v: Value): (r: seq<Value>)
    ensures AllScalar(r)
    decreases v
  {
    match v
    case List(items) => Flatten(items)
    case Dict(entries) => DictKeys(entries)
    case _ => [v]
  }

  /** A dictionary's keys in iteration order; keys are hashable, so a list or
      dictionary key cannot occur and is skipped. */
  function DictKeys(entries: seq<(Value, Value)>): (r: seq<Value>)
    ensures AllScalar(r) && |r| <= |entries|
    ensures forall i :: 0 <= i < |entries| && Scalar(entries[i].0) ==> entries[i].0 in r
  {
    if entries == [] then []
    else (if Scalar(entries[0].0) then [entries[0].0] else []) + DictKeys(entries[1..])
  }

  /** Iterating a dictionary yields nothing but its keys. */
  lemma {:induction false} DictKeysOnlyKeys(entries: seq<(Value, Value)>)
    ensures forall v :: v in DictKeys(entries) ==> exists i :: 0 <= i < |entries| && entries[i].0 == v
    decreases |entries|
  {
    if entries != [] {
      DictKeysOnlyKeys(entries[1..]);
      forall v | v in DictKeys(entries) ensures exists i :: 0 <= i < |entries| && entries[i].0 == v {
        assert DictKeys(entries) == (if Scalar(entries[0].0) then [entries[0].0] else []) + DictKeys(entries[1..]);
        if v != entries[0].0 {
          assert v in DictKeys(entries[1..]);
          var j :| 0 <= j < |entries[1..]| && entries[1..][j].0 == v;
          assert entries[j + 1].0 == v;
        }
      }
    }
  }

  /** Every key of a Python dictionary is hashable, so none is a list or a
      dictionary: iterating it yields exactly its keys, in iteration order. */
  lemma {:induction false} DictKeysInOrder(entries: seq<(Value, Value)>)
    requires forall i :: 0 <= i < |entries| ==> Scalar(entries[i].0)
    ensures |DictKeys(entries)| == |entries|
    ensures forall i :: 0 <= i < |entries| ==> DictKeys(entries)[i] == entries[i].0
    decreases |entries|
  {
    if entries != [] {
      DictKeysInOrder(entries[1..]);
      assert DictKeys(entries) == [entries[0].0] + DictKeys(entries[1..]);
    }
  }

  /** A sequence with no nested iterable is its own flattening. */
  lemma {:induction false} FlattenScalars(vs: seq<Value>)
    requires AllScalar(vs)
    ensures Flatten(vs) == vs
    decreases |vs|
  {
    if vs != [] {
      FlattenScalars(vs[1..]);
      assert [vs[0]] + vs[1..] == vs;
    }
  }

  lemma {:induction false} FlattenAppend(a: seq<Value>, b: seq<Value>)
    ensures Flatten(a + b) == Flatten(a) + Flatten(b)
    decreases |a|
  {
    if a == [] {
      assert a + b == b;
    } else {
      var ab := a + b;
      assert ab[0] == a[0] && ab[1..] == a[1..] + b;
      assert Flatten(ab) == FlattenOne(a[0]) + Flatten(a[1..] + b);
      FlattenAppend(a[1..], b);
      assert Flatten(a) == FlattenOne(a[0]) + Flatten(a[1..]);
    }
  }

  /** A nested list is spliced in place: its items, themselves flattened, come
      between what precedes and what follows it. */
  lemma FlattenNested(a: seq<Value>, items: seq<Value>, b: seq<Value>)
    ensures Flatten(a + [List(items)] + b) == Flatten(a) + Flatten(items) + Flatten(b)
  {
    FlattenAppend(a + [List(items)], b);
    FlattenAppend(a, [List(items)]);
    assert Flatten([List(items)]) == FlattenOne(List(items)) + Flatten([]);
  }

  /** A dictionary is replaced, in place, by its keys in iteration order. */
  lemma FlattenDict(a: seq<Value>, entries: seq<(Value, Value)>, b: seq<Value>)
    ensures Flatten(a + [Dict(entries)] + b) == Flatten(a) + DictKeys(entries) + Flatten(b)
  {
    FlattenAppend(a + [Dict(entries)], b);
    FlattenAppend(a, [Dict(entries)]);
    assert Flatten([Dict(entries)]) == FlattenOne(Dict(entries)) + Flatten([]);
  }

  /** With hashable keys, as in every Python dictionary, flattening a dictionary
      yields exactly its keys, in iteration order. */
  lemma FlattenDictKeys(entries: seq<(Value, Value)>)
    requires forall i :: 0 <= i < |entries| ==> Scalar(entries[i].0)
    ensures Flatten([Dict(entries)]) == seq(|entries|, i requires 0 <= i < |entries| => entries[i].0)
  {
    FlattenDict([], entries, []);
    assert [] + [Dict(entries)] + [] == [Dict(entries)];
    DictKeysInOrder(entries);
  }

  /** Flattening twice is flattening once. */
  lemma FlattenIdempotent(vs: seq<Value>)
    ensures Flatten(Flatten(vs)) == Flatten(vs)
  {
    FlattenScalars(Flatten(vs));
  }

  /** Python's `s.replace(a, b)` for single characters. */
  function ReplaceChar(s: string, a: char, b: char): (r: string)
    ensures |r| == |s|
    ensures forall i :: 0 <= i < |s| ==> r[i] == if s[i] == a then b else s[i]
  {
    if s == [] then []
    else [if s[0] == a then b else s[0]] + ReplaceChar(s[1..], a, b)
  }

  lemma {:induction false} ReplaceCharAppend(s: string, t: string, a: char, b: char)
    ensures ReplaceChar(s + t, a, b) == ReplaceChar(s, a, b) + ReplaceChar(t, a, b)
  {
    var l := ReplaceChar(s + t, a, b);
    var r := ReplaceChar(s, a, b) + ReplaceChar(t, a, b);
    assert |l| == |r|;
    forall i | 0 <= i < |l| ensures l[i] == r[i] {
      if i < |s| {
        assert (s + t)[i] == s[i];
      } else {
        assert (s + t)[i] == t[i - |s|];
      }
    }
  }

  function DigitChar(d: nat): (c: char)
    requires d < 10
  {
    ('0' as int + d) as char
  }

  predicate IsDigit(c: char)
  {
    '0' <= c <= '9'
  }

  /** Python's `str(n)` for a non-negative integer. */
  function NatText(n: nat): (r: string)
    ensures |r| >= 1
    ensures forall i :: 0 <= i < |r| ==> IsDigit(r[i])
  {
    if n < 10 then [DigitChar(n)] else NatText(n / 10) + [DigitChar(n % 10)]
  }

  /** The number a string of decimal digits denotes. */
  function DecimalValue(s: string): nat
    requires forall i :: 0 <= i < |s| ==> IsDigit(s[i])
  {
    if s == [] then 0
    else
      assert IsDigit(s[|s| - 1]);
      DecimalValue(s[..|s| - 1]) * 10 + (s[|s| - 1] as int - '0' as int)
  }

  /** Reading the decimal text of `n` back gives `n`: the axis index is rendered
      without loss. */
  lemma {:induction false} NatTextRoundTrip(n: nat)
    ensures DecimalValue(NatText(n)) == n
  {
    if n >= 10 {
      NatTextRoundTrip(n / 10);
      var r := NatText(n);
      assert r[..|r| - 1] == NatText(n / 10);
    }
  }

  /** `p + r` lifted to a formatting result. */
  function Prepend(p: string, r: Result<string>): Result<string>
  {
    if r.Ok? then Ok(p + r.value) else r
  }

  lemma PrependPrepend(a: string, b: string, r: Result<string>)
    ensures Prepend(a, Prepend(b, r)) == Prepend(a + b, r)
  {
    if r.Ok? {
      assert a + (b + r.value) == (a + b) + r.value;
    }
  }

  /** Python's `t % arg` with a single string argument.  `%s` takes the argument
      and `%%` is a literal percent sign; another conversion, a `%` at the end, a
      second `%s` ("not enough arguments") or no `%s` at all ("not all arguments
      converted") is an error. */
  function Format(t: string, arg: string): Result<string>
  {
    Interpolate(t, arg, false)
  }

  function Interpolate(t: string, arg: string, used: bool): Result<string>
    decreases |t|
  {
    if t == [] then (if used then Ok("") else Err(FormatError))
    else if t[0] != '%' then Prepend([t[0]], Interpolate(t[1..], arg, used))
    else if |t| >= 2 && t[1] == '%' then Prepend("%", Interpolate(t[2..], arg, used))
    else if |t| >= 2 && t[1] == 's' && !used then Prepend(arg, Interpolate(t[2..], arg, true))
    else Err(FormatError)
  }

  /** Doubles every `%`, so that `%` formatting gives the text back. */
  function EscapePercent(s: string): string
  {
    if s == [] then []
    else (if s[0] == '%' then "%%" else [s[0]]) + EscapePercent(s[1..])
  }

  lemma {:induction false} InterpolateEscaped(p: string, rest: string, arg: string, used: bool)
    ensures Interpolate(EscapePercent(p) + rest, arg, used) == Prepend(p, Interpolate(rest, arg, used))
    decreases |p|
  {
    if p == [] {
      assert EscapePercent(p) + rest == rest;
      var r := Interpolate(rest, arg, used);
      assert r.Ok? ==> p + r.value == r.value;
    } else {
      InterpolateEscaped(p[1..], rest, arg, used);
      var tail := EscapePercent(p[1..]) + rest;
      var lead := if p[0] == '%' then "%%" else [p[0]];
      assert EscapePercent(p) + rest == lead + tail;
      InterpolateLead(p[0], tail, arg, used);
      PrependPrepend([p[0]], p[1..], Interpolate(rest, arg, used));
      assert [p[0]] + p[1..] == p;
    }
  }

  /** Formatting an escaped first character emits that character. */
  lemma InterpolateLead(c: char, tail: string, arg: string, used: bool)
    ensures var lead := if c == '%' then "%%" else [c];
      Interpolate(lead + tail, arg, used) == Prepend([c], Interpolate(tail, arg, used))
  {
    var lead := if c == '%' then "%%" else [c];
    var t := lead + tail;
    if c == '%' {
      assert t[0] == '%' && t[1] == '%' && t[2..] == tail;
    } else {
      assert t[0] == c && t[1..] == tail;
    }
  }

  lemma {:induction false} EscapePercentPlain(s: string)
    requires '%' !in s
    ensures EscapePercent(s) == s
  {
    if s != [] {
      EscapePercentPlain(s[1..]);
      assert [s[0]] + s[1..] == s;
    }
  }

  /** A template made of escaped text around one `%s` formats to the text with the
      argument in place of the placeholder. */
  lemma FormatPlaceholder(p: string, q: string, arg: string)
    ensures Format(EscapePercent(p) + "%s" + EscapePercent(q), arg) == Ok(p + arg + q)
  {
    var t := "%s" + EscapePercent(q);
    assert EscapePercent(p) + "%s" + EscapePercent(q) == EscapePercent(p) + t;
    InterpolateEscaped(p, t, arg, false);
    PlaceholderThenEscaped(q, arg);
    assert p + (arg + q) == p + arg + q;
  }

  /** The placeholder followed by escaped text: the argument, then the text. */
  lemma PlaceholderThenEscaped(q: string, arg: string)
    ensures Interpolate("%s" + EscapePercent(q), arg, false) == Ok(arg + q)
  {
    var t := "%s" + EscapePercent(q);
    assert t[0] == '%' && t[1] == 's' && t[2..] == EscapePercent(q) + "";
    InterpolateEscaped(q, "", arg, true);
    assert EscapePercent(q) + "" == EscapePercent(q);
    assert Interpolate(EscapePercent(q), arg, true) == Ok(q + "");
    assert q + "" == q;
  }

  /** A template that starts with the placeholder and has no other `%`. */
  lemma FormatLeading(q: string, arg: string)
    requires '%' !in q
    ensures Format("%s" + q, arg) == Ok(arg + q)
  {
    EscapePercentPlain(q);
    FormatPlaceholder("", q, arg);
    assert EscapePercent("") == "";
    assert "" + "%s" + q == "%s" + q;
    assert "" + arg + q == arg + q;
  }

  /** A character replaced by a different one no longer occurs. */
  lemma ReplaceCharRemoves(s: string, a: char, b: char)
    requires a != b
    ensures a !in ReplaceChar(s, a, b)
  {
    var r := ReplaceChar(s, a, b);
    forall i | 0 <= i < |r| ensures r[i] != a { }
  }

  /** A template without any `%` cannot take the argument: Python raises
      "not all arguments converted". */
  lemma {:induction false} FormatWithoutPlaceholder(t: string, arg: string, used: bool)
    requires '%' !in t
    ensures Interpolate(t, arg, used).Err? <==> !used
    decreases |t|
  {
    if t != [] {
      FormatWithoutPlaceholder(t[1..], arg, used);
    }
  }
}
