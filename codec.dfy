/** The numeric codec: the Google Chart API "extended" encoding (two symbols
    per value over a 64-symbol alphabet, 4096 levels) and the plain text
    encoding, with the `norm` function that maps a value into 0..4095. */
module Codec {
  import opened Wrappers
  import opened Strings

  /** Symbol number `d`: the 26 capitals, the 26 small letters, the ten digits,
      then `-` and `.`. */
  function Symbol(d: nat): char
    requires d < 64
  {
    if d < 26 then ('A' as int + d) as char
    else if d < 52 then ('a' as int + d - 26) as char
    else if d < 62 then ('0' as int + d - 52) as char
    else if d == 62 then '-'
    else '.'
  }

  /** The module's `_encoding_chars`, "ABC...Zabc...z0...9-.".  It is the
      base64url alphabet of section 5 of RFC 4648 except for its last symbol,
      which is `.` instead of `_`. */
  const Alphabet: string := Symbols()

  function Symbols(): (r: string)
    ensures |r| == 64 && forall d :: 0 <= d < 64 ==> r[d] == Symbol(d)
  {
    seq(64, d requires 0 <= d < 64 => Symbol(d))
  }

  lemma AlphabetSymbols()
    ensures |Alphabet| == 64
    ensures forall d :: 0 <= d < 64 ==> Alphabet[d] == Symbol(d)
    ensures Alphabet[0] == 'A' && Alphabet[25] == 'Z' && Alphabet[26] == 'a'
    ensures Alphabet[52] == '0' && Alphabet[62] == '-' && Alphabet[63] == '.'
  {
  }

  /** The number of an alphabet symbol; `None` for any other character. */
  function SymbolValue(c: char): Option<nat>
  {
    if 'A' <= c <= 'Z' then Some(c as int - 'A' as int)
    else if 'a' <= c <= 'z' then Some(c as int - 'a' as int + 26)
    else if '0' <= c <= '9' then Some(c as int - '0' as int + 52)
    else if c == '-' then Some(62)
    else if c == '.' then Some(63)
    else None
  }

  lemma SymbolValueInverse(d: nat)
    requires d < 64
    ensures SymbolValue(Symbol(d)) == Some(d)
  {
  }

  /** One row of `[a+b for a in chars for b in chars]`: the codes starting with `a`. */
  function Row(a: char, inner: string): (r: seq<string>)
    ensures |r| == |inner|
  {
    if inner == [] then [] else [[a, inner[0]]] + Row(a, inner[1..])
  }

  function Pairs(outer: string): (r: seq<string>)
    ensures |r| == 64 * |outer|
  {
    AlphabetSymbols();
    if outer == [] then [] else Row(outer[0], Alphabet) + Pairs(outer[1..])
  }

  /** The module's `_num2chars`: the two-symbol code of every level 0..4095. */
  const Table: seq<string> := Pairs(Alphabet)

  lemma {:induction false} RowAt(a: char, inner: string, j: nat)
    requires j < |inner|
    ensures Row(a, inner)[j] == [a, inner[j]]
    decreases |inner|
  {
    if j > 0 {
      RowAt(a, inner[1..], j - 1);
    }
  }

  lemma {:induction false} PairsAt(outer: string, k: nat)
    requires k < 64 * |outer|
    ensures Pairs(outer)[k] == [outer[k / 64], Alphabet[k % 64]]
    decreases |outer|
  {
    AlphabetSymbols();
    if k < 64 {
      RowAt(outer[0], Alphabet, k);
    } else {
      PairsAt(outer[1..], k - 64);
      assert (k - 64) / 64 == k / 64 - 1 && (k - 64) % 64 == k % 64;
    }
  }

  /** Entry `k` of the table is symbol `k div 64` followed by symbol `k mod 64`. */
  lemma TableAt(k: nat)
    requires k < 4096
    ensures |Table| == 4096
    ensures Table[k] == [Symbol(k / 64), Symbol(k % 64)]
  {
    AlphabetSymbols();
    PairsAt(Alphabet, k);
  }

  /** Reading a two-symbol code back as a level. */
  function DecodePair(p: string): Option<nat>
    requires |p| == 2
  {
    var hi, lo := SymbolValue(p[0]), SymbolValue(p[1]);
    if hi.Some? && lo.Some? then Some(64 * hi.value + lo.value) else None
  }

  /** Every code decodes to its own level. */
  lemma TableDecodes(k: nat)
    requires k < 4096
    ensures |Table| == 4096 && |Table[k]| == 2
    ensures DecodePair(Table[k]) == Some(k)
  {
    TableAt(k);
    DecodeSymbols(k / 64, k % 64);
  }

  lemma DecodeSymbols(a: nat, b: nat)
    requires a < 64 && b < 64
    ensures DecodePair([Symbol(a), Symbol(b)]) == Some(64 * a + b)
  {
    SymbolValueInverse(a);
    SymbolValueInverse(b);
  }

  /** So the 4096 codes are pairwise distinct ... */
  lemma TableInjective(i: nat, j: nat)
    requires i < 4096 && j < 4096 && i != j
    ensures |Table| == 4096
    ensures Table[i] != Table[j]
  {
    TableDecodes(i);
    TableDecodes(j);
  }

  /** ... and none of them is the `__` that stands for a missing value, since `_`
      is not a symbol. */
  lemma TableAvoidsMissing(k: nat)
    requires k < 4096
    ensures |Table| == 4096
    ensures Table[k] != "__"
  {
    TableDecodes(k);
    assert SymbolValue('_') == None;
  }

  /** Python 2 `round(x)`: halves are rounded away from zero. */
  function Round(x: real): int
  {
    if x >= 0.0 then (x + 0.5).Floor else -((-x + 0.5).Floor)
  }

  lemma RoundMonotone(x: real, y: real)
    requires x <= y
    ensures Round(x) <= Round(y)
  {
  }

  lemma RoundError(x: real)
    ensures -0.5 <= Round(x) as real - x <= 0.5
  {
  }

  /** A tie goes away from zero on both sides (round-half-even would give
      `2` and `-2` for `2.5` and `-2.5`). */
  lemma RoundHalfAway(n: nat)
    ensures Round(n as real + 0.5) == n + 1
    ensures Round(-(n as real) - 0.5) == -(n as int) - 1
  {
  }

  lemma RoundWhole(n: int)
    ensures Round(n as real) == n
  {
  }

  /** The highest level. */
  const Top: int := 4095

  /** The module's `norm(n, (min, max))` for numeric bounds, in three regimes:
      a range that does not go below zero is scaled from zero up to `max`, one
      that does not go above zero from `min` up to zero, and a range that
      crosses zero from `min` to `max`. */
  function Norm(n: real, lo: real, hi: real): (r: Result<int>)
    ensures r.Err? <==> lo >= 0.0 && hi == 0.0
  {
    if lo >= 0.0 then
      (if hi == 0.0 then Err(ZeroDivision) else Ok(Round(n / hi * 4095.0)))
    else if hi <= 0.0 then Ok(Top - Round(n * 4095.0 / lo))
    else Ok(Round((n - lo) * (4095.0 / (hi - lo))))
  }

  /** A data range `norm` can scale by: ordered, and not `(0, 0)`-like. */
  predicate Sane(lo: real, hi: real)
  {
    lo <= hi && (lo >= 0.0 ==> hi > 0.0)
  }

  /** The level `norm` gives a value against a sane range. */
  function Level(n: real, lo: real, hi: real): int
    requires Sane(lo, hi)
  {
    Norm(n, lo, hi).value
  }

  lemma FractionInUnit(a: real, b: real)
    requires 0.0 <= a <= b && b > 0.0
    ensures 0.0 <= a / b <= 1.0
  {
  }

  lemma ScaledInRange(f: real)
    requires 0.0 <= f <= 1.0
    ensures 0 <= Round(f * 4095.0) <= Top
  {
    RoundMonotone(0.0, f * 4095.0);
    RoundMonotone(f * 4095.0, 4095.0);
    RoundWhole(0);
    RoundWhole(4095);
  }

  /** For a value inside a sane range `norm` succeeds with a level in 0..4095. */
  lemma NormInRange(n: real, lo: real, hi: real)
    requires Sane(lo, hi) && lo <= n <= hi
    ensures Norm(n, lo, hi).Ok?
    ensures 0 <= Norm(n, lo, hi).value <= Top
  {
    var f := Fraction(n, lo, hi);
    FractionBounds(n, lo, hi);
    ScaledInRange(f);
    NormByFraction(n, lo, hi);
  }

  /** Where a value sits in its regime's span, from 0 to 1. */
  function Fraction(n: real, lo: real, hi: real): real
    requires Sane(lo, hi)
  {
    if lo >= 0.0 then n / hi else if hi <= 0.0 then -n / -lo else (n - lo) / (hi - lo)
  }

  lemma FractionBounds(n: real, lo: real, hi: real)
    requires Sane(lo, hi) && lo <= n <= hi
    ensures 0.0 <= Fraction(n, lo, hi) <= 1.0
  {
    if lo >= 0.0 {
      FractionInUnit(n, hi);
    } else if hi <= 0.0 {
      FractionInUnit(-n, -lo);
    } else {
      FractionInUnit(n - lo, hi - lo);
    }
  }

  lemma NormByFraction(n: real, lo: real, hi: real)
    requires Sane(lo, hi)
    ensures Norm(n, lo, hi).Ok?
    ensures lo >= 0.0 || hi > 0.0 ==> Norm(n, lo, hi).value == Round(Fraction(n, lo, hi) * 4095.0)
    ensures lo < 0.0 && hi <= 0.0 ==> Norm(n, lo, hi).value == Top - Round(Fraction(n, lo, hi) * 4095.0)
  {
    var f := Fraction(n, lo, hi);
    if lo >= 0.0 {
      assert f == n / hi;
      assert Norm(n, lo, hi) == Ok(Round(f * 4095.0));
    } else if hi <= 0.0 {
      assert f == -n / -lo;
      Rescale(n, lo);
      assert f * 4095.0 == n * 4095.0 / lo;
      assert Norm(n, lo, hi) == Ok(Top - Round(f * 4095.0));
    } else {
      assert f == (n - lo) / (hi - lo);
      Spread(n - lo, hi - lo);
      assert f * 4095.0 == (n - lo) * (4095.0 / (hi - lo));
      assert Norm(n, lo, hi) == Ok(Round(f * 4095.0));
    }
  }

  lemma Rescale(n: real, lo: real)
    requires lo < 0.0
    ensures n * 4095.0 / lo == (-n / -lo) * 4095.0
  {
  }

  lemma Spread(a: real, w: real)
    requires w > 0.0
    ensures a * (4095.0 / w) == (a / w) * 4095.0
  {
  }

  /** Where the ends of each regime land.  A range crossing zero is stretched
      over all levels; a single-signed range is anchored at zero, so its far end
      is level 4095 (or 0) but its near end is only level 0 (or 4095) when it is zero. */
  lemma NormEndpoints(lo: real, hi: real)
    requires Sane(lo, hi)
    ensures lo < 0.0 < hi ==> Norm(lo, lo, hi) == Ok(0) && Norm(hi, lo, hi) == Ok(Top)
    ensures lo >= 0.0 ==> Norm(hi, lo, hi) == Ok(Top) && Norm(0.0, lo, hi) == Ok(0)
    ensures hi <= 0.0 ==> Norm(lo, lo, hi) == Ok(0) && Norm(0.0, lo, hi) == Ok(Top)
  {
    RoundWhole(0);
    RoundWhole(4095);
    if lo < 0.0 < hi {
      assert (hi - lo) * (4095.0 / (hi - lo)) == 4095.0;
    }
    if lo >= 0.0 {
      assert hi / hi * 4095.0 == 4095.0;
    }
    if hi <= 0.0 {
      assert lo * 4095.0 / lo == 4095.0;
    }
  }

  /** In the regime that starts at zero, the near end of the data reaches level 0
      only when it is below half a level: data 10, 20, 30 puts 10 at level 1365. */
  lemma NormAnchoredAtZero(n: real, lo: real, hi: real)
    requires Sane(lo, hi) && lo >= 0.0 && lo <= n <= hi
    ensures Norm(n, lo, hi) == Ok(0) <==> n / hi * 4095.0 < 0.5
  {
    FractionInUnit(n, hi);
  }

  lemma NormAnchoredExample()
    ensures Norm(10.0, 10.0, 30.0) == Ok(1365)
  {
    assert 10.0 / 30.0 * 4095.0 == 1365.0;
    RoundWhole(1365);
  }

  /** `norm` never reverses the order of two values, in each regime, for any
      range it can divide by, inverted ranges such as `(10, 5)` included. */
  lemma NormMonotone(n1: real, n2: real, lo: real, hi: real)
    requires lo >= 0.0 ==> hi > 0.0
    requires n1 <= n2
    ensures Norm(n1, lo, hi).Ok? && Norm(n2, lo, hi).Ok?
    ensures Norm(n1, lo, hi).value <= Norm(n2, lo, hi).value
  {
    if lo >= 0.0 {
      MonotoneAbove(n1, n2, lo, hi);
    } else if hi <= 0.0 {
      MonotoneBelow(n1, n2, lo, hi);
    } else {
      MonotoneAcross(n1, n2, lo, hi);
    }
  }

  lemma MonotoneAbove(n1: real, n2: real, lo: real, hi: real)
    requires lo >= 0.0 && hi > 0.0 && n1 <= n2
    ensures Norm(n1, lo, hi).Ok? && Norm(n2, lo, hi).Ok?
    ensures Norm(n1, lo, hi).value <= Norm(n2, lo, hi).value
  {
    var a, b := n1 / hi, n2 / hi;
    DivideMonotone(n1, n2, hi);
    ScaleMonotone(a, b, 4095.0);
    RoundMonotone(a * 4095.0, b * 4095.0);
  }

  lemma MonotoneBelow(n1: real, n2: real, lo: real, hi: real)
    requires lo < 0.0 && hi <= 0.0 && n1 <= n2
    ensures Norm(n1, lo, hi).Ok? && Norm(n2, lo, hi).Ok?
    ensures Norm(n1, lo, hi).value <= Norm(n2, lo, hi).value
  {
    var a, b := n1 * 4095.0, n2 * 4095.0;
    ScaleMonotone(n1, n2, 4095.0);
    NegativeDivideMonotone(a, b, lo);
    RoundMonotone(b / lo, a / lo);
  }

  lemma MonotoneAcross(n1: real, n2: real, lo: real, hi: real)
    requires lo < 0.0 && hi > 0.0 && n1 <= n2
    ensures Norm(n1, lo, hi).Ok? && Norm(n2, lo, hi).Ok?
    ensures Norm(n1, lo, hi).value <= Norm(n2, lo, hi).value
  {
    assert Sane(lo, hi);
    NormByFraction(n1, lo, hi);
    NormByFraction(n2, lo, hi);
    FractionMonotone(n1, n2, lo, hi);
    RoundMonotone(Fraction(n1, lo, hi) * 4095.0, Fraction(n2, lo, hi) * 4095.0);
  }

  lemma ScaleMonotone(a: real, b: real, w: real)
    requires a <= b && w >= 0.0
    ensures a * w <= b * w
  {
    assert b * w - a * w == (b - a) * w;
  }

  /** Dividing by a negative number reverses the order. */
  lemma NegativeDivideMonotone(a: real, b: real, l: real)
    requires a <= b && l < 0.0
    ensures b / l <= a / l
  {
    DivideMonotone(-b, -a, -l);
    assert b / l == -b / -l;
    assert a / l == -a / -l;
  }

  lemma FractionMonotone(n1: real, n2: real, lo: real, hi: real)
    requires Sane(lo, hi) && n1 <= n2
    ensures lo < 0.0 && hi <= 0.0 ==> Fraction(n2, lo, hi) <= Fraction(n1, lo, hi)
    ensures lo >= 0.0 || hi > 0.0 ==> Fraction(n1, lo, hi) <= Fraction(n2, lo, hi)
  {
    if lo >= 0.0 {
      DivideMonotone(n1, n2, hi);
    } else if hi <= 0.0 {
      DivideMonotone(-n2, -n1, -lo);
    } else {
      DivideMonotone(n1 - lo, n2 - lo, hi - lo);
    }
  }

  lemma DivideMonotone(a: real, b: real, w: real)
    requires a <= b && w > 0.0
    ensures a / w <= b / w
  {
  }

  /** The value a level stands for, read back per regime. */
  function Denorm(level: int, lo: real, hi: real): real
  {
    if lo >= 0.0 then level as real * hi / 4095.0
    else if hi <= 0.0 then (Top - level) as real * lo / 4095.0
    else lo + level as real * (hi - lo) / 4095.0
  }

  /** The width of the span a regime stretches over the 4096 levels. */
  function Span(lo: real, hi: real): real
  {
    if lo >= 0.0 then hi else if hi <= 0.0 then -lo else hi - lo
  }

  /** Encoding loses at most half a level: reading the level back lands within
      `Span / 8190` of the value. */
  lemma NormApproximateInverse(n: real, lo: real, hi: real)
    requires Sane(lo, hi) && lo <= n <= hi
    ensures Norm(n, lo, hi).Ok?
    ensures var d := Denorm(Norm(n, lo, hi).value, lo, hi) - n;
      -Span(lo, hi) / 8190.0 <= d <= Span(lo, hi) / 8190.0
  {
    if lo >= 0.0 {
      InverseUp(n, lo, hi);
    } else if hi <= 0.0 {
      InverseDown(n, lo, hi);
    } else {
      InverseAcross(n, lo, hi);
    }
  }

  lemma InverseUp(n: real, lo: real, hi: real)
    requires 0.0 <= lo <= n <= hi && hi > 0.0
    ensures Norm(n, lo, hi).Ok?
    ensures -hi / 8190.0 <= Denorm(Norm(n, lo, hi).value, lo, hi) - n <= hi / 8190.0
  {
    var f := n / hi;
    RoundError(f * 4095.0);
    ReadBackUp(n, hi, f, Round(f * 4095.0));
  }

  lemma InverseDown(n: real, lo: real, hi: real)
    requires lo <= n <= hi <= 0.0 && lo < 0.0
    ensures Norm(n, lo, hi).Ok?
    ensures lo / 8190.0 <= Denorm(Norm(n, lo, hi).value, lo, hi) - n <= -lo / 8190.0
  {
    var f := -n / -lo;
    RoundError(f * 4095.0);
    Rescale(n, lo);
    ReadBackDown(n, lo, f, Round(f * 4095.0));
  }

  lemma InverseAcross(n: real, lo: real, hi: real)
    requires lo < 0.0 < hi && lo <= n <= hi
    ensures Norm(n, lo, hi).Ok?
    ensures -(hi - lo) / 8190.0 <= Denorm(Norm(n, lo, hi).value, lo, hi) - n <= (hi - lo) / 8190.0
  {
    assert Sane(lo, hi);
    NormByFraction(n, lo, hi);
    var f := Fraction(n, lo, hi);
    assert f == (n - lo) / (hi - lo);
    var r := Round(f * 4095.0);
    assert Norm(n, lo, hi).value == r;
    RoundError(f * 4095.0);
    ReadBackAcross(n, lo, hi, f, r);
    assert Denorm(r, lo, hi) == lo + r as real * (hi - lo) / 4095.0;
  }

  lemma ReadBackUp(n: real, hi: real, f: real, r: int)
    requires hi > 0.0 && f == n / hi
    requires -0.5 <= r as real - f * 4095.0 <= 0.5
    ensures -hi / 8190.0 <= r as real * hi / 4095.0 - n <= hi / 8190.0
  {
    ReadBack(0.0, hi, f, r);
    Whole(n, hi, f);
  }

  lemma ReadBackDown(n: real, lo: real, f: real, r: int)
    requires lo < 0.0 && f == -n / -lo
    requires -0.5 <= r as real - f * 4095.0 <= 0.5
    ensures lo / 8190.0 <= (Top - (Top - r)) as real * lo / 4095.0 - n <= -lo / 8190.0
  {
    ReadBack(0.0, lo, f, r);
    Whole(-n, -lo, f);
  }

  lemma ReadBackAcross(n: real, lo: real, hi: real, f: real, r: int)
    requires lo < hi && f == (n - lo) / (hi - lo)
    requires -0.5 <= r as real - f * 4095.0 <= 0.5
    ensures -(hi - lo) / 8190.0 <= lo + r as real * (hi - lo) / 4095.0 - n <= (hi - lo) / 8190.0
  {
    ReadBack(lo, hi - lo, f, r);
    Whole(n - lo, hi - lo, f);
  }

  lemma Whole(a: real, w: real, f: real)
    requires w != 0.0 && f == a / w
    ensures a == f * w
  {
  }

  lemma MulNonneg(a: real, b: real)
    requires a >= 0.0 && b >= 0.0
    ensures a * b >= 0.0
  {
  }

  /** Level `r`, within half a level of fraction `f` of a span of width `w`
      from `base`, reads back within `|w| / 8190` of the value there. */
  lemma ReadBack(base: real, w: real, f: real, r: int)
    requires w != 0.0
    requires -0.5 <= r as real - f * 4095.0 <= 0.5
    ensures var d := base + r as real * w / 4095.0 - (base + f * w);
      var bound := if w > 0.0 then w / 8190.0 else -w / 8190.0;
      -bound <= d <= bound
  {
    var e := r as real - f * 4095.0;
    assert base + r as real * w / 4095.0 - (base + f * w) == e * w / 4095.0;
    if w > 0.0 {
      MulNonneg(0.5 - e, w);
      MulNonneg(e + 0.5, w);
    } else {
      MulNonneg(0.5 - e, -w);
      MulNonneg(e + 0.5, -w);
    }
  }

  /** A data-range bound as the chart holds it: a number, or the string a
      `chart-data-range` argument resolved to. */
  datatype Bound = Numeric(x: real) | Textual(s: string)

  /** `norm` on bounds as Python 2 compares them: every string orders above every
      number, so a string lower bound selects the first regime, and arithmetic
      with a string upper bound raises. */
  function NormBounds(n: real, lo: Bound, hi: Bound): Result<int>
  {
    match (lo, hi)
    case (Numeric(a), Numeric(b)) => Norm(n, a, b)
    case (Textual(_), Numeric(b)) => if b == 0.0 then Err(ZeroDivision) else Ok(Round(n / b * 4095.0))
    case _ => Err(TypeMismatch)
  }

  /** `_num2chars[i]`: a negative index counts from the end, as Python lists do. */
  function TableEntry(i: int): (r: Result<string>)
    ensures r.Ok? ==> |r.value| == 2
    ensures r.Ok? <==> -4096 <= i < 4096
    ensures r.Ok? ==> DecodePair(r.value) == Some(if i < 0 then i + 4096 else i)
  {
    if 0 <= i < 4096 then TableDecodes(i); Ok(Table[i])
    else if -4096 <= i < 0 then TableDecodes(i + 4096); Ok(Table[i + 4096])
    else Err(IndexOutOfRange)
  }

  /** The module's `num2chars(n, value_range)`: `__` for a missing value. */
  function Num2Chars(n: Option<real>, lo: Bound, hi: Bound): (r: Result<string>)
    ensures r.Ok? ==> |r.value| == 2
  {
    if n.None? then Ok("__")
    else
      var level := NormBounds(n.value, lo, hi);
      if level.Err? then Err(level.error) else TableEntry(level.value)
  }

  /** The module's `encode_extended(values, value_range)`. */
  function EncodeExtended(values: seq<Option<real>>, lo: Bound, hi: Bound): (r: Result<string>)
    ensures r.Ok? ==> |r.value| == 2 * |values|
    ensures r.Ok? ==> forall k :: 0 <= k < |values| ==> Num2Chars(values[k], lo, hi) == Ok(r.value[2 * k..2 * k + 2])
  {
    if values == [] then Ok("")
    else
      var head := Num2Chars(values[0], lo, hi);
      var rest := EncodeExtended(values[1..], lo, hi);
      if head.Err? then head
      else if rest.Err? then rest
      else
        var r := head.value + rest.value;
        assert forall k :: 1 <= k < |values| ==> r[2 * k..2 * k + 2] == rest.value[2 * (k - 1)..2 * (k - 1) + 2];
        Ok(r)
  }

  /** Reading an extended-encoded string back, two symbols at a time: `None` for
      `__` (or anything that is not a code), the level otherwise; a trailing
      odd symbol is ignored. */
  function DecodeExtended(s: string): (r: seq<Option<nat>>)
    ensures 2 * |r| <= |s| < 2 * |r| + 2
  {
    if |s| < 2 then []
    else [if s[..2] == "__" then None else DecodePair(s[..2])] + DecodeExtended(s[2..])
  }

  lemma {:induction false} DecodeExtendedAt(s: string, k: nat)
    requires 2 * k + 2 <= |s|
    ensures |DecodeExtended(s)| > k
    ensures DecodeExtended(s)[k] == if s[2 * k..2 * k + 2] == "__" then None else DecodePair(s[2 * k..2 * k + 2])
    decreases |s|
  {
    if k > 0 {
      DecodeExtendedAt(s[2..], k - 1);
      assert s[2..][2 * (k - 1)..2 * (k - 1) + 2] == s[2 * k..2 * k + 2];
    }
  }

  /** Encoding values that lie inside a sane numeric range always succeeds, and
      decoding the result gives, position by position, `None` exactly where a value
      was missing and the value's level everywhere else. */
  lemma ExtendedRoundTrip(values: seq<Option<real>>, lo: real, hi: real)
    requires Sane(lo, hi)
    requires forall k :: 0 <= k < |values| && values[k].Some? ==> lo <= values[k].value <= hi
    ensures EncodeExtended(values, Numeric(lo), Numeric(hi)).Ok?
    ensures var back := DecodeExtended(EncodeExtended(values, Numeric(lo), Numeric(hi)).value);
      && |back| == |values|
      && forall k :: 0 <= k < |values| ==>
        back[k] == if values[k].None? then None else Some(Norm(values[k].value, lo, hi).value)
  {
    EncodeAllInRange(values, lo, hi);
    var s := EncodeExtended(values, Numeric(lo), Numeric(hi)).value;
    forall k | 0 <= k < |values|
      ensures DecodeExtended(s)[k] == if values[k].None? then None else Some(Norm(values[k].value, lo, hi).value)
    {
      DecodeExtendedAt(s, k);
      var code := s[2 * k..2 * k + 2];
      if values[k].Some? {
        NormInRange(values[k].value, lo, hi);
        var level := Norm(values[k].value, lo, hi).value;
        TableDecodes(level);
        TableAvoidsMissing(level);
        assert code == Table[level];
      }
    }
  }

  lemma {:induction false} EncodeAllInRange(values: seq<Option<real>>, lo: real, hi: real)
    requires Sane(lo, hi)
    requires forall k :: 0 <= k < |values| && values[k].Some? ==> lo <= values[k].value <= hi
    ensures EncodeExtended(values, Numeric(lo), Numeric(hi)).Ok?
    decreases |values|
  {
    if values != [] {
      EncodeAllInRange(values[1..], lo, hi);
      if values[0].Some? {
        NormInRange(values[0].value, lo, hi);
      }
    }
  }

  /** The module's `encode_text(values)`: each value's `str()`, joined with `,`.
      The number-to-text conversion is a parameter. */
  function EncodeText(values: seq<real>, show: real -> string): string
  {
    Join(",", seq(|values|, i requires 0 <= i < |values| => show(values[i])))
  }

  /** Splitting the text encoding on `,` gives back each value's text, when no
      value's text contains a comma. */
  lemma EncodeTextSplit(values: seq<real>, show: real -> string)
    requires |values| >= 1
    requires forall i :: 0 <= i < |values| ==> ',' !in show(values[i])
    ensures Split(EncodeText(values, show), ',') == seq(|values|, i requires 0 <= i < |values| => show(values[i]))
  {
    SplitJoin(seq(|values|, i requires 0 <= i < |values| => show(values[i])), ',');
  }

  /** No code contains a comma, so datasets can be separated by `,`. */
  lemma SymbolNotComma(d: nat)
    requires d < 64
    ensures Symbol(d) != ','
  {
  }

  lemma TableEntryAvoidsComma(i: int)
    ensures TableEntry(i).Ok? ==> ',' !in TableEntry(i).value
  {
    if -4096 <= i < 4096 {
      var k := if i < 0 then i + 4096 else i;
      TableAt(k);
      SymbolNotComma(k / 64);
      SymbolNotComma(k % 64);
      assert TableEntry(i).value == [Symbol(k / 64), Symbol(k % 64)];
    }
  }

  lemma {:induction false} EncodeExtendedAvoidsComma(values: seq<Option<real>>, lo: Bound, hi: Bound)
    ensures EncodeExtended(values, lo, hi).Ok? ==> ',' !in EncodeExtended(values, lo, hi).value
    decreases |values|
  {
    if values != [] {
      EncodeExtendedAvoidsComma(values[1..], lo, hi);
      if values[0].Some? {
        var level := NormBounds(values[0].value, lo, hi);
        if level.Ok? {
          TableEntryAvoidsComma(level.value);
        }
      }
    }
  }
}
