/** What `Chart.url()` and `Chart.img()` do to a chart's state, stated on the
    state as a value: the googlecharts map step, the inferred data range, the
    choice of encoding, the default options, the query string and the axes, and
    the top-level copy's colour override. */
module Render {
  import opened Wrappers
  import opened Values
  import opened Strings
  import opened OrderedMaps
  import opened Quoting
  import opened Codec
  import opened Directives
  import opened Axes

  /** `Chart.BASE`. */
  const Base: string := "http://chart.apis.google.com/chart"

  /** The fields of a `Chart`. */
  datatype State = State(
    options: OrderedMap<Value>,
    datasets: seq<seq<real>>,
    axes: seq<Axis>,
    datarange: Option<(Bound, Bound)>,
    alt: Value)

  /** Every option map in the state lists each of its keys once. */
  ghost predicate Consistent(s: State)
  {
    Valid(s.options) && forall j :: 0 <= j < |s.axes| ==> Valid(s.axes[j].options)
  }

  // ---- the map step (googlecharts copy) ---------------------------------

  /** A map chart: the googlecharts copy with `cht` set to `t`. */
  predicate IsMap(variant: Variant, options: OrderedMap<Value>)
  {
    variant == GoogleCharts && Get(options, "cht") == Some(Str("t"))
  }

  /** The `_mapdata` list as a dataset of numbers. */
  function MapValues(v: Value): (r: Result<seq<real>>)
    ensures r.Ok? <==> v.List? && forall i :: 0 <= i < |v.items| ==> v.items[i].Num?
    ensures r.Ok? ==> |r.value| == |v.items| && forall i :: 0 <= i < |v.items| ==> r.value[i] == v.items[i].x
  {
    if v.List? && forall i :: 0 <= i < |v.items| ==> v.items[i].Num? then
      Ok(seq(|v.items|, i requires 0 <= i < |v.items| => v.items[i].x))
    else Err(TypeMismatch)
  }

  /** `self.datasets.append(self.options.pop("_mapdata"))` for a map chart. */
  function MapStep(variant: Variant, s: State): (r: (State, Option<Error>))
    requires Consistent(s)
    ensures Consistent(r.0)
    ensures r.0.axes == s.axes && r.0.datarange == s.datarange && r.0.alt == s.alt
    ensures !IsMap(variant, s.options) ==> r == (s, None)
    ensures IsMap(variant, s.options) && "_mapdata" !in s.options.vals ==> r == (s, Some(MissingKey("_mapdata")))
    ensures IsMap(variant, s.options) && "_mapdata" in s.options.vals ==>
      && r.0.options.vals == s.options.vals - {"_mapdata"}
      && (r.1 == None <==> MapValues(s.options.vals["_mapdata"]).Ok?)
      && r.0.datasets == if r.1 == None then s.datasets + [MapValues(s.options.vals["_mapdata"]).value] else s.datasets
  {
    if !IsMap(variant, s.options) then (s, None)
    else match Pop(s.options, "_mapdata")
      case Err(e) => (s, Some(e))
      case Ok((v, rest)) =>
        var data := MapValues(v);
        if data.Err? then (s.(options := rest), Some(data.error))
        else (s.(options := rest, datasets := s.datasets + [data.value]), None)
  }

  // ---- the data range ---------------------------------------------------

  /** `max(xs)`. */
  function Max(xs: seq<real>): (m: real)
    requires xs != []
    ensures m in xs && forall i :: 0 <= i < |xs| ==> xs[i] <= m
  {
    if |xs| == 1 then xs[0]
    else
      var rest := Max(xs[1..]);
      if xs[0] >= rest then xs[0] else rest
  }

  /** `min(xs)`. */
  function Min(xs: seq<real>): (m: real)
    requires xs != []
    ensures m in xs && forall i :: 0 <= i < |xs| ==> m <= xs[i]
  {
    if |xs| == 1 then xs[0]
    else
      var rest := Min(xs[1..]);
      if xs[0] <= rest then xs[0] else rest
  }

  /** `(min(min(d) for d in ds if d), max(max(d) for d in ds if d))`, or `None`
      when every dataset is empty: the smallest and the largest value of all the
      data, each of them a value of some dataset. */
  function Extremes(ds: seq<seq<real>>): (r: Option<(real, real)>)
    ensures r.None? <==> forall i :: 0 <= i < |ds| ==> ds[i] == []
    ensures r.Some? ==> forall i, j :: 0 <= i < |ds| && 0 <= j < |ds[i]| ==> r.value.0 <= ds[i][j] <= r.value.1
    ensures r.Some? ==> (exists i :: 0 <= i < |ds| && r.value.0 in ds[i]) && (exists i :: 0 <= i < |ds| && r.value.1 in ds[i])
    decreases |ds|
  {
    if ds == [] then None
    else
      var front := ds[..|ds| - 1];
      var last := ds[|ds| - 1];
      var prev := Extremes(front);
      assert forall i :: 0 <= i < |front| ==> front[i] == ds[i];
      if last == [] then prev
      else if prev.None? then Some((Min(last), Max(last)))
      else
        var lo := if Min(last) < prev.value.0 then Min(last) else prev.value.0;
        var hi := if Max(last) > prev.value.1 then Max(last) else prev.value.1;
        Some((lo, hi))
  }

  /** Extending the data by one dataset widens the extremes to take it in. */
  lemma ExtremesStep(ds: seq<seq<real>>, i: nat)
    requires i < |ds|
    ensures var prev, d := Extremes(ds[..i]), ds[i];
      Extremes(ds[..i + 1]) ==
        if d == [] then prev
        else if prev.None? then Some((Min(d), Max(d)))
        else Some((if Min(d) < prev.value.0 then Min(d) else prev.value.0,
                   if Max(d) > prev.value.1 then Max(d) else prev.value.1))
  {
    var s := ds[..i + 1];
    assert s[..|s| - 1] == ds[..i] && s[|s| - 1] == ds[i];
  }

  /** The range `url()` infers when none is set; `max()` of nothing raises. */
  function InferRange(ds: seq<seq<real>>): Result<(Bound, Bound)>
  {
    match Extremes(ds)
    case None => Err(EmptyData)
    case Some((lo, hi)) => Ok((Numeric(lo), Numeric(hi)))
  }

  // ---- the data encoding ------------------------------------------------

  /** Text encoding is used when a scale is given or for a google-o-meter. */
  predicate TextEncoded(options: OrderedMap<Value>)
  {
    "chds" in options.vals || Get(options, "cht") == Some(Str("gom"))
  }

  function Somes(d: seq<real>): (r: seq<Option<real>>)
    ensures |r| == |d| && forall i :: 0 <= i < |d| ==> r[i] == Some(d[i])
  {
    seq(|d|, i requires 0 <= i < |d| => Some(d[i]))
  }

  /** `encode_extended(d, range)` for every dataset; the first failure wins. */
  function ExtendedParts(ds: seq<seq<real>>, lo: Bound, hi: Bound): (r: Result<seq<string>>)
    ensures r.Ok? <==> forall i :: 0 <= i < |ds| ==> EncodeExtended(Somes(ds[i]), lo, hi).Ok?
    ensures r.Ok? ==> |r.value| == |ds| && forall i :: 0 <= i < |ds| ==> EncodeExtended(Somes(ds[i]), lo, hi) == Ok(r.value[i])
    decreases |ds|
  {
    if ds == [] then Ok([])
    else
      var head := EncodeExtended(Somes(ds[0]), lo, hi);
      var rest := ExtendedParts(ds[1..], lo, hi);
      assert forall i :: 1 <= i < |ds| ==> ds[i] == ds[1..][i - 1];
      if head.Err? then Err(head.error)
      else if rest.Err? then rest
      else Ok([head.value] + rest.value)
  }

  /** `encode_text(d)` for every dataset. */
  function TextParts(ds: seq<seq<real>>, show: real -> string): (r: seq<string>)
    ensures |r| == |ds| && forall i :: 0 <= i < |ds| ==> r[i] == EncodeText(ds[i], show)
  {
    seq(|ds|, i requires 0 <= i < |ds| => EncodeText(ds[i], show))
  }

  /** The `chd` value: `t:` and the text encodings joined by `|`, or `e:` and the
      extended encodings joined by `,`. */
  function EncodeData(options: OrderedMap<Value>, ds: seq<seq<real>>, lo: Bound, hi: Bound, show: real -> string): Result<string>
  {
    if TextEncoded(options) then Ok("t:" + Join("|", TextParts(ds, show)))
    else
      var parts := ExtendedParts(ds, lo, hi);
      if parts.Err? then Err(parts.error) else Ok("e:" + Join(",", parts.value))
  }

  /** The encoding is text exactly when a scale is given or the chart is a
      google-o-meter, and only the extended encoding can fail. */
  lemma EncodingChoice(options: OrderedMap<Value>, ds: seq<seq<real>>, lo: Bound, hi: Bound, show: real -> string)
    ensures TextEncoded(options) ==> EncodeData(options, ds, lo, hi, show).Ok?
    ensures var r := EncodeData(options, ds, lo, hi, show);
      r.Ok? ==> |r.value| >= 2 && (r.value[..2] == "t:" <==> TextEncoded(options)) && (r.value[..2] == "e:" <==> !TextEncoded(options))
  {
  }

  /** With every value inside a sane numeric range the extended encoding goes
      through, and the `chd` value splits on `,` into one part per dataset, each
      decoding, value by value, to that value's level. */
  lemma ExtendedDataRoundTrip(options: OrderedMap<Value>, ds: seq<seq<real>>, lo: real, hi: real, show: real -> string)
    requires !TextEncoded(options) && |ds| >= 1 && Sane(lo, hi)
    requires forall i, j :: 0 <= i < |ds| && 0 <= j < |ds[i]| ==> lo <= ds[i][j] <= hi
    ensures EncodeData(options, ds, Numeric(lo), Numeric(hi), show).Ok?
    ensures var r := EncodeData(options, ds, Numeric(lo), Numeric(hi), show).value;
      var parts := Split(r[2..], ',');
      && |parts| == |ds|
      && forall i :: 0 <= i < |ds| ==>
           |parts[i]| == 2 * |ds[i]|
           && forall j :: 0 <= j < |ds[i]| ==> DecodeExtended(parts[i])[j] == Some(Level(ds[i][j], lo, hi))
  {
    forall i | 0 <= i < |ds|
      ensures EncodeExtended(Somes(ds[i]), Numeric(lo), Numeric(hi)).Ok?
    {
      DatasetEncodes(ds[i], lo, hi);
    }
    var parts := ExtendedParts(ds, Numeric(lo), Numeric(hi)).value;
    forall i | 0 <= i < |ds| ensures ',' !in parts[i] {
      EncodeExtendedAvoidsComma(Somes(ds[i]), Numeric(lo), Numeric(hi));
    }
    forall i | 0 <= i < |ds|
      ensures |parts[i]| == 2 * |ds[i]|
      ensures forall j :: 0 <= j < |ds[i]| ==> DecodeExtended(parts[i])[j] == Some(Level(ds[i][j], lo, hi))
    {
      DatasetLevels(ds[i], lo, hi);
    }
    SplitJoin(parts, ',');
    var r := EncodeData(options, ds, Numeric(lo), Numeric(hi), show).value;
    assert r[2..] == Join(",", parts);
  }

  /** One dataset inside a sane range encodes without error. */
  lemma DatasetEncodes(d: seq<real>, lo: real, hi: real)
    requires Sane(lo, hi) && forall j :: 0 <= j < |d| ==> lo <= d[j] <= hi
    ensures EncodeExtended(Somes(d), Numeric(lo), Numeric(hi)).Ok?
  {
    var values := Somes(d);
    assert forall k :: 0 <= k < |values| && values[k].Some? ==> lo <= values[k].value <= hi;
    EncodeAllInRange(values, lo, hi);
  }

  /** One dataset inside a sane range decodes to the levels of its values. */
  lemma DatasetLevels(d: seq<real>, lo: real, hi: real)
    requires Sane(lo, hi) && forall j :: 0 <= j < |d| ==> lo <= d[j] <= hi
    ensures var e := EncodeExtended(Somes(d), Numeric(lo), Numeric(hi));
      && e.Ok? && |e.value| == 2 * |d|
      && forall j :: 0 <= j < |d| ==> DecodeExtended(e.value)[j] == Some(Level(d[j], lo, hi))
  {
    var values := Somes(d);
    assert forall k :: 0 <= k < |values| && values[k].Some? ==> lo <= values[k].value <= hi;
    ExtendedRoundTrip(values, lo, hi);
    var e := EncodeExtended(values, Numeric(lo), Numeric(hi)).value;
    forall j | 0 <= j < |d| ensures DecodeExtended(e)[j] == Some(Level(d[j], lo, hi)) {
      assert values[j] == Some(d[j]);
    }
  }

  // ---- the defaults -----------------------------------------------------

  /** `Chart.defaults`, in the order Python 2 iterates that dictionary. */
  const Defaults: seq<(string, Value)> := [("chs", Str("200x200")), ("cht", Str("lc"))]

  /** `for k in defaults: if k not in options: options[k] = defaults[k]`. */
  function AddDefaults(m: OrderedMap<Value>, defaults: seq<(string, Value)>): OrderedMap<Value>
    decreases |defaults|
  {
    if defaults == [] then m
    else
      var (k, v) := defaults[0];
      AddDefaults(if k in m.vals then m else Set(m, k, v), defaults[1..])
  }

  function WithDefaults(m: OrderedMap<Value>): OrderedMap<Value>
  {
    AddDefaults(m, Defaults)
  }

  /** The defaults never overwrite: options already set keep their value and
      place, `chs` and `cht` are set afterwards, a default only fills a missing
      key, and nothing else is added. */
  lemma DefaultsNeverOverwrite(m: OrderedMap<Value>)
    requires Valid(m)
    ensures var r := WithDefaults(m);
      && Valid(r)
      && m.keys <= r.keys
      && (forall k :: k in m.vals ==> k in r.vals && r.vals[k] == m.vals[k])
      && (forall k :: k in r.vals ==> k in m.vals || k == "chs" || k == "cht")
      && "chs" in r.vals && "cht" in r.vals
      && ("chs" !in m.vals ==> r.vals["chs"] == Str("200x200"))
      && ("cht" !in m.vals ==> r.vals["cht"] == Str("lc"))
  {
    var m1 := if "chs" in m.vals then m else Set(m, "chs", Str("200x200"));
    var m2 := if "cht" in m1.vals then m1 else Set(m1, "cht", Str("lc"));
    assert Defaults[1..][1..] == [];
    assert WithDefaults(m) == m2;
  }

  /** Filling in the defaults twice is the same as once. */
  lemma DefaultsIdempotent(m: OrderedMap<Value>)
    ensures WithDefaults(WithDefaults(m)) == WithDefaults(m)
  {
    var m1 := if "chs" in m.vals then m else Set(m, "chs", Str("200x200"));
    var m2 := if "cht" in m1.vals then m1 else Set(m1, "cht", Str("lc"));
    assert Defaults[1..][1..] == [];
    assert WithDefaults(m) == m2;
    assert WithDefaults(m2) == m2;
  }

  /** Filling in the defaults commutes with setting an option that is already
      there. */
  lemma DefaultsCommute(m: OrderedMap<Value>, k: string, v: Value)
    requires k in m.vals
    ensures WithDefaults(Set(m, k, v)) == Set(WithDefaults(m), k, v)
  {
    var m1 := if "chs" in m.vals then m else Set(m, "chs", Str("200x200"));
    var m2 := if "cht" in m1.vals then m1 else Set(m1, "cht", Str("lc"));
    var n := Set(m, k, v);
    var n1 := if "chs" in n.vals then n else Set(n, "chs", Str("200x200"));
    var n2 := if "cht" in n1.vals then n1 else Set(n1, "cht", Str("lc"));
    assert Defaults[1..][1..] == [];
    assert WithDefaults(m) == m2;
    assert WithDefaults(n) == n2;
    assert n2.keys == m2.keys;
    assert n2.vals == m2.vals[k := v];
  }

  // ---- url() ------------------------------------------------------------

  /** The data range `url()` encodes with: the one set, or else the one
      inferred from the data; raises when there is none to infer. */
  function WithRange(s: State): (r: (State, Option<Error>))
    requires Consistent(s)
    ensures Consistent(r.0)
    ensures r.0 == s.(datarange := r.0.datarange)
    ensures r.1.None? ==> r.0.datarange.Some?
  {
    if s.datarange.Some? then (s, None)
    else
      var range := InferRange(s.datasets);
      if range.Err? then (s, Some(range.error))
      else (s.(datarange := Some(range.value)), None)
  }

  /** The map step and the data range: the state with the range `url()` will
      encode with, or the error raised before the encoding. */
  function Ranged(variant: Variant, s: State): (r: (State, Option<Error>))
    requires Consistent(s)
    ensures Consistent(r.0)
    ensures r.0.axes == s.axes && r.0.alt == s.alt
    ensures r.0.options == MapStep(variant, s).0.options && r.0.datasets == MapStep(variant, s).0.datasets
    ensures r.1.None? ==> r.0.datarange.Some?
  {
    var (s1, failure) := MapStep(variant, s);
    if failure.Some? then (s1, failure) else WithRange(s1)
  }

  /** Everything `url()` does to the chart: the map step, the data range, the
      encoding and the defaults; with the `chd` value, or the error that stopped
      it there. */
  function Prepared(variant: Variant, s: State, show: real -> string): (r: (State, Result<string>))
    requires Consistent(s)
    ensures Consistent(r.0)
    ensures r.0.axes == s.axes && r.0.alt == s.alt
    ensures r.0.datasets == Ranged(variant, s).0.datasets && r.0.datarange == Ranged(variant, s).0.datarange
  {
    var (s2, failure) := Ranged(variant, s);
    if failure.Some? then (s2, Err(failure.value))
    else
      var range := s2.datarange.value;
      var chd := EncodeData(s2.options, s2.datasets, range.0, range.1, show);
      if chd.Err? then (s2, Err(chd.error))
      else
        DefaultsNeverOverwrite(s2.options);
        (s2.(options := WithDefaults(s2.options)), chd)
  }

  /** The URL itself: the base, the query string of the options, the data and,
      when there are axes, their part. */
  function Address(variant: Variant, t: State, chd: string): Result<string>
    requires Consistent(t)
  {
    var query := UrlEncode(variant, Items(t.options));
    if query.Err? then Err(query.error)
    else
      var url := Base + "?" + query.value + "&chd=" + chd;
      if t.axes == [] then Ok(url)
      else
        var suffix := AxesSuffix(variant, t.axes);
        if suffix.Err? then Err(suffix.error) else Ok(url + suffix.value)
  }

  /** `Chart.url()`: the state it leaves behind and the URL, or the error it
      raises; an error leaves the steps before it done. */
  function UrlSpec(variant: Variant, s: State, show: real -> string): (r: (State, Result<string>))
    requires Consistent(s)
    ensures Consistent(r.0)
    ensures r.0 == Prepared(variant, s, show).0
  {
    var (t, chd) := Prepared(variant, s, show);
    if chd.Err? then (t, Err(chd.error)) else (t, Address(variant, t, chd.value))
  }

  /** The URL starts with the base address and the query string, and has axis
      codes exactly when the chart has axes. */
  lemma UrlShape(variant: Variant, s: State, show: real -> string)
    requires Consistent(s)
    ensures var (t, u) := UrlSpec(variant, s, show);
      u.Ok? ==>
        && Prepared(variant, s, show).1.Ok?
        && |u.value| > |Base| + 1
        && u.value[..|Base| + 1] == Base + "?"
        && (t.axes == [] ==> u.value[|u.value| - |Prepared(variant, s, show).1.value|..] == Prepared(variant, s, show).1.value)
  {
    var (t, chd) := Prepared(variant, s, show);
    if chd.Ok? {
      AddressShape(variant, t, chd.value);
    }
  }

  lemma AddressShape(variant: Variant, t: State, chd: string)
    requires Consistent(t)
    ensures var u := Address(variant, t, chd);
      u.Ok? ==>
        && |u.value| > |Base| + 1
        && u.value[..|Base| + 1] == Base + "?"
        && (t.axes == [] ==> u.value[|u.value| - |chd|..] == chd)
  {
    var u := Address(variant, t, chd);
    if u.Ok? {
      var query := UrlEncode(variant, Items(t.options)).value;
      var url := Base + "?" + query + "&chd=" + chd;
      var suffix := if t.axes == [] then "" else AxesSuffix(variant, t.axes).value;
      assert u.value == url + suffix;
      Framed(Base + "?", query, chd, suffix);
    }
  }

  /** A URL framed as head, query, data and suffix starts with the head and,
      without a suffix, ends with the data. */
  lemma Framed(head: string, query: string, chd: string, suffix: string)
    ensures var s := head + query + "&chd=" + chd + suffix;
      && |s| > |head|
      && s[..|head|] == head
      && (suffix == "" ==> s[|s| - |chd|..] == chd)
  {
    var s := head + query + "&chd=" + chd + suffix;
    assert s == head + (query + "&chd=" + chd + suffix);
    if suffix == "" {
      assert s == (head + query + "&chd=") + chd;
    }
  }

  /** Every option that was set keeps its value (a map chart's `_mapdata`
      aside), whether or not `url()` succeeds; only the defaults are added, and
      after a successful call `chs` and `cht` are there; axes and alt text are
      untouched. */
  lemma UrlKeepsOptions(variant: Variant, s: State, show: real -> string)
    requires Consistent(s)
    ensures var (t, u) := UrlSpec(variant, s, show);
      && t.axes == s.axes && t.alt == s.alt
      && (forall k :: k in t.options.vals ==> k in s.options.vals || k == "chs" || k == "cht")
      && (forall k :: k in s.options.vals && k != "_mapdata" ==> k in t.options.vals && t.options.vals[k] == s.options.vals[k])
      && ("_mapdata" in t.options.vals <==> "_mapdata" in s.options.vals && !IsMap(variant, s.options))
      && (u.Ok? ==> "chs" in t.options.vals && "cht" in t.options.vals)
  {
    var (s2, failure) := Ranged(variant, s);
    DefaultsNeverOverwrite(s2.options);
    var (t, chd) := Prepared(variant, s, show);
    assert t.options == s2.options || t.options == WithDefaults(s2.options);
    if chd.Ok? {
      assert t.options == WithDefaults(s2.options);
    }
  }

  /** A successful `url()` leaves a data range: the one already set, or else the
      smallest and the largest value of all the data. */
  lemma UrlInfersRange(variant: Variant, s: State, show: real -> string)
    requires Consistent(s)
    ensures var (t, u) := UrlSpec(variant, s, show);
      && (!IsMap(variant, s.options) ==> t.datasets == s.datasets)
      && (u.Ok? && s.datarange.Some? ==> t.datarange == s.datarange)
      && (u.Ok? && s.datarange.None? ==>
            && Extremes(t.datasets).Some?
            && t.datarange == Some((Numeric(Extremes(t.datasets).value.0), Numeric(Extremes(t.datasets).value.1))))
  {
    var (s2, failure) := Ranged(variant, s);
    var (t, u) := UrlSpec(variant, s, show);
    if u.Ok? {
      assert failure.None?;
    }
  }

  /** With no range set, no data and no map data, `url()` raises. */
  lemma UrlNeedsData(variant: Variant, s: State, show: real -> string)
    requires Consistent(s) && s.datarange.None? && !IsMap(variant, s.options)
    requires forall i :: 0 <= i < |s.datasets| ==> s.datasets[i] == []
    ensures UrlSpec(variant, s, show).1 == Err(EmptyData)
  {
    assert Ranged(variant, s).1 == Some(EmptyData);
  }

  /** Without the map step, a second `url()` on what the first one left gives the
      same URL and changes nothing more. */
  lemma UrlRepeatable(variant: Variant, s: State, show: real -> string)
    requires Consistent(s) && !IsMap(variant, s.options)
    ensures var (t, u) := UrlSpec(variant, s, show);
      u.Ok? ==> UrlSpec(variant, t, show) == (t, u)
  {
    var (t, u) := UrlSpec(variant, s, show);
    if u.Ok? {
      PreparedRepeatable(variant, s, show);
    }
  }

  /** The preparation steps of a second call find the range set and the
      defaults filled in, and encode the same data. */
  lemma PreparedRepeatable(variant: Variant, s: State, show: real -> string)
    requires Consistent(s) && !IsMap(variant, s.options)
    ensures var (t, chd) := Prepared(variant, s, show);
      chd.Ok? ==> Prepared(variant, t, show) == (t, chd)
  {
    var (t, chd) := Prepared(variant, s, show);
    if chd.Ok? {
      var (s2, failure) := Ranged(variant, s);
      assert failure.None? && s2 == s.(datarange := s2.datarange);
      assert t == s2.(options := WithDefaults(s.options));
      DefaultsNeverOverwrite(s.options);
      DefaultsIdempotent(s.options);
      assert !IsMap(variant, t.options);
      assert Ranged(variant, t) == (t, None);
      var range := s2.datarange.value;
      EncodeIgnoresDefaults(s.options, s2.datasets, range.0, range.1, show);
    }
  }

  /** Filling in the defaults does not change how the data is encoded. */
  lemma EncodeIgnoresDefaults(options: OrderedMap<Value>, ds: seq<seq<real>>, lo: Bound, hi: Bound, show: real -> string)
    requires OrderedMaps.Valid(options)
    ensures EncodeData(WithDefaults(options), ds, lo, hi, show) == EncodeData(options, ds, lo, hi, show)
  {
    DefaultsNeverOverwrite(options);
    assert TextEncoded(WithDefaults(options)) == TextEncoded(options);
  }

  /** A map chart's data leaves the options with the first `url()`: a second call
      finds no `_mapdata` and raises. */
  lemma MapUrlOnce(s: State, show: real -> string)
    requires Consistent(s) && IsMap(GoogleCharts, s.options)
    ensures var (t, u) := UrlSpec(GoogleCharts, s, show);
      u.Ok? ==> UrlSpec(GoogleCharts, t, show).1 == Err(MissingKey("_mapdata"))
  {
    var (t, u) := UrlSpec(GoogleCharts, s, show);
    if u.Ok? {
      UrlKeepsOptions(GoogleCharts, s, show);
      assert IsMap(GoogleCharts, t.options);
      assert "_mapdata" !in t.options.vals;
      assert MapStep(GoogleCharts, t).1 == Some(MissingKey("_mapdata"));
      assert Ranged(GoogleCharts, t).1 == Some(MissingKey("_mapdata"));
    }
  }

  // ---- chart-data-range -------------------------------------------------

  /** What `float(v)` does: converts, raises `ValueError` (a string Python cannot
      read) or raises `TypeError` (anything else that is not a number). */
  datatype Conversion = Converts | Unreadable | Uncallable

  function FloatCheck(v: Value, parse: string -> Option<real>): Conversion
  {
    match v
    case Num(_, _) => Converts
    case Str(s) => if parse(s).Some? then Converts else Unreadable
    case _ => Uncallable
  }

  /** A converted bound as it is stored: the argument itself, number or string. */
  function AsBound(v: Value): Bound
    requires v.Num? || v.Str?
  {
    if v.Num? then Numeric(v.x) else Textual(v.s)
  }

  /** `chart_data_range(chart, lower, upper)`: the chart's new data range. */
  function RangeAfter(current: Option<(Bound, Bound)>, lower: Value, upper: Value, parse: string -> Option<real>)
    : Result<Option<(Bound, Bound)>>
  {
    if Truthy(lower) && Truthy(upper) then
      match FloatCheck(lower, parse)
      case Uncallable => Err(TypeMismatch)
      case Unreadable => Ok(current)
      case Converts =>
        match FloatCheck(upper, parse)
        case Uncallable => Err(TypeMismatch)
        case Unreadable => Ok(current)
        case Converts => Ok(Some((AsBound(lower), AsBound(upper))))
    else if lower == Str("auto") then Ok(None)
    else Ok(current)
  }

  /** The range changes only in two ways: to both bounds, when both are set and
      both convert, or back to "infer it", when the lower bound is `auto`; a bound
      that is not a number or a string raises. */
  lemma RangeOutcomes(current: Option<(Bound, Bound)>, lower: Value, upper: Value, parse: string -> Option<real>)
    ensures var r := RangeAfter(current, lower, upper, parse);
      && (r.Err? ==> Truthy(lower) && Truthy(upper) && (!Scalar(lower) || !Scalar(upper)))
      && (r.Ok? && r.value != current && r.value.Some? ==>
            && Truthy(lower) && Truthy(upper)
            && FloatCheck(lower, parse) == Converts && FloatCheck(upper, parse) == Converts
            && r.value == Some((AsBound(lower), AsBound(upper))))
      && (r.Ok? && r.value != current && r.value.None? ==> lower == Str("auto"))
      && (!Truthy(lower) ==> r == Ok(current))
  {
  }

  /** Two non-zero numbers become the range. */
  lemma RangeFromNumbers(current: Option<(Bound, Bound)>, lo: real, hi: real, parse: string -> Option<real>)
    requires lo != 0.0 && hi != 0.0
    ensures forall a, b :: RangeAfter(current, Num(lo, a), Num(hi, b), parse) == Ok(Some((Numeric(lo), Numeric(hi))))
  {
  }

  /** `auto` alone resets the range to be inferred; `auto` with an upper bound is
      read as a number first, fails, and leaves the range as it was. */
  lemma RangeAuto(current: Option<(Bound, Bound)>, upper: Value, parse: string -> Option<real>)
    requires parse("auto").None?
    ensures !Truthy(upper) ==> RangeAfter(current, Str("auto"), upper, parse) == Ok(None)
    ensures Truthy(upper) ==> RangeAfter(current, Str("auto"), upper, parse) == Ok(current)
  {
  }

  // ---- img() ------------------------------------------------------------

  /** `chart_inactive_color`. */
  const InactiveColor: string := "eeeeee"

  /** The `<img>` tag's attributes: the URL, the two halves of `chs` and the alt
      text when there is one (HTML escaping is not modelled). */
  datatype ImgTag = ImgTag(src: string, width: string, height: string, alt: Option<string>)

  /** The colour list with the overridden colour shown in the first colour and
      every other one greyed out. */
  function Recolored(colors: seq<string>, override: Value, first: string): (r: seq<string>)
    ensures |r| == |colors|
  {
    seq(|colors|, i requires 0 <= i < |colors| => if override == Str(colors[i]) then first else InactiveColor)
  }

  /** Exactly the entries equal to the override get the first colour, every other
      one the inactive colour; with distinct colours at most one is highlighted. */
  lemma RecolorHighlights(colors: seq<string>, override: Value, first: string)
    requires first != InactiveColor
    ensures var r := Recolored(colors, override, first);
      && (forall i :: 0 <= i < |colors| ==> (r[i] == first <==> override == Str(colors[i])))
      && (forall i :: 0 <= i < |colors| && r[i] != first ==> r[i] == InactiveColor)
      && (Distinct(colors) ==> forall i, j :: 0 <= i < j < |colors| ==> r[i] == InactiveColor || r[j] == InactiveColor)
  {
    var r := Recolored(colors, override, first);
    if Distinct(colors) {
      forall i, j | 0 <= i < j < |colors|
        ensures r[i] == InactiveColor || r[j] == InactiveColor
      {
        assert colors[i] != colors[j];
      }
    }
  }

  /** The recoloured `chco` reads back as the recoloured list. */
  lemma RecoloredSplits(colors: seq<string>, override: Value, first: string)
    requires |colors| >= 1 && ',' !in first
    ensures Split(Join(",", Recolored(colors, override, first)), ',') == Recolored(colors, override, first)
  {
    SplitJoin(Recolored(colors, override, first), ',');
  }

  /** The state with `chco` set to `c`. */
  function WithColors(s: State, c: Value): (r: State)
    requires Consistent(s)
    ensures Consistent(r)
  {
    s.(options := Set(s.options, "chco", c))
  }

  /** The top-level copy reads `chco` first and, given an override, replaces it
      by the recoloured list. */
  function Override(s: State, override: Value): (r: Result<State>)
    requires Consistent(s)
    ensures r.Ok? ==> "chco" in s.options.vals && Consistent(r.value)
    ensures r.Err? <==> "chco" !in s.options.vals || (override != Null && !s.options.vals["chco"].Str?)
    ensures override == Null && "chco" in s.options.vals ==> r == Ok(s)
    ensures r.Ok? && override != Null ==>
      var colors := Split(s.options.vals["chco"].s, ',');
      r.value == WithColors(s, Str(Join(",", Recolored(colors, override, colors[0]))))
  {
    var orig := Get(s.options, "chco");
    if orig.None? then Err(MissingKey("chco"))
    else if override == Null then Ok(s)
    else if !orig.value.Str? then Err(TypeMismatch)
    else
      var colors := Split(orig.value.s, ',');
      Ok(WithColors(s, Str(Join(",", Recolored(colors, override, colors[0])))))
  }

  /** The colour override, `url()` and the restoring of `chco`: the state
      `img()` leaves behind and the URL, or the error raised on the way. */
  function Restored(variant: Variant, s: State, override: Value, show: real -> string): (r: (State, Result<string>))
    requires Consistent(s)
    requires variant == GoogleCharts ==> override == Null
    ensures Consistent(r.0)
  {
    var before := if variant == TopLevel then Override(s, override) else Ok(s);
    if before.Err? then (s, Err(before.error))
    else
      var (t, u) := UrlSpec(variant, before.value, show);
      if u.Err? then (t, u)
      else if variant == TopLevel then (WithColors(t, s.options.vals["chco"]), u)
      else (t, u)
  }

  /** The tag for a URL: the halves of `chs` and the alt text when it is truthy. */
  function TagFor(t: State, url: string): Result<ImgTag>
  {
    var size := Get(t.options, "chs");
    if size.None? then Err(MissingKey("chs"))
    else if !size.value.Str? then Err(TypeMismatch)
    else
      var parts := Split(size.value.s, 'x');
      if |parts| != 2 then Err(BadSize)
      else Ok(ImgTag(url, parts[0], parts[1], if Truthy(t.alt) then Some(Text(t.alt)) else None))
  }

  /** `Chart.img(color_override)`: the state it leaves behind and the tag, or the
      error it raises.  Only the top-level copy takes an override. */
  function ImgSpec(variant: Variant, s: State, override: Value, show: real -> string): (r: (State, Result<ImgTag>))
    requires Consistent(s)
    requires variant == GoogleCharts ==> override == Null
    ensures Consistent(r.0)
    ensures r.0 == Restored(variant, s, override, show).0
    ensures r.1.Ok? ==> Restored(variant, s, override, show).1.Ok?
  {
    var (t, u) := Restored(variant, s, override, show);
    if u.Err? then (t, Err(u.error)) else (t, TagFor(t, u.value))
  }

  /** Setting `chco` before `url()` is the same as setting it after: the colours
      take no part in the rest of what `url()` does to the chart. */
  lemma UrlStateIgnoresColors(s: State, c: Value, show: real -> string)
    requires Consistent(s) && "chco" in s.options.vals
    ensures UrlSpec(TopLevel, WithColors(s, c), show).0 == WithColors(UrlSpec(TopLevel, s, show).0, c)
  {
    var s' := WithColors(s, c);
    var (r, f) := Ranged(TopLevel, s);
    assert Ranged(TopLevel, s') == (WithColors(r, c), f);
    if f.None? {
      assert TextEncoded(r.options) == TextEncoded(WithColors(r, c).options);
      DefaultsCommute(r.options, "chco", c);
    }
  }

  /** Putting back the value an option had undoes setting it. */
  lemma ColorsBack(t: State, c: Value)
    requires Consistent(t) && "chco" in t.options.vals
    ensures WithColors(WithColors(t, c), t.options.vals["chco"]) == t
  {
    var back := WithColors(WithColors(t, c), t.options.vals["chco"]);
    assert back.options.vals == t.options.vals;
  }

  /** `chco` comes out of `url()` as it went in. */
  lemma UrlKeepsColors(s: State, show: real -> string)
    requires Consistent(s) && "chco" in s.options.vals
    ensures var t := UrlSpec(TopLevel, s, show).0;
      "chco" in t.options.vals && t.options.vals["chco"] == s.options.vals["chco"]
  {
    UrlKeepsOptions(TopLevel, s, show);
  }

  /** Restoring `chco` after a recoloured `url()` leaves what `url()` alone
      leaves. */
  lemma RestoredIsUrl(s: State, override: Value, show: real -> string)
    requires Consistent(s) && Override(s, override).Ok?
    ensures var (t, u) := Restored(TopLevel, s, override, show);
      u.Ok? ==> t == UrlSpec(TopLevel, s, show).0
  {
    var before := Override(s, override).value;
    var c := before.options.vals["chco"];
    assert before == WithColors(s, c);
    var t1 := UrlSpec(TopLevel, before, show).0;
    UrlStateIgnoresColors(s, c, show);
    var t0 := UrlSpec(TopLevel, s, show).0;
    assert t1 == WithColors(t0, c);
    UrlKeepsColors(s, show);
    ColorsBack(t0, c);
  }

  /** The top-level `img()` puts the original colours back: once its `url()`
      succeeds the chart is exactly as `url()` alone leaves it. */
  lemma ImgRestoresColors(s: State, override: Value, show: real -> string)
    requires Consistent(s)
    ensures var (t, u) := ImgSpec(TopLevel, s, override, show);
      u.Ok? ==> "chco" in s.options.vals && t == UrlSpec(TopLevel, s, show).0
  {
    if Override(s, override).Ok? {
      RestoredIsUrl(s, override, show);
    }
  }

  /** `chs` after a successful `url()`, given the state it started from. */
  lemma SizeAfterUrl(variant: Variant, s: State, show: real -> string)
    requires Consistent(s)
    ensures var (t, u) := UrlSpec(variant, s, show);
      u.Ok? ==>
        && "chs" in t.options.vals
        && t.options.vals["chs"] == (if "chs" in s.options.vals then s.options.vals["chs"] else Str("200x200"))
  {
    var (t, u) := UrlSpec(variant, s, show);
    if u.Ok? {
      var r := Ranged(variant, s).0;
      DefaultsNeverOverwrite(r.options);
      assert t.options == WithDefaults(r.options);
      assert "chs" in r.options.vals <==> "chs" in s.options.vals;
      assert "chs" in s.options.vals ==> r.options.vals["chs"] == s.options.vals["chs"];
    }
  }

  lemma DefaultSizeSplits()
    ensures Split("200x200", 'x') == ["200", "200"]
  {
    JoinCons("x", "200", ["200"]);
    assert Join("x", ["200"]) == "200";
    assert "200" + "x" + "200" == "200x200";
    SplitJoin(["200", "200"], 'x');
  }

  /** The width and height are the two halves of `chs`: the ones given, or
      200 by 200 when no size was set. */
  lemma ImgSize(variant: Variant, s: State, override: Value, show: real -> string)
    requires Consistent(s)
    requires variant == GoogleCharts ==> override == Null
    ensures var u := ImgSpec(variant, s, override, show).1;
      && (u.Ok? && "chs" !in s.options.vals ==> u.value.width == "200" && u.value.height == "200")
      && (u.Ok? && "chs" in s.options.vals ==>
            s.options.vals["chs"] == Str(u.value.width + "x" + u.value.height))
  {
    var (t, u) := Restored(variant, s, override, show);
    var img := ImgSpec(variant, s, override, show).1;
    if img.Ok? {
      var before := if variant == TopLevel then Override(s, override).value else s;
      assert "chs" in before.options.vals <==> "chs" in s.options.vals;
      assert "chs" in s.options.vals ==> before.options.vals["chs"] == s.options.vals["chs"];
      SizeAfterUrl(variant, before, show);
      var t1 := UrlSpec(variant, before, show).0;
      assert t.options.vals["chs"] == t1.options.vals["chs"];
      assert img == TagFor(t, u.value);
      TagSize(t, u.value);
      if "chs" !in s.options.vals {
        DefaultSizeSplits();
      }
    }
  }

  /** A tag's width and height are the two halves of `chs`. */
  lemma TagSize(t: State, url: string)
    ensures var r := TagFor(t, url);
      r.Ok? ==> "chs" in t.options.vals && t.options.vals["chs"] == Str(r.value.width + "x" + r.value.height)
  {
    var r := TagFor(t, url);
    if r.Ok? {
      var size := t.options.vals["chs"];
      var parts := Split(size.s, 'x');
      JoinSplit(size.s, 'x');
      JoinCons("x", parts[0], [parts[1]]);
      assert Join("x", [parts[1]]) == parts[1];
    }
  }
}
