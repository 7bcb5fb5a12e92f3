/** `class Chart`: the chart under construction, whose fields the tags and
    `url()`/`img()` update in place.  Each method is proved against the function
    on `State` values that says what it does. */
module Charts {
  import opened Wrappers
  import opened Values
  import opened Strings
  import opened OrderedMaps
  import opened Options
  import opened Quoting
  import opened Codec
  import opened Directives
  import opened Axes
  import opened Render

  /** `for c in chco.split(','): ...`: the override loop of `img()`. */
  method RecolorList(colors: seq<string>, override: Value) returns (r: seq<string>)
    requires |colors| >= 1
    ensures r == Recolored(colors, override, colors[0])
  {
    r := [];
    var i := 0;
    while i < |colors|
      invariant 0 <= i <= |colors| && |r| == i
      invariant forall j :: 0 <= j < i ==> r[j] == (if override == Str(colors[j]) then colors[0] else InactiveColor)
    {
      var c := if override == Str(colors[i]) then colors[0] else InactiveColor;
      r := r + [c];
      i := i + 1;
    }
  }

  /** The smallest and the largest value over the non-empty datasets, found in
      one pass (`min`/`max` over every dataset). */
  method ScanExtremes(datasets: seq<seq<real>>) returns (r: Option<(real, real)>)
    ensures r == Extremes(datasets)
  {
    var lo, hi, found := 0.0, 0.0, false;
    var i := 0;
    while i < |datasets|
      invariant 0 <= i <= |datasets|
      invariant Extremes(datasets[..i]) == if found then Some((lo, hi)) else None
    {
      var d := datasets[i];
      ExtremesStep(datasets, i);
      if d != [] {
        if !found {
          lo, hi, found := Min(d), Max(d), true;
        } else {
          if Min(d) < lo {
            lo := Min(d);
          }
          if Max(d) > hi {
            hi := Max(d);
          }
        }
      }
      i := i + 1;
    }
    assert datasets[..|datasets|] == datasets;
    r := if found then Some((lo, hi)) else None;
  }

  class Chart {
    /** Which copy of the engine this chart belongs to. */
    const variant: Variant
    var options: OrderedMap<Value>
    var datasets: seq<seq<real>>
    var axes: seq<Axis>
    var datarange: Option<(Bound, Bound)>
    var alt: Value

    function Snapshot(): State
      reads this
    {
      State(options, datasets, axes, datarange, alt)
    }

    ghost predicate Valid()
      reads this
    {
      Consistent(Snapshot())
    }

    /** `Chart()`: no options, no data, no axes, no range, no alt text. */
    constructor(variant: Variant)
      ensures Valid() && this.variant == variant
      ensures Snapshot() == State(Empty(), [], [], None, Null)
    {
      this.variant := variant;
      options := Empty();
      datasets := [];
      axes := [];
      datarange := None;
      alt := Null;
    }

    /** `clone()`: a new chart with copies of the options, the datasets and the
        axes; range and alt text start unset.  The copies are values, so nothing
        done to the clone afterwards reaches this chart. */
    method Clone() returns (c: Chart)
      requires Valid()
      ensures fresh(c) && c.Valid() && c.variant == variant
      ensures c.Snapshot() == State(options, datasets, axes, None, Null)
    {
      c := new Chart(variant);
      c.options := options;
      c.datasets := datasets;
      c.axes := axes;
    }

    /** `chart.datasets.extend(node.resolve(context))`. */
    method AddDatasets(ds: seq<seq<real>>)
      requires Valid()
      modifies this
      ensures Valid()
      ensures Snapshot() == old(Snapshot()).(datasets := old(datasets) + ds)
    {
      datasets := datasets + ds;
    }

    /** `chart.axes.append(node.resolve(context))`. */
    method AddAxis(axis: Axis)
      requires Valid() && OrderedMaps.Valid(axis.options)
      modifies this
      ensures Valid()
      ensures Snapshot() == old(Snapshot()).(axes := old(axes) + [axis])
    {
      axes := axes + [axis];
    }

    /** `ChartOptionNode.update_chart`: the callback's keys merged into the
        options; a callback that raises changes nothing. */
    method ApplyOption(tag: Tag, args: seq<Value>) returns (failure: Option<Error>)
      requires Valid() && Registered(variant, tag) && KindOf(tag) == ChartOption
      modifies this
      ensures Valid()
      ensures var data := Callback(variant, tag, args);
        && (data.Err? ==> failure == Some(data.error) && options == old(options))
        && (data.Ok? ==> (options, failure) == Merge(old(options), data.value, Multi(tag)))
      ensures datasets == old(datasets) && axes == old(axes) && datarange == old(datarange) && alt == old(alt)
    {
      var data := Callback(variant, tag, args);
      if data.Err? {
        return Some(data.error);
      }
      MergeValid(options, data.value, Multi(tag));
      options, failure := UpdateOptions(options, data.value, Multi(tag));
    }

    /** `MetadataNode.update_chart` for `chart-data-range` and `chart-alt`: the
        callback called with the chart, raising when the arguments do not bind. */
    method ApplyMetadata(tag: Tag, args: seq<Value>, parse: string -> Option<real>) returns (failure: Option<Error>)
      requires Valid() && KindOf(tag) == Metadata
      modifies this
      ensures Valid()
      ensures !Binds(tag, |args|) ==> failure == Some(TypeMismatch) && Snapshot() == old(Snapshot())
      ensures Binds(tag, |args|) && tag == AltTag ==>
        failure == None && Snapshot() == old(Snapshot()).(alt := Arg(args, 0, Null))
      ensures Binds(tag, |args|) && tag == DataRangeTag ==>
        var range := RangeAfter(old(datarange), Arg(args, 0, Null), Arg(args, 1, Null), parse);
        && (range.Err? ==> failure == Some(range.error) && Snapshot() == old(Snapshot()))
        && (range.Ok? ==> failure == None && Snapshot() == old(Snapshot()).(datarange := range.value))
    {
      if !Binds(tag, |args|) {
        return Some(TypeMismatch);
      }
      if tag == AltTag {
        alt := Arg(args, 0, Null);
        return None;
      }
      var range := RangeAfter(datarange, Arg(args, 0, Null), Arg(args, 1, Null), parse);
      if range.Err? {
        return Some(range.error);
      }
      datarange := range.value;
      return None;
    }

    /** `url()`, step by step: the map step, the data range, the encoding, the
        defaults, the query string and the axes. */
    method Url(show: real -> string) returns (r: Result<string>)
      requires Valid()
      modifies this
      ensures Valid()
      ensures (Snapshot(), r) == UrlSpec(variant, old(Snapshot()), show)
    {
      var failure := MapData();
      if failure.Some? {
        return Err(failure.value);
      }
      failure := FindRange();
      if failure.Some? {
        return Err(failure.value);
      }
      var chd := EncodeData(options, datasets, datarange.value.0, datarange.value.1, show);
      if chd.Err? {
        return Err(chd.error);
      }
      FillDefaults();
      r := UrlQuery(chd.value);
    }

    /** `self.datasets.append(self.options.pop("_mapdata"))` for a map chart. */
    method MapData() returns (failure: Option<Error>)
      requires Valid()
      modifies this
      ensures Valid()
      ensures (Snapshot(), failure) == MapStep(variant, old(Snapshot()))
    {
      if variant == GoogleCharts && Get(options, "cht") == Some(Str("t")) {
        var popped := Pop(options, "_mapdata");
        if popped.Err? {
          return Some(popped.error);
        }
        options := popped.value.1;
        var data := MapValues(popped.value.0);
        if data.Err? {
          return Some(data.error);
        }
        datasets := datasets + [data.value];
      }
      return None;
    }

    /** `if not self.datarange: ...`: the range inferred from the data when none
        is set. */
    method FindRange() returns (failure: Option<Error>)
      requires Valid()
      modifies this
      ensures Valid()
      ensures (Snapshot(), failure) == WithRange(old(Snapshot()))
    {
      if datarange.Some? {
        return None;
      }
      var extremes := ScanExtremes(datasets);
      if extremes.None? {
        return Some(EmptyData);
      }
      datarange := Some((Numeric(extremes.value.0), Numeric(extremes.value.1)));
      return None;
    }

    /** `for k in self.defaults: if k not in self.options: ...`. */
    method FillDefaults()
      requires Valid()
      modifies this
      ensures Valid()
      ensures Snapshot() == old(Snapshot()).(options := WithDefaults(old(options)))
    {
      DefaultsNeverOverwrite(options);
      ghost var start := options;
      var i := 0;
      while i < |Defaults|
        invariant 0 <= i <= |Defaults|
        invariant OrderedMaps.Valid(options)
        invariant AddDefaults(options, Defaults[i..]) == WithDefaults(start)
        invariant Snapshot() == old(Snapshot()).(options := options)
      {
        var (k, v) := Defaults[i];
        if k !in options.vals {
          options := Set(options, k, v);
        }
        assert Defaults[i..][1..] == Defaults[i + 1..];
        i := i + 1;
      }
    }

    /** The address for the encoded data, once the options are final. */
    method UrlQuery(chd: string) returns (r: Result<string>)
      requires Valid()
      ensures r == Address(variant, Snapshot(), chd)
    {
      var query := UrlEncode(variant, Items(options));
      if query.Err? {
        return Err(query.error);
      }
      var url := Base + "?" + query.value + "&chd=" + chd;
      if axes == [] {
        return Ok(url);
      }
      var suffix := RenderAxes(variant, axes);
      if suffix.Err? {
        return Err(suffix.error);
      }
      return Ok(url + suffix.value);
    }

    /** `img(color_override)`: the colour override (top-level copy only), `url()`,
        the original colours put back, and the size split into width and height. */
    method Img(override: Value, show: real -> string) returns (r: Result<ImgTag>)
      requires Valid()
      requires variant == GoogleCharts ==> override == Null
      modifies this
      ensures Valid()
      ensures (Snapshot(), r) == ImgSpec(variant, old(Snapshot()), override, show)
    {
      ghost var s0 := Snapshot();
      var orig := Null;
      if variant == TopLevel {
        var colors := Get(options, "chco");
        if colors.None? {
          return Err(MissingKey("chco"));
        }
        orig := colors.value;
        if override != Null {
          if !orig.Str? {
            return Err(TypeMismatch);
          }
          var pieces := Split(orig.s, ',');
          var recolored := RecolorList(pieces, override);
          options := Set(options, "chco", Str(Join(",", recolored)));
        }
      }
      assert variant == TopLevel ==> Override(s0, override) == Ok(Snapshot());
      var url := Url(show);
      if url.Err? {
        return Err(url.error);
      }
      if variant == TopLevel {
        options := Set(options, "chco", orig);
      }
      assert (Snapshot(), url) == Restored(variant, s0, override, show);
      r := ImgFor(url.value);
    }

    /** The tag for a URL, from the chart's `chs` and alt text. */
    method ImgFor(url: string) returns (r: Result<ImgTag>)
      ensures r == TagFor(Snapshot(), url)
    {
      var size := Get(options, "chs");
      if size.None? {
        return Err(MissingKey("chs"));
      }
      if !size.value.Str? {
        return Err(TypeMismatch);
      }
      var parts := Split(size.value.s, 'x');
      if |parts| != 2 {
        return Err(BadSize);
      }
      var text := if Truthy(alt) then Some(Text(alt)) else None;
      return Ok(ImgTag(url, parts[0], parts[1], text));
    }
  }
}
