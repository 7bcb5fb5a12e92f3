/** The option directives: the callbacks behind the `chart-*` and `axis-*` tags,
    which turn already-resolved arguments into the key/value pairs of the chart
    URL, and the table that says which tag takes how many arguments. */
module Directives {
  import opened Wrappers
  import opened Values
  import opened Strings
  import opened OrderedMaps

  /** What a callback returns: a dictionary, as its pairs in iteration order. */
  type Pairs = seq<(string, Value)>

  /** `table.get(v, v)`: the alias a known string stands for, anything else passed
      through; a list or dictionary is unhashable and raises `TypeError`. */
  function Lookup(table: map<string, Value>, v: Value): (r: Result<Value>)
    ensures r.Ok? <==> Scalar(v)
    ensures r.Ok? && !(v.Str? && v.s in table) ==> r.value == v
    ensures r.Ok? && v.Str? && v.s in table ==> r.value == table[v.s]
  {
    if !Scalar(v) then Err(TypeMismatch)
    else if v.Str? && v.s in table then Ok(table[v.s])
    else Ok(v)
  }

  // ---- chart-type -------------------------------------------------------

  /** The readable chart-type names both copies know. */
  const CommonTypes: map<string, Value> := map[
    "line" := Str("lc"), "xy" := Str("lxy"), "line-xy" := Str("lxy"),
    "bar" := Str("bhg"), "column" := Str("bvg"), "bar-stacked" := Str("bhs"),
    "column-stacked" := Str("bvs"), "bar-grouped" := Str("bhg"),
    "column-grouped" := Str("bvg"), "pie" := Str("p"), "pie-3d" := Str("p3"),
    "venn" := Str("v"), "scatter" := Str("s"), "google-o-meter" := Str("gom")]

  /** The top-level copy adds `sparkline`, the googlecharts copy `map`. */
  function ChartTypes(variant: Variant): map<string, Value>
  {
    match variant
    case TopLevel => CommonTypes["sparkline" := Str("lc")]
    case GoogleCharts => CommonTypes["map" := Str("t")]
  }

  /** No API code is itself a readable name. */
  lemma CodesAreNotNames(variant: Variant)
    ensures forall name :: name in ChartTypes(variant) ==>
      ChartTypes(variant)[name].Str? && ChartTypes(variant)[name].s !in ChartTypes(variant)
  {
  }

  /** `chart_type(arg)`: `cht` is the code of a readable name, or the argument. */
  function ChartType(variant: Variant, arg: Value): (r: Result<Pairs>)
    ensures r.Ok? <==> Scalar(arg)
    ensures r.Ok? ==> |r.value| == 1 && r.value[0].0 == "cht"
    ensures r.Ok? && arg.Str? && arg.s in ChartTypes(variant) ==> r.value[0].1 == ChartTypes(variant)[arg.s]
    ensures r.Ok? && !(arg.Str? && arg.s in ChartTypes(variant)) ==> r.value[0].1 == arg
  {
    var code := Lookup(ChartTypes(variant), arg);
    if code.Err? then Err(code.error) else Ok([("cht", code.value)])
  }

  /** Naming a chart type twice changes nothing: a code passes through. */
  lemma ChartTypeIdempotent(variant: Variant, arg: Value)
    requires Scalar(arg)
    ensures var once := ChartType(variant, arg).value[0].1;
      ChartType(variant, once) == ChartType(variant, arg)
  {
    CodesAreNotNames(variant);
  }

  // ---- joined lists -----------------------------------------------------

  /** `{key: smart_join(sep, *args)}`. */
  function JoinedOption(key: string, sep: char, args: seq<Value>): (r: Pairs)
    ensures |r| == 1 && r[0].0 == key && r[0].1.Str?
    ensures Separable(sep, args) ==> Split(r[0].1.s, sep) == Texts(Present(args))
  {
    SmartJoinSplit(sep, args);
    [(key, Str(SmartJoin([sep], args)))]
  }

  /** `chart_colors(*args)`: the colours joined with `,` into `chco`. */
  function ChartColors(args: seq<Value>): (r: Pairs)
    ensures |r| == 1 && r[0].0 == "chco" && r[0].1.Str?
    ensures Separable(',', args) ==> Split(r[0].1.s, ',') == Texts(Present(args))
  {
    JoinedOption("chco", ',', args)
  }

  /** `chart_data_scale(*args)` (googlecharts copy): the scale joined into `chds`. */
  function ChartDataScale(args: seq<Value>): (r: Pairs)
    ensures |r| == 1 && r[0].0 == "chds" && r[0].1.Str?
    ensures Separable(',', args) ==> Split(r[0].1.s, ',') == Texts(Present(args))
  {
    JoinedOption("chds", ',', args)
  }

  /** `chart_legend(*labels)`: the flattened labels joined with `|` into `chdl`. */
  function ChartLegend(labels: seq<Value>): (r: Pairs)
    ensures |r| == 1 && r[0].0 == "chdl" && r[0].1.Str?
    ensures Separable('|', Flatten(labels)) ==> Split(r[0].1.s, '|') == Texts(Present(Flatten(labels)))
  {
    JoinedOption("chdl", '|', Flatten(labels))
  }

  /** `chart_labels(*labels)`: the same into `chl`. */
  function ChartLabels(labels: seq<Value>): (r: Pairs)
    ensures |r| == 1 && r[0].0 == "chl" && r[0].1.Str?
    ensures Separable('|', Flatten(labels)) ==> Split(r[0].1.s, '|') == Texts(Present(Flatten(labels)))
  {
    JoinedOption("chl", '|', Flatten(labels))
  }

  /** `chart_bar_width(width, barspace=None, groupspace=None)` into `chbh`. */
  function ChartBarWidth(width: Value, barspace: Value, groupspace: Value): (r: Pairs)
    ensures |r| == 1 && r[0].0 == "chbh" && r[0].1.Str?
    ensures Separable(',', [width, barspace, groupspace]) ==>
      Split(r[0].1.s, ',') == Texts(Present([width, barspace, groupspace]))
  {
    JoinedOption("chbh", ',', [width, barspace, groupspace])
  }

  /** `chart_line_style(thickness, line_length=None, space_length=None)` into `chls`. */
  function ChartLineStyle(thickness: Value, lineLength: Value, spaceLength: Value): (r: Pairs)
    ensures |r| == 1 && r[0].0 == "chls" && r[0].1.Str?
    ensures Separable(',', [thickness, lineLength, spaceLength]) ==>
      Split(r[0].1.s, ',') == Texts(Present([thickness, lineLength, spaceLength]))
  {
    JoinedOption("chls", ',', [thickness, lineLength, spaceLength])
  }

  /** `chart_grid(xstep, ystep, line_length=None, space_length=None)` into `chg`. */
  function ChartGrid(xstep: Value, ystep: Value, lineLength: Value, spaceLength: Value): (r: Pairs)
    ensures |r| == 1 && r[0].0 == "chg" && r[0].1.Str?
    ensures Separable(',', [xstep, ystep, lineLength, spaceLength]) ==>
      Split(r[0].1.s, ',') == Texts(Present([xstep, ystep, lineLength, spaceLength]))
  {
    JoinedOption("chg", ',', [xstep, ystep, lineLength, spaceLength])
  }

  // ---- size and title ---------------------------------------------------

  /** `chart_size(arg1, arg2=None)`: `WxH` when a second argument is given (a
      `None` first argument is dropped by `smart_join`), the first argument as it
      is otherwise. */
  function ChartSize(width: Value, height: Value): (r: Pairs)
    ensures |r| == 1 && r[0].0 == "chs"
    ensures !Truthy(height) ==> r[0].1 == width
    ensures Truthy(height) && width != Null && 'x' !in Text(width) && 'x' !in Text(height) ==>
      r[0].1.Str? && Split(r[0].1.s, 'x') == [Text(width), Text(height)]
  {
    if Truthy(height) then
      SmartJoinSplit('x', [width, height]);
      PresentPair(width, height);
      [("chs", Str(SmartJoin("x", [width, height])))]
    else [("chs", width)]
  }

  lemma PresentPair(a: Value, b: Value)
    ensures a != Null && b != Null ==> Present([a, b]) == [a, b]
  {
    assert [a, b][1..] == [b];
  }

  /** `chart_title(title, fontsize=None, color="000000")`: line breaks in the title
      become `|`; a font size adds `chts` as `color,size`.  Only a string has
      `replace`.  A literal dictionary with both keys iterates `chts` first. */
  function ChartTitle(title: Value, fontSize: Value, color: Value): (r: Result<Pairs>)
    ensures r.Ok? <==> title.Str?
    ensures r.Ok? ==> |r.value| == (if Truthy(fontSize) then 2 else 1)
    ensures r.Ok? ==> var t := r.value[|r.value| - 1];
      && t.0 == "chtt" && t.1.Str? && |t.1.s| == |title.s|
      && '\n' !in t.1.s
      && (forall i :: 0 <= i < |title.s| && title.s[i] == '\n' ==> t.1.s[i] == '|')
      && (forall i :: 0 <= i < |title.s| && title.s[i] != '\n' ==> t.1.s[i] == title.s[i])
    ensures r.Ok? && Truthy(fontSize) ==> r.value[0] == ("chts", Str(Text(color) + "," + Text(fontSize)))
  {
    if !title.Str? then Err(TypeMismatch)
    else
      ReplaceCharRemoves(title.s, '\n', '|');
      var t := ("chtt", Str(ReplaceChar(title.s, '\n', '|')));
      if Truthy(fontSize) then Ok([("chts", Str(Text(color) + "," + Text(fontSize))), t])
      else Ok([t])
  }

  // ---- fills and backgrounds --------------------------------------------

  /** `_solid(type, color)`: `type,s,color` into `chf`. */
  function Solid(kind: string, color: Value): (r: Pairs)
    ensures |r| == 1 && r[0].0 == "chf" && r[0].1.Str?
    ensures ',' !in kind && ',' !in Text(color) ==> Split(r[0].1.s, ',') == [kind, "s", Text(color)]
  {
    SolidSplit(kind, Text(color));
    [("chf", Str(kind + ",s," + Text(color)))]
  }

  lemma SolidSplit(kind: string, color: string)
    ensures ',' !in kind && ',' !in color ==> Split(kind + ",s," + color, ',') == [kind, "s", color]
  {
    if ',' !in kind && ',' !in color {
      var parts := [kind, "s", color];
      calc {
        Join(",", parts);
        { JoinCons(",", kind, ["s", color]); assert [kind] + ["s", color] == parts; }
        kind + "," + Join(",", ["s", color]);
        { JoinCons(",", "s", [color]); assert ["s"] + [color] == ["s", color]; }
        kind + "," + ("s" + "," + Join(",", [color]));
        { JoinCons(",", color, []); assert [color] + [] == [color]; }
        kind + ",s," + color;
      }
      SplitJoin(parts, ',');
    }
  }

  /** `chart_background(color)` and `chart_fill(color)`. */
  function ChartBackground(color: Value): (r: Pairs)
    ensures |r| == 1 && r[0].0 == "chf" && r[0].1.Str?
    ensures ',' !in Text(color) ==> Split(r[0].1.s, ',') == ["bg", "s", Text(color)]
  {
    Solid("bg", color)
  }

  function ChartFill(color: Value): (r: Pairs)
    ensures |r| == 1 && r[0].0 == "chf" && r[0].1.Str?
    ensures ',' !in Text(color) ==> Split(r[0].1.s, ',') == ["c", "s", Text(color)]
  {
    Solid("c", color)
  }

  /** `_fancy_background(bgtype, fancytype, angle, colors)`: a gradient (`lg`) or
      stripes (`ls`) as `type,fancy,angle,colour,...` into `chf`. */
  function FancyBackground(kind: string, fancy: string, angle: Value, colors: seq<Value>): (r: Pairs)
    ensures |r| == 1 && r[0].0 == "chf" && r[0].1.Str?
    ensures ',' !in kind && ',' !in fancy && Separable(',', [angle] + colors) ==>
      Split(r[0].1.s, ',') == [kind, fancy] + Texts(Present([angle] + colors))
  {
    FancySplit(kind, fancy, [angle] + colors);
    JoinedOption("chf", ',', [Str(kind), Str(fancy)] + ([angle] + colors))
  }

  lemma FancySplit(kind: string, fancy: string, rest: seq<Value>)
    ensures var args := [Str(kind), Str(fancy)] + rest;
      ',' !in kind && ',' !in fancy && Separable(',', rest) ==>
        Separable(',', args) && Texts(Present(args)) == [kind, fancy] + Texts(Present(rest))
  {
    var head := [Str(kind), Str(fancy)];
    var args := head + rest;
    if ',' !in kind && ',' !in fancy && Separable(',', rest) {
      var pr := Present(rest);
      PresentAppend(head, rest);
      assert Present(head) == head by {
        assert head[1..] == [Str(fancy)];
      }
      forall i | 0 <= i < |args| && args[i] != Null ensures ',' !in Text(args[i]) {
        if i >= 2 {
          assert args[i] == rest[i - 2];
        }
      }
      TextsAppend(head, pr);
      assert Texts(head) == [kind, fancy];
    }
  }

  function ChartBackgroundGradient(angle: Value, colors: seq<Value>): (r: Pairs)
    ensures |r| == 1 && r[0].0 == "chf" && r[0].1.Str?
    ensures Separable(',', [angle] + colors) ==> Split(r[0].1.s, ',') == ["bg", "lg"] + Texts(Present([angle] + colors))
  {
    FancyBackground("bg", "lg", angle, colors)
  }

  function ChartFillGradient(angle: Value, colors: seq<Value>): (r: Pairs)
    ensures |r| == 1 && r[0].0 == "chf" && r[0].1.Str?
    ensures Separable(',', [angle] + colors) ==> Split(r[0].1.s, ',') == ["c", "lg"] + Texts(Present([angle] + colors))
  {
    FancyBackground("c", "lg", angle, colors)
  }

  function ChartBackgroundStripes(angle: Value, colors: seq<Value>): (r: Pairs)
    ensures |r| == 1 && r[0].0 == "chf" && r[0].1.Str?
    ensures Separable(',', [angle] + colors) ==> Split(r[0].1.s, ',') == ["bg", "ls"] + Texts(Present([angle] + colors))
  {
    FancyBackground("bg", "ls", angle, colors)
  }

  function ChartFillStripes(angle: Value, colors: seq<Value>): (r: Pairs)
    ensures |r| == 1 && r[0].0 == "chf" && r[0].1.Str?
    ensures Separable(',', [angle] + colors) ==> Split(r[0].1.s, ',') == ["c", "ls"] + Texts(Present([angle] + colors))
  {
    FancyBackground("c", "ls", angle, colors)
  }

  // ---- markers ----------------------------------------------------------

  const RangeTypes: map<string, Value> := map[
    "h" := Str("r"), "horiz" := Str("r"), "horizontal" := Str("r"),
    "v" := Str("R"), "vert" := Str("R"), "vertical" := Str("R")]

  /** `chart_range_marker(range_type, color, start, end)`: `type,color,0,start,end`
      into `chm`, with the horizontal names meaning `r` and the vertical ones `R`. */
  function ChartRangeMarker(rangeType: Value, color: Value, start: Value, end: Value): (r: Result<Pairs>)
    ensures r.Ok? <==> Scalar(rangeType)
    ensures r.Ok? ==> |r.value| == 1 && r.value[0].0 == "chm" && r.value[0].1.Str?
    ensures r.Ok? ==> var rt := Lookup(RangeTypes, rangeType).value;
      Separable(',', [rt, color, start, end]) ==>
        Split(r.value[0].1.s, ',') == Texts(Present([rt, color, Str("0"), start, end]))
  {
    var rt := Lookup(RangeTypes, rangeType);
    if rt.Err? then Err(rt.error)
    else
      RangeMarkerSplit(rt.value, color, start, end);
      Ok(JoinedOption("chm", ',', [rt.value, color, Str("0"), start, end]))
  }

  lemma RangeMarkerSplit(rt: Value, color: Value, start: Value, end: Value)
    ensures Separable(',', [rt, color, start, end]) ==> Separable(',', [rt, color, Str("0"), start, end])
  {
    var args := [rt, color, Str("0"), start, end];
    if Separable(',', [rt, color, start, end]) {
      PresentAppend([rt, color], [Str("0"), start, end]);
      PresentAppend([rt, color], [start, end]);
      assert [rt, color] + [Str("0"), start, end] == args;
      assert [rt, color] + [start, end] == [rt, color, start, end];
      forall i | 0 <= i < |args| && args[i] != Null ensures ',' !in Text(args[i]) {
        if i < 2 {
          assert args[i] == [rt, color, start, end][i];
        } else if i > 2 {
          assert args[i] == [rt, color, start, end][i - 1];
        }
      }
    }
  }

  /** `chart_fill_area(color, startindex=0, endindex=0)`: `b` (between two lines)
      when either index is truthy, `B` (down to the axis) otherwise. */
  function ChartFillArea(color: Value, startIndex: Value, endIndex: Value): (r: Pairs)
    ensures |r| == 1 && r[0].0 == "chm" && r[0].1.Str?
    ensures var kind := if Truthy(startIndex) || Truthy(endIndex) then "b" else "B";
      |r[0].1.s| >= 1 && r[0].1.s[..1] == kind
    ensures var kind := if Truthy(startIndex) || Truthy(endIndex) then "b" else "B";
      CommaFree(color) && CommaFree(startIndex) && CommaFree(endIndex) ==>
        Split(r[0].1.s, ',') == Texts(Present([Str(kind), color, startIndex, endIndex, Str("0")]))
  {
    var kind := if Truthy(startIndex) || Truthy(endIndex) then "b" else "B";
    var args := [Str(kind), color, startIndex, endIndex, Str("0")];
    assert Present(args)[0] == Str(kind);
    assert Texts(Present(args))[0] == kind;
    JoinHead(",", Texts(Present(args)));
    FillAreaSplit(kind, color, startIndex, endIndex);
    JoinedOption("chm", ',', args)
  }

  /** A value that is `None` (and so left out) or renders without a comma. */
  predicate CommaFree(v: Value)
  {
    v == Null || ',' !in Text(v)
  }

  lemma FillAreaSplit(kind: string, color: Value, startIndex: Value, endIndex: Value)
    requires kind == "b" || kind == "B"
    ensures CommaFree(color) && CommaFree(startIndex) && CommaFree(endIndex) ==>
      Separable(',', [Str(kind), color, startIndex, endIndex, Str("0")])
  {
    var args := [Str(kind), color, startIndex, endIndex, Str("0")];
    assert Present(args)[0] == Str(kind);
  }

  /** A join starts with its first part. */
  lemma JoinHead(sep: string, parts: seq<string>)
    requires |parts| >= 1
    ensures Join(sep, parts)[..|parts[0]|] == parts[0]
  {
    if |parts| > 1 {
      JoinCons(sep, parts[0], parts[1..]);
      assert [parts[0]] + parts[1..] == parts;
    }
  }

  const MarkerTypes: map<string, Value> := map[
    "arrow" := Str("a"), "cross" := Str("c"), "diamond" := Str("d"),
    "circle" := Str("o"), "square" := Str("s"), "line" := Str("v"),
    "full-line" := Str("V"), "h-line" := Str("h"), "horiz-line" := Str("h"),
    "horizontal-line" := Str("h")]

  /** `chart_marker(marker, color, dataset_index, data_point, size)` into `chm`. */
  function ChartMarker(marker: Value, color: Value, datasetIndex: Value, dataPoint: Value, size: Value): (r: Result<Pairs>)
    ensures r.Ok? <==> Scalar(marker)
    ensures r.Ok? ==> var m := Lookup(MarkerTypes, marker).value;
      var args := [m, color, datasetIndex, dataPoint, size];
      && |r.value| == 1 && r.value[0].0 == "chm" && r.value[0].1.Str?
      && (Separable(',', args) ==> Split(r.value[0].1.s, ',') == Texts(Present(args)))
  {
    var m := Lookup(MarkerTypes, marker);
    if m.Err? then Err(m.error)
    else Ok(JoinedOption("chm", ',', [m.value, color, datasetIndex, dataPoint, size]))
  }

  // ---- maps (googlecharts copy) -----------------------------------------

  /** `chart_map_area(where)`: the argument as `chtm`. */
  function ChartMapArea(where: Value): Pairs
  {
    [("chtm", where)]
  }

  /** `chart_map_data(data)`: the places (the keys) concatenated into `chld`, and
      the values, in the same order, as the hidden `_mapdata` list.  Only a
      dictionary has `items`.  The literal dictionary iterates `_mapdata` first. */
  function ChartMapData(data: Value): (r: Result<Pairs>)
    ensures r.Ok? <==> data.Dict?
    ensures r.Ok? ==> |r.value| == 2 && r.value[0].0 == "_mapdata" && r.value[1].0 == "chld"
    ensures r.Ok? ==> var values := r.value[0].1;
      && values.List? && |values.items| == |data.entries|
      && forall i :: 0 <= i < |data.entries| ==> values.items[i] == data.entries[i].1
    ensures r.Ok? ==> var places := seq(|data.entries|, i requires 0 <= i < |data.entries| => data.entries[i].0);
      r.value[1].1 == Str(Join("", Texts(Present(places))))
  {
    if !data.Dict? then Err(TypeMismatch)
    else
      var places := seq(|data.entries|, i requires 0 <= i < |data.entries| => data.entries[i].0);
      var values := seq(|data.entries|, i requires 0 <= i < |data.entries| => data.entries[i].1);
      Ok([("_mapdata", List(values)), ("chld", Str(SmartJoin("", places)))])
  }

  // ---- axes -------------------------------------------------------------

  /** `AxisNode.sides`: the side names mapped to the API's axis codes. */
  const Sides: map<string, Value> := map[
    "left" := Str("y"), "right" := Str("r"), "top" := Str("t"), "bottom" := Str("x")]

  /** An axis: its side code and its own options, whose values carry a `%s` for
      the axis index. */
  datatype Axis = Axis(side: Value, options: OrderedMap<Value>)

  /** `get_axis`: a new axis on the resolved side. */
  function NewAxis(side: Value): (r: Result<Axis>)
    ensures r.Ok? <==> Scalar(side)
    ensures r.Ok? ==> r.value.options == Empty() && r.value.side == Lookup(Sides, side).value
  {
    var code := Lookup(Sides, side);
    if code.Err? then Err(code.error) else Ok(Axis(code.value, Empty()))
  }

  /** `NoAxisNode.resolve`: an axis drawn without labels or ticks. */
  function HiddenAxis(side: Value): (r: Result<Axis>)
    ensures r.Ok? <==> Scalar(side)
    ensures r.Ok? ==> Valid(r.value.options)
    ensures r.Ok? ==> Items(r.value.options) == [("chxs", Str("%s,000000,11,0,_")), ("chxl", Str("%s:||"))]
  {
    var axis := NewAxis(side);
    if axis.Err? then axis
    else
      var options := Set(Set(axis.value.options, "chxs", Str("%s,000000,11,0,_")), "chxl", Str("%s:||"));
      TwoItems("chxs", Str("%s,000000,11,0,_"), "chxl", Str("%s:||"));
      Ok(Axis(axis.value.side, options))
  }

  /** Two different keys set one after the other on an empty map come back in
      that order. */
  lemma TwoItems(k1: string, v1: Value, k2: string, v2: Value)
    requires k1 != k2
    ensures var m := Set(Set(Empty(), k1, v1), k2, v2);
      Valid(m) && Items(m) == [(k1, v1), (k2, v2)]
  {
    var m0: OrderedMap<Value> := Empty();
    var m1 := Set(m0, k1, v1);
    SetNewItems(m0, k1, v1);
    SetNewItems(m1, k2, v2);
    assert Items(m0) == [];
  }

  /** `axis_labels(*labels)`: `%s:|` and the flattened labels joined with `|`. */
  function AxisLabels(labels: seq<Value>): (r: Pairs)
    ensures |r| == 1 && r[0].0 == "chxl" && r[0].1.Str?
    ensures forall index :: var joined := SmartJoin("|", Flatten(labels));
      '%' !in joined ==> Format(r[0].1.s, index) == Ok(index + ":|" + joined)
  {
    var joined := SmartJoin("|", Flatten(labels));
    var v := "%s:|" + joined;
    forall index | '%' !in joined ensures Format(v, index) == Ok(index + ":|" + joined) {
      assert '%' !in ":|" + joined;
      FormatLeading(":|" + joined, index);
      assert v == "%s" + (":|" + joined);
      assert index + (":|" + joined) == index + ":|" + joined;
    }
    [("chxl", Str(v))]
  }

  /** `axis_label_position(*positions)`: `%s,` and the flattened positions. */
  function AxisLabelPositions(positions: seq<Value>): (r: Pairs)
    ensures |r| == 1 && r[0].0 == "chxp" && r[0].1.Str?
    ensures forall index :: var joined := SmartJoin(",", Flatten(positions));
      '%' !in joined && |Present(Flatten(positions))| >= 1 ==> Format(r[0].1.s, index) == Ok(index + "," + joined)
  {
    var items := Flatten(positions);
    var rest := Texts(Present(items));
    var v := SmartJoin(",", [Str("%s")] + items);
    PlaceholderFirst(items);
    forall index | '%' !in Join(",", rest) && |rest| >= 1 ensures Format(v, index) == Ok(index + "," + Join(",", rest)) {
      LeadingPlaceholder(rest, index);
    }
    [("chxp", Str(v))]
  }

  /** `smart_join` with the placeholder in front renders it first. */
  lemma PlaceholderFirst(items: seq<Value>)
    ensures SmartJoin(",", [Str("%s")] + items) == Join(",", ["%s"] + Texts(Present(items)))
  {
    PresentAppend([Str("%s")], items);
    assert Present([Str("%s")]) == [Str("%s")] by {
      assert [Str("%s")][1..] == [];
    }
    TextsAppend([Str("%s")], Present(items));
    assert Texts([Str("%s")]) == ["%s"];
  }

  /** A template joined as the placeholder and some `%`-free parts formats to the
      index followed by those parts. */
  lemma LeadingPlaceholder(rest: seq<string>, index: string)
    requires '%' !in Join(",", rest) && |rest| >= 1
    ensures Format(Join(",", ["%s"] + rest), index) == Ok(index + "," + Join(",", rest))
  {
    JoinCons(",", "%s", rest);
    CommaTail(Join(",", rest), index);
  }

  lemma CommaTail(joined: string, index: string)
    requires '%' !in joined
    ensures Format("%s" + "," + joined, index) == Ok(index + "," + joined)
  {
    var tail := "," + joined;
    assert tail == [','] + joined;
    FormatLeading(tail, index);
    assert "%s" + "," + joined == "%s" + tail;
    assert index + tail == index + "," + joined;
  }

  /** `axis_range(start, end)`: `%s,start,end` into `chxr`. */
  function AxisRange(start: Value, end: Value): (r: Pairs)
    ensures |r| == 1 && r[0].0 == "chxr" && r[0].1.Str?
    ensures forall index :: '%' !in Text(start) + "," + Text(end) ==>
      Format(r[0].1.s, index) == Ok(index + "," + Text(start) + "," + Text(end))
  {
    var tail := "," + Text(start) + "," + Text(end);
    var v := "%s" + tail;
    forall index | '%' !in Text(start) + "," + Text(end) ensures Format(v, index) == Ok(index + tail) {
      assert '%' !in tail by {
        assert tail == [','] + (Text(start) + "," + Text(end));
      }
      FormatLeading(tail, index);
    }
    assert forall index :: index + tail == index + "," + Text(start) + "," + Text(end);
    [("chxr", Str(v))]
  }

  const Alignments: map<string, Value> := map[
    "left" := Num(-1.0, "-1"), "right" := Num(1.0, "1"), "center" := Num(0.0, "0")]

  /** `axis_style(color, font_size=None, alignment=None)`: `%s,color,size,align`
      into `chxs`, with the alignment names meaning -1, 1 and 0. */
  function AxisStyle(color: Value, fontSize: Value, alignment: Value): (r: Result<Pairs>)
    ensures r.Ok? <==> Scalar(alignment)
    ensures r.Ok? ==> |r.value| == 1 && r.value[0].0 == "chxs" && r.value[0].1.Str?
    ensures r.Ok? ==> var args := [Str("%s"), color, fontSize, Lookup(Alignments, alignment).value];
      Separable(',', args) ==> Split(r.value[0].1.s, ',') == Texts(Present(args))
  {
    var a := Lookup(Alignments, alignment);
    if a.Err? then Err(a.error)
    else Ok(JoinedOption("chxs", ',', [Str("%s"), color, fontSize, a.value]))
  }

  // ---- the tag table ----------------------------------------------------

  /** The option tags of the two copies (`chart-auto-colors` and `chart-makers`
      are not part of this model). */
  datatype Tag =
    | TypeTag | ColorsTag | DataScaleTag | SizeTag
    | BackgroundTag | FillTag | BackgroundGradientTag | FillGradientTag
    | BackgroundStripesTag | FillStripesTag | TitleTag | LegendTag | LabelsTag
    | BarWidthTag | LineStyleTag | GridTag | RangeMarkerTag | FillAreaTag | MarkerTag
    | MapAreaTag | MapDataTag
    | AxisLabelsTag | AxisLabelPositionsTag | AxisRangeTag | AxisStyleTag
    | DataRangeTag | AltTag

  /** Which node class a tag makes: a chart option, an axis option, or a
      metadata node whose callback receives the chart itself. */
  datatype Kind = ChartOption | AxisOption | Metadata

  function KindOf(tag: Tag): Kind
  {
    match tag
    case AxisLabelsTag | AxisLabelPositionsTag | AxisRangeTag | AxisStyleTag => AxisOption
    case DataRangeTag | AltTag => Metadata
    case _ => ChartOption
  }

  /** The tags only the googlecharts copy registers. */
  predicate Registered(variant: Variant, tag: Tag)
  {
    variant == GoogleCharts || !(tag.DataScaleTag? || tag.MapAreaTag? || tag.MapDataTag?)
  }

  /** The separator a tag's values are accumulated with, if it accumulates. */
  function Multi(tag: Tag): Option<string>
  {
    match tag
    case ColorsTag | DataScaleTag => Some(",")
    case BackgroundTag | FillTag | BackgroundGradientTag | FillGradientTag
      | BackgroundStripesTag | FillStripesTag | LegendTag | LabelsTag
      | LineStyleTag | RangeMarkerTag | FillAreaTag | MarkerTag => Some("|")
    case _ => None
  }

  /** A callback's parameter list as `inspect.getargspec` sees it: the number of
      named parameters (the chart included, for metadata callbacks), how many of
      them have defaults, and whether it takes `*args`. */
  datatype Signature = Signature(params: nat, defaults: nat, varargs: bool)

  function SignatureOf(tag: Tag): (s: Signature)
    ensures s.defaults <= s.params
  {
    match tag
    case TypeTag | BackgroundTag | FillTag | MapAreaTag | MapDataTag => Signature(1, 0, false)
    case ColorsTag | DataScaleTag | LegendTag | LabelsTag | AxisLabelsTag | AxisLabelPositionsTag => Signature(0, 0, true)
    case SizeTag => Signature(2, 1, false)
    case BackgroundGradientTag | FillGradientTag | BackgroundStripesTag | FillStripesTag => Signature(1, 0, true)
    case TitleTag | BarWidthTag | LineStyleTag | FillAreaTag | AxisStyleTag => Signature(3, 2, false)
    case GridTag => Signature(4, 2, false)
    case RangeMarkerTag => Signature(4, 0, false)
    case MarkerTag => Signature(5, 0, false)
    case AxisRangeTag => Signature(2, 0, false)
    case DataRangeTag => Signature(3, 2, false)
    case AltTag => Signature(2, 1, false)
  }

  /** `min_args`: the top-level copy subtracts the defaults from the parameter
      count; the googlecharts copy starts from 0 and does so only when there are
      defaults. */
  function MinArgs(variant: Variant, s: Signature): nat
    requires s.defaults <= s.params
  {
    match variant
    case TopLevel => s.params - s.defaults
    case GoogleCharts => if s.defaults > 0 then s.params - s.defaults else 0
  }

  /** The check made when the template is compiled: `n` arguments are accepted
      unless the callback has no `*args` and `n` is outside `min_args..max_args`. */
  predicate Accepts(variant: Variant, tag: Tag, n: nat)
  {
    var s := SignatureOf(tag);
    Registered(variant, tag) && (s.varargs || (MinArgs(variant, s) <= n <= s.params))
  }

  /** Whether Python can call the callback with `n` tag arguments (after the
      chart, for a metadata callback) without a `TypeError`. */
  predicate Binds(tag: Tag, n: nat)
  {
    var s := SignatureOf(tag);
    var given := if KindOf(tag) == Metadata then n + 1 else n;
    s.params - s.defaults <= given && (s.varargs || given <= s.params)
  }

  /** In the top-level copy an accepted option tag can be called exactly when it
      is not a `*args` callback given fewer arguments than its named parameters:
      `unlimited` skips both bounds. */
  lemma TopLevelAcceptedBinds(tag: Tag, n: nat)
    requires Accepts(TopLevel, tag, n) && KindOf(tag) != Metadata
    ensures Binds(tag, n) <==> !SignatureOf(tag).varargs || n >= SignatureOf(tag).params
  {
  }

  /** `chart-background-gradient` with no argument passes the top-level check,
      and the call then raises because `angle` is missing. */
  lemma TopLevelVarargsAcceptsTooFew()
    ensures Accepts(TopLevel, BackgroundGradientTag, 0) && !Binds(BackgroundGradientTag, 0)
    ensures Accepts(TopLevel, FillStripesTag, 0) && !Binds(FillStripesTag, 0)
  {
  }

  /** In the googlecharts copy a tag without defaults accepts too few arguments:
      `chart-type` with none gets through, and the call then raises. */
  lemma GoogleChartsAcceptsTooFew()
    ensures Accepts(GoogleCharts, TypeTag, 0) && !Binds(TypeTag, 0)
    ensures Accepts(GoogleCharts, RangeMarkerTag, 2) && !Binds(RangeMarkerTag, 2)
    ensures !Accepts(TopLevel, TypeTag, 0) && !Accepts(TopLevel, RangeMarkerTag, 2)
  {
  }

  /** For metadata tags `max_args` counts the chart, so both copies accept one
      argument more than the callback can take. */
  lemma MetadataAcceptsOneTooMany(variant: Variant)
    ensures Accepts(variant, DataRangeTag, 3) && !Binds(DataRangeTag, 3)
    ensures Accepts(variant, AltTag, 2) && !Binds(AltTag, 2)
  {
  }

  /** The argument in position `i`, or the parameter's default. */
  function Arg(args: seq<Value>, i: nat, default: Value): Value
  {
    if i < |args| then args[i] else default
  }

  /** Calling an option tag's callback with its resolved arguments. */
  function Callback(variant: Variant, tag: Tag, args: seq<Value>): (r: Result<Pairs>)
    requires Registered(variant, tag) && KindOf(tag) != Metadata
    ensures !Binds(tag, |args|) ==> r == Err(TypeMismatch)
    ensures r.Ok? ==> |r.value| >= 1
  {
    if !Binds(tag, |args|) then Err(TypeMismatch)
    else match tag
      case TypeTag => ChartType(variant, args[0])
      case ColorsTag => Ok(ChartColors(args))
      case DataScaleTag => Ok(ChartDataScale(args))
      case SizeTag => Ok(ChartSize(args[0], Arg(args, 1, Null)))
      case BackgroundTag => Ok(ChartBackground(args[0]))
      case FillTag => Ok(ChartFill(args[0]))
      case BackgroundGradientTag => Ok(ChartBackgroundGradient(args[0], args[1..]))
      case FillGradientTag => Ok(ChartFillGradient(args[0], args[1..]))
      case BackgroundStripesTag => Ok(ChartBackgroundStripes(args[0], args[1..]))
      case FillStripesTag => Ok(ChartFillStripes(args[0], args[1..]))
      case TitleTag => ChartTitle(args[0], Arg(args, 1, Null), Arg(args, 2, Str("000000")))
      case LegendTag => Ok(ChartLegend(args))
      case LabelsTag => Ok(ChartLabels(args))
      case BarWidthTag => Ok(ChartBarWidth(args[0], Arg(args, 1, Null), Arg(args, 2, Null)))
      case LineStyleTag => Ok(ChartLineStyle(args[0], Arg(args, 1, Null), Arg(args, 2, Null)))
      case GridTag => Ok(ChartGrid(args[0], args[1], Arg(args, 2, Null), Arg(args, 3, Null)))
      case RangeMarkerTag => ChartRangeMarker(args[0], args[1], args[2], args[3])
      case FillAreaTag => Ok(ChartFillArea(args[0], Arg(args, 1, Num(0.0, "0")), Arg(args, 2, Num(0.0, "0"))))
      case MarkerTag => ChartMarker(args[0], args[1], args[2], args[3], args[4])
      case MapAreaTag => Ok(ChartMapArea(args[0]))
      case MapDataTag => ChartMapData(args[0])
      case AxisLabelsTag => Ok(AxisLabels(args))
      case AxisLabelPositionsTag => Ok(AxisLabelPositions(args))
      case AxisRangeTag => Ok(AxisRange(args[0], args[1]))
      case AxisStyleTag => AxisStyle(args[0], Arg(args, 1, Null), Arg(args, 2, Null))
  }

  /** Every callback returns a dictionary: its keys are distinct, which is what
      the merge rule relies on. */
  lemma CallbackKeysDistinct(variant: Variant, tag: Tag, args: seq<Value>)
    requires Registered(variant, tag) && KindOf(tag) != Metadata
    requires Callback(variant, tag, args).Ok?
    ensures Distinct(KeysOf(Callback(variant, tag, args).value))
  {
  }
}
