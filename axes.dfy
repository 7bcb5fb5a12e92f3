/** Axes: resolving an `{% axis %}` block into an axis with its options, and the
    part of `Chart.url` that gathers every axis's options, with the axis index in
    place of each `%s`, into the `chxt` and per-key query items. */
module Axes {
  import opened Wrappers
  import opened Values
  import opened Strings
  import opened OrderedMaps
  import opened Options
  import opened Quoting
  import opened Directives

  // ---- resolving an axis block ------------------------------------------

  /** A node inside an `{% axis %}` block: an option tag with its resolved
      arguments, or anything else (text, other tags). */
  datatype BodyNode = OptionTag(tag: Tag, args: seq<Value>) | OtherNode

  /** Only axis option nodes act on the axis; everything else in the block is
      skipped. */
  predicate Acts(node: BodyNode)
  {
    node.OptionTag? && KindOf(node.tag) == AxisOption
  }

  /** The block's axis option nodes applied to `axis`, in order; a callback that
      raises aborts the block.  Axis options never accumulate, so each one is a
      plain `dict.update`. */
  function AxisBody(variant: Variant, axis: Axis, nodes: seq<BodyNode>): Result<Axis>
    decreases |nodes|
  {
    if nodes == [] then Ok(axis)
    else if !Acts(nodes[0]) then AxisBody(variant, axis, nodes[1..])
    else
      var data := Callback(variant, nodes[0].tag, nodes[0].args);
      if data.Err? then Err(data.error)
      else AxisBody(variant, Axis(axis.side, Update(axis.options, data.value)), nodes[1..])
  }

  /** `AxisNode.resolve`: a new axis on the resolved side, then the block. */
  function ResolvedAxis(variant: Variant, side: Value, nodes: seq<BodyNode>): Result<Axis>
  {
    var axis := NewAxis(side);
    if axis.Err? then axis else AxisBody(variant, axis.value, nodes)
  }

  /** `AxisNode.resolve`, node by node. */
  method ResolveAxis(variant: Variant, side: Value, nodes: seq<BodyNode>) returns (r: Result<Axis>)
    ensures r == ResolvedAxis(variant, side, nodes)
  {
    r := NewAxis(side);
    if r.Err? {
      return;
    }
    var axis := r.value;
    var i := 0;
    while i < |nodes|
      invariant 0 <= i <= |nodes|
      invariant ResolvedAxis(variant, side, nodes) == AxisBody(variant, axis, nodes[i..])
    {
      assert nodes[i..][1..] == nodes[i + 1..];
      var node := nodes[i];
      if Acts(node) {
        var data := Callback(variant, node.tag, node.args);
        if data.Err? {
          return Err(data.error);
        }
        var options, failure := UpdateOptions(axis.options, data.value, None);
        MergeWithoutMulti(axis.options, data.value);
        axis := Axis(axis.side, options);
      }
      i := i + 1;
    }
    r := Ok(axis);
  }

  /** The keys the axis option callbacks set. */
  const AxisKeys: set<string> := {"chxl", "chxp", "chxr", "chxs"}

  /** An axis as the callbacks leave it: a consistent option map that holds only
      axis keys, each with a string value. */
  ghost predicate WellFormed(axis: Axis)
  {
    && Valid(axis.options)
    && forall k :: k in axis.options.vals ==> k in AxisKeys && axis.options.vals[k].Str?
  }

  /** Each axis option callback returns one axis key with a string value. */
  lemma AxisCallbackShape(variant: Variant, tag: Tag, args: seq<Value>)
    requires KindOf(tag) == AxisOption
    requires Callback(variant, tag, args).Ok?
    ensures var data := Callback(variant, tag, args).value;
      |data| == 1 && data[0].0 in AxisKeys && data[0].1.Str?
  {
  }

  lemma {:induction false} AxisBodyWellFormed(variant: Variant, axis: Axis, nodes: seq<BodyNode>)
    requires WellFormed(axis)
    ensures AxisBody(variant, axis, nodes).Ok? ==> WellFormed(AxisBody(variant, axis, nodes).value)
    ensures AxisBody(variant, axis, nodes).Ok? ==> AxisBody(variant, axis, nodes).value.side == axis.side
    decreases |nodes|
  {
    if nodes != [] && Acts(nodes[0]) {
      var data := Callback(variant, nodes[0].tag, nodes[0].args);
      if data.Ok? {
        AxisCallbackShape(variant, nodes[0].tag, nodes[0].args);
        var options := Update(axis.options, data.value);
        assert data.value[1..] == [];
        assert options == Update(Set(axis.options, data.value[0].0, data.value[0].1), []);
        AxisBodyWellFormed(variant, Axis(axis.side, options), nodes[1..]);
      }
    } else if nodes != [] {
      AxisBodyWellFormed(variant, axis, nodes[1..]);
    }
  }

  /** A resolved axis sits on the side's API code and carries only axis keys with
      string values, which is what `url()` substitutes the index into. */
  lemma ResolvedAxisShape(variant: Variant, side: Value, nodes: seq<BodyNode>)
    ensures ResolvedAxis(variant, side, nodes).Ok? ==>
      && WellFormed(ResolvedAxis(variant, side, nodes).value)
      && ResolvedAxis(variant, side, nodes).value.side == Lookup(Sides, side).value
  {
    var axis := NewAxis(side);
    if axis.Ok? {
      AxisBodyWellFormed(variant, axis.value, nodes);
    }
  }

  /** `NoAxisNode.resolve` gives a well-formed axis too. */
  lemma HiddenAxisWellFormed(side: Value)
    ensures HiddenAxis(side).Ok? ==> WellFormed(HiddenAxis(side).value)
  {
    if HiddenAxis(side).Ok? {
      var options := HiddenAxis(side).value.options;
      assert options.keys == ["chxs", "chxl"];
    }
  }

  // ---- gathering the axis options in url() -----------------------------

  /** `axis.options[opt] % i`: only a string template takes the index. */
  function Placed(v: Value, i: nat): Result<string>
  {
    if v.Str? then Format(v.s, NatText(i)) else Err(TypeMismatch)
  }

  /** The list gathered so far for `k`, empty before `setdefault` creates it. */
  function Prior(acc: OrderedMap<seq<string>>, k: string): seq<string>
  {
    if k in acc.vals then acc.vals[k] else []
  }

  /** `axis_options.setdefault(k, []).append(s)`. */
  function Append(acc: OrderedMap<seq<string>>, k: string, s: string): OrderedMap<seq<string>>
  {
    Set(acc, k, Prior(acc, k) + [s])
  }

  /** The inner loop: axis number `i`'s options, in its key order. */
  function AppendOptions(acc: OrderedMap<seq<string>>, items: seq<(string, Value)>, i: nat): (r: Result<OrderedMap<seq<string>>>)
    ensures Valid(acc) && r.Ok? ==> Valid(r.value)
    decreases |items|
  {
    if items == [] then Ok(acc)
    else
      var p := Placed(items[0].1, i);
      if p.Err? then Err(p.error) else AppendOptions(Append(acc, items[0].0, p.value), items[1..], i)
  }

  /** The outer loop over the first `|axes|` axes, the last one last. */
  function Gather(axes: seq<Axis>): (r: Result<OrderedMap<seq<string>>>)
    requires forall j :: 0 <= j < |axes| ==> Valid(axes[j].options)
    ensures r.Ok? ==> Valid(r.value)
    decreases |axes|
  {
    if axes == [] then Ok(Empty())
    else
      var prev := Gather(axes[..|axes| - 1]);
      if prev.Err? then prev
      else AppendOptions(prev.value, Items(axes[|axes| - 1].options), |axes| - 1)
  }

  /** Every axis's keys, axis after axis. */
  function AllKeys(axes: seq<Axis>): seq<string>
    decreases |axes|
  {
    if axes == [] then [] else AllKeys(axes[..|axes| - 1]) + axes[|axes| - 1].options.keys
  }

  /** What axis number `i` contributes to key `k`: its filled-in template, or
      nothing when it lacks the key. */
  function Cell(axis: Axis, k: string, i: nat): seq<string>
  {
    if k in axis.options.vals && Placed(axis.options.vals[k], i).Ok? then [Placed(axis.options.vals[k], i).value] else []
  }

  /** Key `k`'s strings in axis order. */
  function Column(axes: seq<Axis>, k: string): seq<string>
    decreases |axes|
  {
    if axes == [] then [] else Column(axes[..|axes| - 1], k) + Cell(axes[|axes| - 1], k, |axes| - 1)
  }

  /** Which keys were seen before only matters as a set. */
  lemma {:induction false} FreshSeenSet(s1: seq<string>, s2: seq<string>, data: seq<string>)
    requires forall x :: x in s1 <==> x in s2
    ensures Fresh(s1, data) == Fresh(s2, data)
    decreases |data|
  {
    if data != [] {
      if data[0] in s1 {
        FreshSeenSet(s1, s2, data[1..]);
      } else {
        FreshSeenSet(s1 + [data[0]], s2 + [data[0]], data[1..]);
      }
    }
  }

  lemma {:induction false} FreshAppend(seen: seq<string>, a: seq<string>, b: seq<string>)
    ensures Fresh(seen, a + b) == Fresh(seen, a) + Fresh(seen + a, b)
    decreases |a|
  {
    if a == [] {
      assert a + b == b && seen + a == seen;
    } else {
      var x, ab := a[0], a + b;
      assert ab[0] == x && ab[1..] == a[1..] + b;
      if x in seen {
        assert Fresh(seen, ab) == Fresh(seen, a[1..] + b);
        assert Fresh(seen, a) == Fresh(seen, a[1..]);
        FreshAppend(seen, a[1..], b);
        FreshSeenSet(seen + a[1..], seen + a, b);
      } else {
        var seen' := seen + [x];
        assert Fresh(seen, ab) == [x] + Fresh(seen', a[1..] + b);
        assert Fresh(seen, a) == [x] + Fresh(seen', a[1..]);
        FreshAppend(seen', a[1..], b);
        assert seen' + a[1..] == seen + a;
      }
    }
  }

  /** The inner loop succeeds exactly when every template of the axis takes the
      index. */
  lemma {:induction false} AppendOptionsOk(acc: OrderedMap<seq<string>>, items: seq<(string, Value)>, i: nat)
    ensures AppendOptions(acc, items, i).Ok? <==> forall j :: 0 <= j < |items| ==> Placed(items[j].1, i).Ok?
    decreases |items|
  {
    if items != [] {
      var p := Placed(items[0].1, i);
      if p.Ok? {
        AppendOptionsOk(Append(acc, items[0].0, p.value), items[1..], i);
        forall j | 1 <= j < |items| ensures items[j] == items[1..][j - 1] { }
      }
    }
  }

  /** The inner loop keeps the keys gathered so far in place and appends the new
      ones in the axis's order. */
  lemma {:induction false} AppendOptionsKeys(acc: OrderedMap<seq<string>>, items: seq<(string, Value)>, i: nat)
    requires Valid(acc)
    ensures var r := AppendOptions(acc, items, i);
      r.Ok? ==> r.value.keys == acc.keys + Fresh(acc.keys, KeysOf(items))
    decreases |items|
  {
    if items != [] {
      var k := items[0].0;
      assert KeysOf(items[1..]) == KeysOf(items)[1..];
      var p := Placed(items[0].1, i);
      if p.Ok? {
        var acc' := Append(acc, k, p.value);
        AppendOptionsKeys(acc', items[1..], i);
        if k in acc.vals {
          assert acc'.keys == acc.keys;
          assert Fresh(acc.keys, KeysOf(items)) == Fresh(acc.keys, KeysOf(items[1..]));
        } else {
          assert acc'.keys == acc.keys + [k];
          assert Fresh(acc.keys, KeysOf(items)) == [k] + Fresh(acc'.keys, KeysOf(items[1..]));
        }
      }
    }
  }

  /** The inner loop appends each template of the axis, filled in, to its key's
      list, and leaves the other keys' lists alone. */
  lemma {:induction false} AppendOptionsCells(acc: OrderedMap<seq<string>>, items: seq<(string, Value)>, i: nat)
    requires Distinct(KeysOf(items))
    ensures var r := AppendOptions(acc, items, i);
      r.Ok? ==>
        && (forall j :: 0 <= j < |items| ==>
              Placed(items[j].1, i).Ok? && Prior(r.value, items[j].0) == Prior(acc, items[j].0) + [Placed(items[j].1, i).value])
        && (forall k :: k !in KeysOf(items) ==> Prior(r.value, k) == Prior(acc, k))
    decreases |items|
  {
    AppendOptionsOk(acc, items, i);
    if items != [] {
      var k := items[0].0;
      assert KeysOf(items[1..]) == KeysOf(items)[1..];
      assert k !in KeysOf(items[1..]);
      var p := Placed(items[0].1, i);
      if p.Ok? {
        var acc' := Append(acc, k, p.value);
        AppendOptionsCells(acc', items[1..], i);
        var r := AppendOptions(acc, items, i);
        if r.Ok? {
          forall j | 0 <= j < |items|
            ensures Placed(items[j].1, i).Ok? && Prior(r.value, items[j].0) == Prior(acc, items[j].0) + [Placed(items[j].1, i).value]
          {
            if j > 0 {
              assert items[j] == items[1..][j - 1];
            }
          }
        }
      }
    }
  }

  /** The gathered keys come in first-seen order over the axes. */
  lemma {:induction false} GatherKeys(axes: seq<Axis>)
    requires forall j :: 0 <= j < |axes| ==> Valid(axes[j].options)
    ensures Gather(axes).Ok? ==> Gather(axes).value.keys == Fresh([], AllKeys(axes))
    decreases |axes|
  {
    if axes != [] {
      var n := |axes|;
      var front := axes[..n - 1];
      var last := axes[n - 1];
      GatherKeys(front);
      var prev := Gather(front);
      if prev.Ok? {
        AppendOptionsKeys(prev.value, Items(last.options), n - 1);
        assert KeysOf(Items(last.options)) == last.options.keys;
        FreshAppend([], AllKeys(front), last.options.keys);
        FreshSeenSet(prev.value.keys, [] + AllKeys(front), last.options.keys);
      }
    }
  }

  /** For each key, the gathered list is its filled-in templates in axis order;
      axes that lack the key add nothing. */
  lemma {:induction false} GatherColumns(axes: seq<Axis>)
    requires forall j :: 0 <= j < |axes| ==> Valid(axes[j].options)
    ensures Gather(axes).Ok? ==> forall k :: Prior(Gather(axes).value, k) == Column(axes, k)
    decreases |axes|
  {
    if axes != [] {
      var n := |axes|;
      var front := axes[..n - 1];
      GatherColumns(front);
      var prev := Gather(front);
      if prev.Ok? {
        var items := Items(axes[n - 1].options);
        assert KeysOf(items) == axes[n - 1].options.keys;
        AppendOptionsCells(prev.value, items, n - 1);
        var r := Gather(axes);
        if r.Ok? {
          forall k ensures Prior(r.value, k) == Column(axes, k) {
            ColumnStep(prev.value, r.value, axes, items, k);
          }
        }
      }
    }
  }

  /** One key across the last step of the outer loop. */
  lemma {:induction false} ColumnStep(prev: OrderedMap<seq<string>>, r: OrderedMap<seq<string>>, axes: seq<Axis>, items: seq<(string, Value)>, k: string)
    requires axes != [] && Valid(axes[|axes| - 1].options)
    requires items == Items(axes[|axes| - 1].options)
    requires Prior(prev, k) == Column(axes[..|axes| - 1], k)
    requires forall j :: 0 <= j < |items| ==>
      Placed(items[j].1, |axes| - 1).Ok? && Prior(r, items[j].0) == Prior(prev, items[j].0) + [Placed(items[j].1, |axes| - 1).value]
    requires k !in KeysOf(items) ==> Prior(r, k) == Prior(prev, k)
    ensures Prior(r, k) == Column(axes, k)
  {
    var last := axes[|axes| - 1];
    if k in last.options.keys {
      var j :| 0 <= j < |last.options.keys| && last.options.keys[j] == k;
      assert items[j] == (k, last.options.vals[k]);
    } else {
      assert k !in KeysOf(items);
    }
  }

  /** Once a prefix of the axes fails, the whole gathering fails the same way. */
  lemma {:induction false} GatherErrPersists(axes: seq<Axis>, m: nat)
    requires forall j :: 0 <= j < |axes| ==> Valid(axes[j].options)
    requires m <= |axes| && Gather(axes[..m]).Err?
    ensures Gather(axes) == Gather(axes[..m])
    decreases |axes|
  {
    if m < |axes| {
      assert axes[..|axes| - 1][..m] == axes[..m];
      GatherErrPersists(axes[..|axes| - 1], m);
    } else {
      assert axes[..m] == axes;
    }
  }

  /** The axes' side codes in declaration order. */
  function SideCodes(axes: seq<Axis>): (r: seq<Value>)
    ensures |r| == |axes| && forall j :: 0 <= j < |axes| ==> r[j] == axes[j].side
  {
    seq(|axes|, j requires 0 <= j < |axes| => axes[j].side)
  }

  /** Each gathered key with its strings joined by `|`. */
  function JoinedColumns(m: OrderedMap<seq<string>>): (r: seq<(string, Value)>)
    requires Valid(m)
    ensures |r| == |m.keys|
    ensures forall j :: 0 <= j < |r| ==> r[j] == (m.keys[j], Str(Join("|", m.vals[m.keys[j]])))
  {
    seq(|m.keys|, j requires 0 <= j < |m.keys| => (m.keys[j], Str(Join("|", m.vals[m.keys[j]]))))
  }

  /** What `url()` appends when there are axes: `&chxt=` with the side codes,
      then the gathered options. */
  function AxesSuffix(variant: Variant, axes: seq<Axis>): Result<string>
    requires forall j :: 0 <= j < |axes| ==> Valid(axes[j].options)
  {
    var gathered := Gather(axes);
    if gathered.Err? then Err(gathered.error)
    else
      var query := UrlEncode(variant, JoinedColumns(gathered.value));
      if query.Err? then query
      else Ok("&chxt=" + SmartJoin(",", SideCodes(axes)) + "&" + query.value)
  }

  /** The axis query items: one per key, in first-seen order across the axes, each
      holding that key's templates filled with the axis index, in axis order,
      joined by `|`. */
  lemma AxisOptionsRendered(axes: seq<Axis>)
    requires forall j :: 0 <= j < |axes| ==> Valid(axes[j].options)
    ensures Gather(axes).Ok? ==>
      var q := JoinedColumns(Gather(axes).value);
      && |q| == |Fresh([], AllKeys(axes))|
      && forall j :: 0 <= j < |q| ==>
           q[j] == (Fresh([], AllKeys(axes))[j], Str(Join("|", Column(axes, Fresh([], AllKeys(axes))[j]))))
  {
    GatherKeys(axes);
    GatherColumns(axes);
  }

  /** One axis's options appended to the gathered lists, in the axis's key
      order: the inner loop of `url()`. */
  method AppendAxis(acc: OrderedMap<seq<string>>, items: seq<(string, Value)>, i: nat) returns (r: Result<OrderedMap<seq<string>>>)
    ensures r == AppendOptions(acc, items, i)
  {
    var collected := acc;
    var j := 0;
    while j < |items|
      invariant 0 <= j <= |items|
      invariant AppendOptions(acc, items, i) == AppendOptions(collected, items[j..], i)
    {
      assert items[j..][1..] == items[j + 1..];
      var v := items[j].1;
      if !v.Str? {
        return Err(TypeMismatch);
      }
      var placed := Format(v.s, NatText(i));
      if placed.Err? {
        return Err(placed.error);
      }
      collected := Append(collected, items[j].0, placed.value);
      j := j + 1;
    }
    r := Ok(collected);
  }

  /** The gathering and the query, loop by loop as `url()` runs them. */
  method RenderAxes(variant: Variant, axes: seq<Axis>) returns (r: Result<string>)
    requires forall j :: 0 <= j < |axes| ==> Valid(axes[j].options)
    ensures r == AxesSuffix(variant, axes)
  {
    var collected, sides := GatherAxes(axes);
    if collected.Err? {
      return Err(collected.error);
    }
    var query := JoinColumns(collected.value);
    var encoded := UrlEncode(variant, query);
    if encoded.Err? {
      return encoded;
    }
    r := Ok("&chxt=" + SmartJoin(",", sides) + "&" + encoded.value);
  }

  /** `for i, axis in enumerate(self.axes): ...`: the sides in axis order, and
      each axis's filled templates appended under their keys. */
  method GatherAxes(axes: seq<Axis>) returns (r: Result<OrderedMap<seq<string>>>, sides: seq<Value>)
    requires forall j :: 0 <= j < |axes| ==> Valid(axes[j].options)
    ensures r == Gather(axes)
    ensures r.Ok? ==> sides == SideCodes(axes)
  {
    var collected: OrderedMap<seq<string>> := Empty();
    sides := [];
    var i := 0;
    while i < |axes|
      invariant 0 <= i <= |axes|
      invariant Gather(axes[..i]) == Ok(collected)
      invariant sides == SideCodes(axes[..i])
    {
      GatherStep(axes, i);
      sides := sides + [axes[i].side];
      assert sides == SideCodes(axes[..i + 1]);
      var next := AppendAxis(collected, Items(axes[i].options), i);
      if next.Err? {
        GatherErrPersists(axes, i + 1);
        return Err(next.error), sides;
      }
      collected := next.value;
      i := i + 1;
    }
    assert axes[..i] == axes;
    r := Ok(collected);
  }

  /** Gathering one more axis appends its options to what came before. */
  lemma GatherStep(axes: seq<Axis>, i: nat)
    requires forall j :: 0 <= j < |axes| ==> Valid(axes[j].options)
    requires i < |axes|
    ensures var prev := Gather(axes[..i]);
      Gather(axes[..i + 1]) ==
        if prev.Err? then prev else AppendOptions(prev.value, Items(axes[i].options), i)
  {
    var s := axes[..i + 1];
    assert s[..|s| - 1] == axes[..i] && s[|s| - 1] == axes[i];
  }

  /** `for opt in axis_options: axis_options[opt] = smart_join("|", ...)`: each
      gathered list joined with `|`, in key order. */
  method JoinColumns(collected: OrderedMap<seq<string>>) returns (query: seq<(string, Value)>)
    requires Valid(collected)
    ensures query == JoinedColumns(collected)
  {
    query := [];
    var keys := collected.keys;
    var k := 0;
    while k < |keys|
      invariant 0 <= k <= |keys|
      invariant query == JoinedColumns(collected)[..k]
    {
      query := query + [(keys[k], Str(Join("|", collected.vals[keys[k]])))];
      k := k + 1;
    }
  }
}
