/** The merge rule of `OptionNode.update_options`: how the key/value map a
    directive callback returns is folded into a chart's (or an axis's) options. */
module Options {
  import opened Wrappers
  import opened Values
  import opened OrderedMaps

  /** `before + sep + after`: Python concatenates only strings. */
  function Concat(before: Value, sep: string, after: Value): (r: Result<Value>)
    ensures r.Ok? <==> before.Str? && after.Str?
    ensures r.Ok? ==> r.value.Str? && |r.value.s| == |before.s| + |sep| + |after.s|
    ensures r.Ok? ==> r.value.s[..|before.s|] == before.s && r.value.s[|before.s| + |sep|..] == after.s
  {
    if before.Str? && after.Str? then Ok(Str(before.s + sep + after.s)) else Err(TypeMismatch)
  }

  /** One returned key: with a separator an existing value is extended,
      otherwise the key is (re)assigned. */
  function Assign(m: OrderedMap<Value>, k: string, v: Value, multi: Option<string>): Result<OrderedMap<Value>>
  {
    if multi.Some? && k in m.vals then
      var joined := Concat(m.vals[k], multi.value, v);
      if joined.Err? then Err(joined.error) else Ok(Set(m, k, joined.value))
    else Ok(Set(m, k, v))
  }

  /** The whole loop: the map after the returned keys, taken in order, and the
      error that stopped it, if any (keys handled before the error stay handled). */
  function Merge(m: OrderedMap<Value>, data: seq<(string, Value)>, multi: Option<string>): (OrderedMap<Value>, Option<Error>)
    decreases |data|
  {
    if data == [] then (m, None)
    else match Assign(m, data[0].0, data[0].1, multi)
      case Err(e) => (m, Some(e))
      case Ok(m') => Merge(m', data[1..], multi)
  }

  /** `update_options(options, ...)`, key by key. */
  method UpdateOptions(options: OrderedMap<Value>, data: seq<(string, Value)>, multi: Option<string>)
    returns (r: OrderedMap<Value>, failure: Option<Error>)
    ensures (r, failure) == Merge(options, data, multi)
  {
    r := options;
    failure := None;
    var i := 0;
    while i < |data|
      invariant 0 <= i <= |data|
      invariant Merge(options, data, multi) == Merge(r, data[i..], multi)
    {
      var key := data[i].0;
      if multi.Some? && key in r.vals {
        var current := r.vals[key];
        if !(current.Str? && data[i].1.Str?) {
          failure := Some(TypeMismatch);
          return;
        }
        r := Set(r, key, Str(current.s + multi.value + data[i].1.s));
      } else {
        r := Set(r, key, data[i].1);
      }
      assert data[i..][1..] == data[i + 1..];
      i := i + 1;
    }
  }

  lemma {:induction false} MergeValid(m: OrderedMap<Value>, data: seq<(string, Value)>, multi: Option<string>)
    requires Valid(m)
    ensures Valid(Merge(m, data, multi).0)
    decreases |data|
  {
    if data != [] {
      var step := Assign(m, data[0].0, data[0].1, multi);
      if step.Ok? {
        MergeValid(step.value, data[1..], multi);
      }
    }
  }

  /** Without a separator the merge is a plain `dict.update`, which cannot fail. */
  lemma {:induction false} MergeWithoutMulti(m: OrderedMap<Value>, data: seq<(string, Value)>)
    ensures Merge(m, data, None) == (Update(m, data), None)
    decreases |data|
  {
    if data != [] {
      MergeWithoutMulti(Set(m, data[0].0, data[0].1), data[1..]);
    }
  }

  /** Every returned key that is already present holds a string, and so does its
      new value: the condition for the concatenations to go through. */
  predicate Joinable(m: OrderedMap<Value>, data: seq<(string, Value)>)
  {
    forall i :: 0 <= i < |data| && data[i].0 in m.vals ==> m.vals[data[i].0].Str? && data[i].1.Str?
  }

  /** The returned pairs with each present key's value already concatenated. */
  function Joined(m: OrderedMap<Value>, data: seq<(string, Value)>, sep: string): (r: seq<(string, Value)>)
    requires Joinable(m, data)
    ensures |r| == |data|
    ensures forall i :: 0 <= i < |data| ==>
      && r[i].0 == data[i].0
      && r[i].1 == (if data[i].0 in m.vals then Str(m.vals[data[i].0].s + sep + data[i].1.s) else data[i].1)
  {
    seq(|data|, i requires 0 <= i < |data| =>
      (data[i].0, if data[i].0 in m.vals then Str(m.vals[data[i].0].s + sep + data[i].1.s) else data[i].1))
  }

  /** With a separator and the distinct keys of a dictionary, the merge succeeds
      exactly when the present keys concatenate, and then it assigns every key its
      concatenated value at once. */
  lemma {:induction false} MergeWithMulti(m: OrderedMap<Value>, data: seq<(string, Value)>, sep: string)
    requires Distinct(KeysOf(data))
    ensures Merge(m, data, Some(sep)).1 == None <==> Joinable(m, data)
    ensures Joinable(m, data) ==> Merge(m, data, Some(sep)).0 == Update(m, Joined(m, data, sep))
    decreases |data|
  {
    if data != [] {
      var k := data[0].0;
      assert KeysOf(data[1..]) == KeysOf(data)[1..];
      assert k !in KeysOf(data[1..]);
      var step := Assign(m, k, data[0].1, Some(sep));
      if step.Ok? {
        var m' := step.value;
        MergeWithMulti(m', data[1..], sep);
        // Only `k` changed, and `k` does not come back.
        assert forall i :: 0 <= i < |data[1..]| ==> data[1..][i].0 != k;
        assert Joinable(m, data) <==> Joinable(m', data[1..]) by {
          forall i | 1 <= i < |data| ensures data[i] == data[1..][i - 1] { }
        }
        if Joinable(m, data) {
          assert Joined(m, data, sep)[1..] == Joined(m', data[1..], sep);
          assert Joined(m, data, sep)[0] == (k, m'.vals[k]);
        }
      } else {
        assert !Joinable(m, data) by {
          assert data[0].0 in m.vals;
        }
      }
    }
  }

  /** The merge rule, as the chart sees it: a returned key ends up with its new
      value (or the old value, the separator and the new value), keys not returned
      keep theirs, existing keys keep their place and new keys are appended. */
  lemma MergeRule(m: OrderedMap<Value>, data: seq<(string, Value)>, multi: Option<string>)
    requires Valid(m) && Distinct(KeysOf(data))
    requires multi.Some? ==> Joinable(m, data)
    ensures Merge(m, data, multi).1 == None
    ensures var r := Merge(m, data, multi).0;
      && Valid(r)
      && r.keys == m.keys + Fresh(m.keys, KeysOf(data))
      && (forall i :: 0 <= i < |data| ==>
            && data[i].0 in r.vals
            && r.vals[data[i].0] == (if multi.Some? && data[i].0 in m.vals
                                     then Str(m.vals[data[i].0].s + multi.value + data[i].1.s)
                                     else data[i].1))
      && (forall k :: k in m.vals && k !in KeysOf(data) ==> r.vals[k] == m.vals[k])
  {
    var plan := if multi.Some? then Joined(m, data, multi.value) else data;
    assert KeysOf(plan) == KeysOf(data);
    if multi.Some? {
      MergeWithMulti(m, data, multi.value);
    } else {
      MergeWithoutMulti(m, data);
    }
    assert Merge(m, data, multi).0 == Update(m, plan);
    UpdateValid(m, plan);
    UpdateKeys(m, plan);
    UpdateVals(m, plan);
  }
}
