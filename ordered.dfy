/** Django's `SortedDict` as the chart engine uses it: a dictionary that
    remembers the order in which its keys were first inserted. */
module OrderedMaps {
  import opened Wrappers

  /** The keys in insertion order, and what each key maps to. */
  datatype OrderedMap<V> = OrderedMap(keys: seq<string>, vals: map<string, V>)

  predicate Distinct(keys: seq<string>)
  {
    forall i, j :: 0 <= i < j < |keys| ==> keys[i] != keys[j]
  }

  /** Every key listed once, and the listed keys are exactly the mapped ones. */
  ghost predicate Valid<V>(m: OrderedMap<V>)
  {
    Distinct(m.keys) && forall k :: k in m.vals <==> k in m.keys
  }

  function Empty<V>(): (r: OrderedMap<V>)
    ensures Valid(r) && r.keys == []
  {
    OrderedMap([], map[])
  }

  /** `d[k] = v`: an existing key keeps its place, a new key goes last. */
  function Set<V>(m: OrderedMap<V>, k: string, v: V): (r: OrderedMap<V>)
    ensures Valid(m) ==> Valid(r)
    ensures r.vals == m.vals[k := v]
    ensures r.keys == if k in m.vals then m.keys else m.keys + [k]
  {
    OrderedMap(if k in m.vals then m.keys else m.keys + [k], m.vals[k := v])
  }

  /** `d.get(k)`. */
  function Get<V>(m: OrderedMap<V>, k: string): Option<V>
  {
    if k in m.vals then Some(m.vals[k]) else None
  }

  /** The key sequence without `k`. */
  function Without(keys: seq<string>, k: string): (r: seq<string>)
    ensures forall x :: x in r <==> x in keys && x != k
    ensures Distinct(keys) ==> Distinct(r)
    ensures |r| <= |keys|
  {
    if keys == [] then []
    else
      var rest := Without(keys[1..], k);
      assert Distinct(keys) ==> keys[0] !in keys[1..];
      (if keys[0] == k then [] else [keys[0]]) + rest
  }

  /** Removing a key that is not there changes nothing. */
  lemma {:induction false} WithoutAbsent(keys: seq<string>, k: string)
    requires k !in keys
    ensures Without(keys, k) == keys
    decreases |keys|
  {
    if keys != [] {
      WithoutAbsent(keys[1..], k);
      assert [keys[0]] + keys[1..] == keys;
    }
  }

  /** Removing the key at position `p` of a duplicate-free sequence closes the
      gap and keeps every other key in its order. */
  lemma {:induction false} WithoutAt(keys: seq<string>, p: nat)
    requires Distinct(keys) && p < |keys|
    ensures Without(keys, keys[p]) == keys[..p] + keys[p + 1..]
    decreases p
  {
    var k := keys[p];
    var tail := keys[1..];
    assert Without(keys, k) == (if keys[0] == k then [] else [keys[0]]) + Without(tail, k);
    if p == 0 {
      assert k !in tail by {
        forall j | 0 <= j < |tail| ensures tail[j] != k {
          assert tail[j] == keys[j + 1];
        }
      }
      WithoutAbsent(tail, k);
      assert keys[..p] + keys[p + 1..] == tail;
    } else {
      assert keys[0] != k;
      assert Distinct(tail) by {
        forall i, j | 0 <= i < j < |tail| ensures tail[i] != tail[j] {
          assert tail[i] == keys[i + 1] && tail[j] == keys[j + 1];
        }
      }
      assert tail[p - 1] == k;
      WithoutAt(tail, p - 1);
      assert tail[..p - 1] + tail[p..] == keys[1..p] + keys[p + 1..];
      assert [keys[0]] + keys[1..p] == keys[..p];
    }
  }

  /** `d.pop(k)`: the value and the map without the key; a missing key is a
      `KeyError`.  The other keys keep their order. */
  function Pop<V>(m: OrderedMap<V>, k: string): (r: Result<(V, OrderedMap<V>)>)
    ensures r.Ok? <==> k in m.vals
    ensures r.Ok? ==> r.value.0 == m.vals[k] && r.value.1.vals == m.vals - {k}
    ensures r.Ok? && Valid(m) ==> Valid(r.value.1)
    ensures r.Ok? && Valid(m) ==>
      exists p :: 0 <= p < |m.keys| && m.keys[p] == k && r.value.1.keys == m.keys[..p] + m.keys[p + 1..]
  {
    if k in m.vals then
      PopKeys(m, k);
      Ok((m.vals[k], OrderedMap(Without(m.keys, k), m.vals - {k})))
    else Err(MissingKey(k))
  }

  lemma PopKeys<V>(m: OrderedMap<V>, k: string)
    requires k in m.vals
    ensures Valid(m) ==>
      exists p :: 0 <= p < |m.keys| && m.keys[p] == k && Without(m.keys, k) == m.keys[..p] + m.keys[p + 1..]
  {
    if Valid(m) {
      var p :| 0 <= p < |m.keys| && m.keys[p] == k;
      WithoutAt(m.keys, p);
    }
  }

  /** `d.items()`, in key order. */
  function Items<V>(m: OrderedMap<V>): (r: seq<(string, V)>)
    requires Valid(m)
    ensures |r| == |m.keys|
    ensures forall i :: 0 <= i < |r| ==> r[i].0 == m.keys[i] && r[i].1 == m.vals[m.keys[i]]
  {
    seq(|m.keys|, i requires 0 <= i < |m.keys| => (m.keys[i], m.vals[m.keys[i]]))
  }

  /** Setting a new key appends one item at the end. */
  lemma SetNewItems<V>(m: OrderedMap<V>, k: string, v: V)
    requires Valid(m) && k !in m.vals
    ensures Valid(Set(m, k, v)) && Items(Set(m, k, v)) == Items(m) + [(k, v)]
  {
    var r := Set(m, k, v);
    assert r.keys == m.keys + [k];
    assert forall i :: 0 <= i < |m.keys| ==> m.keys[i] != k;
  }

  /** Setting a key never moves the keys already there: the old key order is a
      prefix of the new one, and at most one key is added. */
  lemma SetKeepsOrder<V>(m: OrderedMap<V>, k: string, v: V)
    requires Valid(m)
    ensures var r := Set(m, k, v);
      && m.keys <= r.keys
      && |r.keys| <= |m.keys| + 1
      && (k in m.vals <==> |r.keys| == |m.keys|)
      && r.keys[|r.keys| - 1] == (if k in m.vals then m.keys[|m.keys| - 1] else k)
  {
  }

  /** A pair sequence's first components. */
  function KeysOf<V>(data: seq<(string, V)>): (r: seq<string>)
    ensures |r| == |data| && forall i :: 0 <= i < |data| ==> r[i] == data[i].0
  {
    seq(|data|, i requires 0 <= i < |data| => data[i].0)
  }

  /** The keys of `data` not already among `seen`, each once, in first-seen order:
      the keys a run of assignments appends. */
  function Fresh(seen: seq<string>, data: seq<string>): (r: seq<string>)
    ensures forall x :: x in r <==> x in data && x !in seen
    ensures Distinct(r)
    decreases |data|
  {
    if data == [] then []
    else if data[0] in seen then Fresh(seen, data[1..])
    else
      var rest := Fresh(seen + [data[0]], data[1..]);
      assert data[0] !in rest;
      [data[0]] + rest
  }

  /** `d.update(data)` for a dictionary `data`: assignments in its iteration order. */
  function Update<V>(m: OrderedMap<V>, data: seq<(string, V)>): OrderedMap<V>
    decreases |data|
  {
    if data == [] then m else Update(Set(m, data[0].0, data[0].1), data[1..])
  }

  lemma {:induction false} UpdateValid<V>(m: OrderedMap<V>, data: seq<(string, V)>)
    requires Valid(m)
    ensures Valid(Update(m, data))
    decreases |data|
  {
    if data != [] {
      UpdateValid(Set(m, data[0].0, data[0].1), data[1..]);
    }
  }

  /** One assignment followed by the rest: the keys it leaves, then the fresh
      keys of the rest, are the old keys and the fresh keys of the whole. */
  lemma KeysStep(keys: seq<string>, k: string, rest: seq<string>, present: bool)
    requires present <==> k in keys
    ensures var after := if present then keys else keys + [k];
      after + Fresh(after, rest) == keys + Fresh(keys, [k] + rest)
  {
    var ks := [k] + rest;
    assert ks != [] && ks[0] == k && ks[1..] == rest;
    if present {
      assert Fresh(keys, ks) == Fresh(keys, rest);
    } else {
      var tail := Fresh(keys + [k], rest);
      assert Fresh(keys, ks) == [k] + tail;
      assert keys + [k] + tail == keys + ([k] + tail);
    }
  }

  /** After `update`, old keys keep their places and the new keys follow in
      first-seen order. */
  lemma {:induction false} UpdateKeys<V>(m: OrderedMap<V>, data: seq<(string, V)>)
    requires forall k :: k in m.vals <==> k in m.keys
    ensures Update(m, data).keys == m.keys + Fresh(m.keys, KeysOf(data))
    decreases |data|
  {
    if data != [] {
      var k := data[0].0;
      var m' := Set(m, k, data[0].1);
      assert KeysOf(data) == [k] + KeysOf(data[1..]);
      SetKeysMatch(m, k, data[0].1);
      UpdateKeys(m', data[1..]);
      KeysStep(m.keys, k, KeysOf(data[1..]), k in m.vals);
      assert Update(m, data) == Update(m', data[1..]);
    }
  }

  /** Assigning a key keeps the keys and the entries in step. */
  lemma SetKeysMatch<V>(m: OrderedMap<V>, k: string, v: V)
    requires forall x :: x in m.vals <==> x in m.keys
    ensures forall x :: x in Set(m, k, v).vals <==> x in Set(m, k, v).keys
  {
  }

  /** After `update`, a key of `data` maps to its value there (the keys of a
      dictionary are distinct), and every other key keeps its value. */
  lemma {:induction false} UpdateVals<V>(m: OrderedMap<V>, data: seq<(string, V)>)
    requires Distinct(KeysOf(data))
    ensures forall k :: k in Update(m, data).vals <==> k in m.vals || k in KeysOf(data)
    ensures forall i :: 0 <= i < |data| ==> Update(m, data).vals[data[i].0] == data[i].1
    ensures forall k :: k in m.vals && k !in KeysOf(data) ==> Update(m, data).vals[k] == m.vals[k]
    decreases |data|
  {
    if data != [] {
      var m' := Set(m, data[0].0, data[0].1);
      assert KeysOf(data[1..]) == KeysOf(data)[1..];
      UpdateVals(m', data[1..]);
      var r := Update(m', data[1..]);
      assert data[0].0 !in KeysOf(data[1..]);
      forall i | 0 <= i < |data| ensures r.vals[data[i].0] == data[i].1 {
        if i > 0 {
          assert data[i] == data[1..][i - 1];
        }
      }
      forall k | k in r.vals ensures k in m.vals || k in KeysOf(data) {
      }
    }
  }
}
