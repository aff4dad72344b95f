/** Python dicts with string keys, kept as their items in insertion order,
    with the two updates the translation helper uses: item assignment and
    `dict.update`. */
module PyDict {

  /** A dict as its `items()` in insertion order. */
  type Dict<V> = seq<(string, V)>

  function Keys<V>(d: Dict<V>): set<string> {
    if d == [] then {} else {d[0].0} + Keys(d[1..])
  }

  /** No key occurs twice, as in every dict Python builds. */
  predicate Distinct<V>(d: Dict<V>) {
    d == [] || (d[0].0 !in Keys(d[1..]) && Distinct(d[1..]))
  }

  /** The mapping held by a dict built from these items in order: a later
      item overrides an earlier one with the same key. */
  function AsMap<V>(d: Dict<V>): (m: map<string, V>)
    ensures m.Keys == Keys(d)
  {
    if d == [] then map[] else map[d[0].0 := d[0].1] + AsMap(d[1..])
  }

  /** `d[k] = v`: an existing key keeps its place and takes the new value; a
      new key goes to the end. */
  function Set<V>(d: Dict<V>, k: string, v: V): (r: Dict<V>)
    ensures Keys(r) == Keys(d) + {k}
    ensures k !in Keys(d) ==> r == d + [(k, v)]
    ensures Distinct(d) ==> Distinct(r)
  {
    if d == [] then [(k, v)]
    else if d[0].0 == k then [(k, v)] + d[1..]
    else
      var r := [d[0]] + Set(d[1..], k, v);
      assert r[1..] == Set(d[1..], k, v);
      r
  }

  lemma {:induction false} SetMeaning<V>(d: Dict<V>, k: string, v: V)
    requires Distinct(d)
    ensures AsMap(Set(d, k, v)) == AsMap(d)[k := v]
    decreases |d|
  {
    if d != [] {
      if d[0].0 == k {
        assert ([(k, v)] + d[1..])[1..] == d[1..];
      } else {
        SetMeaning(d[1..], k, v);
        var r := [d[0]] + Set(d[1..], k, v);
        assert r[1..] == Set(d[1..], k, v);
      }
    }
  }

  /** `d.update(e)`: assign every item of `e` in order. */
  function Update<V>(d: Dict<V>, e: Dict<V>): Dict<V>
    decreases |e|
  {
    if e == [] then d else Update(Set(d, e[0].0, e[0].1), e[1..])
  }

  /** `d.update(e)` keeps the dict well formed, holds the keys of both and
      the values of `e` wherever the two share a key. */
  lemma {:induction false} UpdateMeaning<V>(d: Dict<V>, e: Dict<V>)
    requires Distinct(d)
    ensures Distinct(Update(d, e))
    ensures AsMap(Update(d, e)) == AsMap(d) + AsMap(e)
    ensures Keys(Update(d, e)) == Keys(d) + Keys(e)
    decreases |e|
  {
    if e != [] {
      var d' := Set(d, e[0].0, e[0].1);
      SetMeaning(d, e[0].0, e[0].1);
      UpdateMeaning(d', e[1..]);
      MapPlusAssign(AsMap(d), e[0].0, e[0].1, AsMap(e[1..]));
    }
  }

  lemma MapPlusAssign<V>(m: map<string, V>, k: string, v: V, n: map<string, V>)
    ensures m[k := v] + n == m + (map[k := v] + n)
  {
  }

  lemma {:induction false} AsMapConcat<V>(a: Dict<V>, b: Dict<V>)
    ensures AsMap(a + b) == AsMap(a) + AsMap(b)
    ensures Keys(a + b) == Keys(a) + Keys(b)
    decreases |a|
  {
    if a == [] {
      assert a + b == b;
    } else {
      assert (a + b)[0] == a[0];
      assert (a + b)[1..] == a[1..] + b;
      AsMapConcat(a[1..], b);
    }
  }

  /** Updating with items whose keys are all new appends them in order. */
  lemma {:induction false} UpdateFresh<V>(d: Dict<V>, e: Dict<V>)
    requires Keys(d) !! Keys(e) && Distinct(e)
    ensures Update(d, e) == d + e
    decreases |e|
  {
    if e != [] {
      var x := e[0];
      var d' := d + [x];
      assert Set(d, x.0, x.1) == d' by {
        assert x.0 in Keys(e);
      }
      assert Keys(d') !! Keys(e[1..]) by {
        assert Keys(d') == Keys(d) + {x.0} by {
          AsMapConcat(d, [x]);
          assert [x][1..] == [];
        }
        assert Keys(e) == {x.0} + Keys(e[1..]);
      }
      UpdateFresh(d', e[1..]);
      assert d' + e[1..] == d + e;
    }
  }

  /** `d.get(k, default)`. */
  function Get<V>(d: Dict<V>, k: string, default: V): (r: V)
    ensures k in Keys(d) ==> r == AsMap(d)[k]
    ensures k !in Keys(d) ==> r == default
  {
    if d == [] then default
    else if k in Keys(d[1..]) then Get(d[1..], k, default)
    else if d[0].0 == k then d[0].1
    else default
  }
}
