/** A Python `dict` whose iteration order is observable. `keys` is the
    insertion order and `m` the mapping: assigning to a present key keeps its
    position, assigning to a new key appends it, `pop`/`del` removes it. */
module PyDict {
  import opened Wrappers

  datatype Dict<V> = Dict(keys: seq<string>, m: map<string, V>) {
    /** The keys are distinct and are exactly the mapped ones. */
    predicate Valid() {
      DistinctSeq(keys)
      && (forall k :: k in m ==> k in keys)
      && (forall i :: 0 <= i < |keys| ==> keys[i] in m)
    }
  }

  function Empty<V>(): (d: Dict<V>)
    ensures d.Valid() && d.m == map[]
  {
    Dict([], map[])
  }

  /** `d.get(k)`. */
  function Get<V>(d: Dict<V>, k: string): Option<V> {
    if k in d.m then Some(d.m[k]) else None
  }

  /** `d[k] = v`: the value is replaced and, for a new key, the key goes last. */
  function Set<V>(d: Dict<V>, k: string, v: V): (r: Dict<V>)
    requires d.Valid()
    ensures r.Valid() && r.m == d.m[k := v]
    ensures r.keys == if k in d.m then d.keys else d.keys + [k]
  {
    Dict(if k in d.m then d.keys else d.keys + [k], d.m[k := v])
  }

  predicate DistinctSeq(ks: seq<string>) {
    forall i, j :: 0 <= i < j < |ks| ==> ks[i] != ks[j]
  }

  lemma DistinctCons(a: string, ks: seq<string>)
    requires a !in ks && DistinctSeq(ks)
    ensures DistinctSeq([a] + ks)
  {
    var s := [a] + ks;
    forall i, j | 0 <= i < j < |s| ensures s[i] != s[j] {
      if i == 0 { assert s[j] == ks[j - 1]; } else { assert s[i] == ks[i - 1] && s[j] == ks[j - 1]; }
    }
  }

  /** `ks` without the occurrences of `k`. */
  function Without(ks: seq<string>, k: string): (r: seq<string>)
    ensures forall x :: x in r <==> x in ks && x != k
    ensures DistinctSeq(ks) ==> DistinctSeq(r)
  {
    if ks == [] then []
    else if ks[0] == k then Without(ks[1..], k)
    else
      var rest := Without(ks[1..], k);
      if DistinctSeq(ks) then
        assert ks[0] !in ks[1..];
        DistinctCons(ks[0], rest);
        [ks[0]] + rest
      else [ks[0]] + rest
  }

  /** `del d[k]` / `d.pop(k)` on a present key. */
  function Remove<V>(d: Dict<V>, k: string): (r: Dict<V>)
    requires d.Valid()
    ensures r.Valid() && r.m == d.m - {k}
    ensures forall x :: x in r.keys <==> x in d.keys && x != k
  {
    var ks := Without(d.keys, k);
    forall i | 0 <= i < |ks| ensures ks[i] in d.keys && ks[i] != k {
      assert ks[i] in ks;
    }
    Dict(ks, d.m - {k})
  }

  /** The dict after its first entry is taken out. */
  function Rest<V>(e: Dict<V>): (r: Dict<V>)
    requires e.Valid() && e.keys != []
    ensures r.Valid() && r.keys == e.keys[1..] && r.m == e.m - {e.keys[0]}
    ensures e.keys[0] !in r.keys
  {
    var k := e.keys[0];
    var r := Dict(e.keys[1..], e.m - {k});
    assert forall i :: 0 <= i < |r.keys| ==> r.keys[i] == e.keys[i + 1];
    r
  }

  /** `d.update(e)`, which is also `{**d, **e}`: the entries of `e` assigned
      in order onto `d`. */
  function Update<V>(d: Dict<V>, e: Dict<V>): (r: Dict<V>)
    requires d.Valid() && e.Valid()
    ensures r.Valid()
    decreases |e.keys|
  {
    if e.keys == [] then d
    else Update(Set(d, e.keys[0], e.m[e.keys[0]]), Rest(e))
  }

  /** The merge of `Update`: a key of `e` takes `e`'s value, every other key
      keeps `d`'s. */
  lemma {:induction false} UpdateValues<V>(d: Dict<V>, e: Dict<V>)
    requires d.Valid() && e.Valid()
    ensures Update(d, e).m == d.m + e.m
    decreases |e.keys|
  {
    if e.keys != [] {
      var k := e.keys[0];
      UpdateUnfold(d, e);
      UpdateValues(Set(d, k, e.m[k]), Rest(e));
      MapOverride(d.m, e.m, k);
    } else {
      assert e.m == map[];
    }
  }

  lemma UpdateUnfold<V>(d: Dict<V>, e: Dict<V>)
    requires d.Valid() && e.Valid() && e.keys != []
    ensures Update(d, e) == Update(Set(d, e.keys[0], e.m[e.keys[0]]), Rest(e))
  {
  }

  lemma MapOverride<V>(m1: map<string, V>, m2: map<string, V>, k: string)
    requires k in m2
    ensures m1[k := m2[k]] + (m2 - {k}) == m1 + m2
  {
  }

  /** The order of `Update`: the keys of `d` in their order, then the keys of
      `e` that `d` lacks, in `e`'s order. */
  lemma {:induction false} UpdateKeys<V>(d: Dict<V>, e: Dict<V>)
    requires d.Valid() && e.Valid()
    ensures Update(d, e).keys == d.keys + Fresh(e.keys, d.m.Keys)
    decreases |e.keys|
  {
    if e.keys != [] {
      var k := e.keys[0];
      var d' := Set(d, k, e.m[k]);
      UpdateUnfold(d, e);
      UpdateKeys(d', Rest(e));
      UpdateKeysStep(d, k, e.m[k], e.keys);
    } else {
      assert d.keys + [] == d.keys;
    }
  }

  lemma UpdateKeysStep<V>(d: Dict<V>, k: string, v: V, ks: seq<string>)
    requires d.Valid() && ks != [] && ks[0] == k && k !in ks[1..]
    ensures Set(d, k, v).keys + Fresh(ks[1..], Set(d, k, v).m.Keys) == d.keys + Fresh(ks, d.m.Keys)
  {
    FreshCons(ks, d.m.Keys);
    if k in d.m {
      UpdateKeysOld(d, k, v, ks);
    } else {
      UpdateKeysNew(d, k, v, ks);
    }
  }

  lemma UpdateKeysOld<V>(d: Dict<V>, k: string, v: V, ks: seq<string>)
    requires d.Valid() && ks != [] && ks[0] == k && k in d.m
    ensures Set(d, k, v).keys + Fresh(ks[1..], Set(d, k, v).m.Keys) == d.keys + Fresh(ks[1..], d.m.Keys)
  {
    assert Set(d, k, v).m.Keys == d.m.Keys;
  }

  lemma UpdateKeysNew<V>(d: Dict<V>, k: string, v: V, ks: seq<string>)
    requires d.Valid() && ks != [] && ks[0] == k && k !in ks[1..] && k !in d.m
    ensures Set(d, k, v).keys + Fresh(ks[1..], Set(d, k, v).m.Keys) == d.keys + ([k] + Fresh(ks[1..], d.m.Keys))
  {
    assert Set(d, k, v).m.Keys == d.m.Keys + {k};
    FreshSkip(ks[1..], d.m.Keys, k);
  }

  /** The elements of `ks` that are not in `seen`, in order. */
  function Fresh(ks: seq<string>, seen: set<string>): (r: seq<string>)
    ensures forall x :: x in r <==> x in ks && x !in seen
  {
    if ks == [] then []
    else if ks[0] in seen then Fresh(ks[1..], seen)
    else [ks[0]] + Fresh(ks[1..], seen)
  }

  lemma FreshCons(ks: seq<string>, seen: set<string>)
    requires ks != []
    ensures Fresh(ks, seen) == if ks[0] in seen then Fresh(ks[1..], seen) else [ks[0]] + Fresh(ks[1..], seen)
  {
  }

  lemma {:induction false} FreshSkip(ks: seq<string>, seen: set<string>, k: string)
    requires k !in ks
    ensures Fresh(ks, seen + {k}) == Fresh(ks, seen)
  {
    if ks != [] {
      FreshSkip(ks[1..], seen, k);
    }
  }

  /** `d.items()` in iteration order. */
  function Items<V>(d: Dict<V>): (r: seq<(string, V)>)
    requires d.Valid()
    ensures |r| == |d.keys|
    ensures forall i :: 0 <= i < |r| ==> r[i] == (d.keys[i], d.m[d.keys[i]])
  {
    seq(|d.keys|, i requires 0 <= i < |d.keys| => (d.keys[i], d.m[d.keys[i]]))
  }
}
