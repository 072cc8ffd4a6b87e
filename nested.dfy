/** Nested Python values as the tool handles them: YAML configuration trees,
    WIT parameter sections and the dictionaries built from dotted CLI keys.
    A value is a string, some other scalar (number, boolean, list, None; kept
    as its printed form) or a dict of further values. */
module Nested {
  import opened Wrappers
  import opened PyDict

  datatype Val = Str(s: string) | Scalar(text: string) | Map(d: Dict<Val>)

  /** Python's `None`, kept like the other scalars as its printed form. */
  const NoneVal: Val := Scalar("None")

  /** Every dict in the tree has distinct keys that are exactly its mapped keys. */
  predicate Good(v: Val)
    decreases v, 1
  {
    v.Map? ==> GoodDict(v.d)
  }

  predicate GoodDict(d: Dict<Val>)
    decreases d, 0
  {
    d.Valid() && forall k :: k in d.m ==> Good(d.m[k])
  }

  lemma GoodChild(d: Dict<Val>, k: string)
    requires GoodDict(d) && k in d.m && d.m[k].Map?
    ensures GoodDict(d.m[k].d)
  {
    assert Good(d.m[k]);
  }

  lemma SetGood(d: Dict<Val>, k: string, v: Val)
    requires GoodDict(d) && Good(v)
    ensures GoodDict(Set(d, k, v))
  {
    var r := Set(d, k, v);
    forall x | x in r.m ensures Good(r.m[x]) {
      if x != k {
        assert r.m[x] == d.m[x];
      }
    }
  }

  lemma RemoveGood(d: Dict<Val>, k: string)
    requires GoodDict(d)
    ensures GoodDict(Remove(d, k))
  {
    var r := Remove(d, k);
    forall x | x in r.m ensures Good(r.m[x]) {
      assert r.m[x] == d.m[x];
    }
  }

  /** The value reached by following the keys of `path`; `None` when a key is
      missing or a non-dict is met before the end. */
  function Lookup(d: Dict<Val>, path: seq<string>): Option<Val>
    requires |path| >= 1
    decreases |path|
  {
    if path[0] !in d.m then None
    else if |path| == 1 then Some(d.m[path[0]])
    else match d.m[path[0]]
      case Map(inner) => Lookup(inner, path[1..])
      case _ => None
  }

  /** The value `update_nested_dict` leaves under key `k` of `u`: a dict in
      `u` merges recursively into a dict already in `d`; any other value of
      `u` replaces the entry. */
  function MergeValue(d: Dict<Val>, u: Dict<Val>, k: string): (v: Val)
    requires GoodDict(d) && GoodDict(u) && k in u.m
    ensures Good(v)
    decreases u, 0
  {
    var val := u.m[k];
    assert Good(val);
    if val.Map? && k in d.m && d.m[k].Map? then
      assert Good(d.m[k]);
      Map(UpdateNested(d.m[k].d, val.d))
    else val
  }

  /** The loop of `update_nested_dict` over the keys `ks` of `u`. */
  function UpdateFrom(d: Dict<Val>, u: Dict<Val>, ks: seq<string>): (r: Dict<Val>)
    requires GoodDict(d) && GoodDict(u) && forall k :: k in ks ==> k in u.m
    ensures GoodDict(r)
    decreases u, 1, |ks|
  {
    if ks == [] then d
    else
      var v := MergeValue(d, u, ks[0]);
      var d' := Set(d, ks[0], v);
      assert GoodDict(d');
      UpdateFrom(d', u, ks[1..])
  }

  /** `update_nested_dict(d, updates)`: the entries of `updates` in order,
      each merged by `MergeValue`. */
  function UpdateNested(d: Dict<Val>, u: Dict<Val>): (r: Dict<Val>)
    requires GoodDict(d) && GoodDict(u)
    ensures GoodDict(r)
    decreases u, 2
  {
    UpdateFrom(d, u, u.keys)
  }

  lemma {:induction false} UpdateFromAt(d: Dict<Val>, u: Dict<Val>, ks: seq<string>, k: string)
    requires GoodDict(d) && GoodDict(u) && DistinctSeq(ks) && forall x :: x in ks ==> x in u.m
    ensures k in ks ==> k in UpdateFrom(d, u, ks).m && UpdateFrom(d, u, ks).m[k] == MergeValue(d, u, k)
    ensures k !in ks ==> (k in UpdateFrom(d, u, ks).m <==> k in d.m)
    ensures k !in ks && k in d.m ==> UpdateFrom(d, u, ks).m[k] == d.m[k]
    decreases |ks|
  {
    if ks != [] {
      var v := MergeValue(d, u, ks[0]);
      var d' := Set(d, ks[0], v);
      assert GoodDict(d');
      assert DistinctSeq(ks[1..]);
      UpdateFromAt(d', u, ks[1..], k);
      if k in ks[1..] {
        assert k != ks[0];
        MergeValueSame(d, d', u, k);
      }
    }
  }

  lemma MergeValueSame(d: Dict<Val>, d': Dict<Val>, u: Dict<Val>, k: string)
    requires GoodDict(d) && GoodDict(d') && GoodDict(u) && k in u.m
    requires (k in d.m <==> k in d'.m) && (k in d.m ==> d.m[k] == d'.m[k])
    ensures MergeValue(d, u, k) == MergeValue(d', u, k)
  {
  }

  /** What `UpdateNested` leaves under each key: the merge for a key of `u`,
      `d`'s value for any other key; no key of either side is lost. */
  lemma UpdateNestedAt(d: Dict<Val>, u: Dict<Val>, k: string)
    requires GoodDict(d) && GoodDict(u)
    ensures k in UpdateNested(d, u).m <==> k in d.m || k in u.m
    ensures k in u.m ==> UpdateNested(d, u).m[k] == MergeValue(d, u, k)
    ensures k !in u.m && k in d.m ==> UpdateNested(d, u).m[k] == d.m[k]
  {
    UpdateFromAt(d, u, u.keys, k);
  }

  lemma {:induction false} UpdateFromKeys(d: Dict<Val>, u: Dict<Val>, ks: seq<string>)
    requires GoodDict(d) && GoodDict(u) && DistinctSeq(ks) && forall x :: x in ks ==> x in u.m
    ensures UpdateFrom(d, u, ks).keys == d.keys + Fresh(ks, d.m.Keys)
    decreases |ks|
  {
    if ks != [] {
      var v := MergeValue(d, u, ks[0]);
      var d' := Set(d, ks[0], v);
      assert GoodDict(d');
      assert DistinctSeq(ks[1..]);
      UpdateFromKeys(d', u, ks[1..]);
      UpdateKeysStep(d, ks[0], v, ks);
    } else {
      assert d.keys + [] == d.keys;
    }
  }

  /** The new keys go after the old ones, in the order of `u`: the same order
      as a flat `dict.update`. */
  lemma UpdateNestedKeys(d: Dict<Val>, u: Dict<Val>)
    requires GoodDict(d) && GoodDict(u)
    ensures UpdateNested(d, u).keys == d.keys + Fresh(u.keys, d.m.Keys)
  {
    UpdateFromKeys(d, u, u.keys);
  }

  /** Updates win: every non-dict value reachable in `u` is found at the same
      path in the merge. */
  lemma {:induction false} UpdateNestedLeaf(d: Dict<Val>, u: Dict<Val>, path: seq<string>)
    requires GoodDict(d) && GoodDict(u) && |path| >= 1
    requires Lookup(u, path).Some? && !Lookup(u, path).value.Map?
    ensures Lookup(UpdateNested(d, u), path) == Lookup(u, path)
    decreases |path|
  {
    var k := path[0];
    UpdateNestedAt(d, u, k);
    if |path| > 1 {
      assert Good(u.m[k]);
      if k in d.m && d.m[k].Map? {
        assert Good(d.m[k]);
        UpdateNestedLeaf(d.m[k].d, u.m[k].d, path[1..]);
      }
    }
  }

  /** A path whose first key `u` does not have reads the same before and
      after the merge. */
  lemma UpdateNestedOutside(d: Dict<Val>, u: Dict<Val>, path: seq<string>)
    requires GoodDict(d) && GoodDict(u) && |path| >= 1 && path[0] !in u.m
    ensures Lookup(UpdateNested(d, u), path) == Lookup(d, path)
  {
    UpdateNestedAt(d, u, path[0]);
  }

  /** A dict literal: its entries assigned in order. */
  function FromItems(items: seq<(string, Val)>): (d: Dict<Val>)
    requires forall i :: 0 <= i < |items| ==> Good(items[i].1)
    ensures GoodDict(d)
  {
    if items == [] then Empty()
    else
      var d := FromItems(items[..|items| - 1]);
      Set(d, items[|items| - 1].0, items[|items| - 1].1)
  }

  /** A dict literal whose values are all strings. */
  function StrDict(items: seq<(string, string)>): (d: Dict<Val>)
    ensures GoodDict(d)
  {
    FromItems(seq(|items|, i requires 0 <= i < |items| => (items[i].0, Str(items[i].1))))
  }

  /** Python's `str(v)`: the text of a scalar, `repr` for a dict (quote
      escaping inside strings is not modelled). */
  function Show(v: Val): string
    decreases v, 1
  {
    match v
    case Str(s) => s
    case Scalar(t) => t
    case Map(d) => "{" + ShowEntries(v, d.keys) + "}"
  }

  function Repr(v: Val): string
    decreases v, 2
  {
    match v
    case Str(s) => "'" + s + "'"
    case Scalar(t) => t
    case Map(d) => Show(v)
  }

  function ShowEntries(v: Val, ks: seq<string>): string
    requires v.Map?
    decreases v, 0, |ks|
  {
    if ks == [] then ""
    else
      var item := if ks[0] in v.d.m then "'" + ks[0] + "': " + Repr(v.d.m[ks[0]]) else "";
      item + (if |ks| > 1 then ", " else "") + ShowEntries(v, ks[1..])
  }
}
