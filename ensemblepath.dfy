/** The directory layout of an ensemble:
    `<root>/b<beta>/b<b>Ls<Ls>/mc<mc>/ms<ms>/ml<ml>/L<L>/T<T>`, with `<root>`
    the `TUNING` or `ENSEMBLES` directory. `add-ensemble` builds it from the
    eight physics values; `add-ensemble --directory` and `scan` read the
    values back with regular-expression searches. */
module EnsemblePath {
  import opened Wrappers
  import opened Text
  import opened Pattern

  /** The two roots under the base directory. */
  const TuningDir := "/TUNING"
  const EnsemblesDir := "/ENSEMBLES"

  /** The physics keys, in the order of the layout. */
  const Required: seq<string> := ["beta", "b", "Ls", "mc", "ms", "ml", "L", "T"]

  /** The text in front of each value, the first one following `<root>`. */
  const Tails: seq<string> := ["/b", "/b", "Ls", "/mc", "/ms", "/ml", "/L", "/T"]

  /** Which values are decimals (`\d+\.?\d*`); `Ls`, `L` and `T` are
      integers (`\d+`). */
  const Decimal: seq<bool> := [true, true, false, true, true, true, false, false]

  /** The relative path of an ensemble directory (the concatenation is
      grouped from the right, layer by layer). */
  function RelPath(vs: seq<string>): string
    requires |vs| == 8
  {
    "b" + vs[0] + ("/b" + vs[1] + ("Ls" + vs[2] + ("/mc" + vs[3] + ("/ms" + vs[4]
    + ("/ml" + vs[5] + ("/L" + vs[6] + ("/T" + vs[7] + [])))))))
  }

  /** The ensemble directory `root / rel` as a string. */
  function FullPath(root: string, vs: seq<string>): string
    requires |vs| == 8
  {
    root + "/" + RelPath(vs)
  }

  /** Values as the layout expects them: each one reads back whole. */
  predicate Standard(vs: seq<string>) {
    |vs| == 8 && forall i :: 0 <= i < 8 ==> Whole(vs[i], Decimal[i])
  }

  function Markers(root: string): (ms: seq<string>)
    ensures |ms| == 8 && ms[1..] == Tails[1..]
  {
    [root + "/b"] + Tails[1..]
  }

  /** What follows value `j` starts with this text (nothing after the last). */
  function Follow(j: nat): string
    requires j < 8
  {
    if j < 7 then Tails[j + 1] else ""
  }

  lemma {:induction false} LayersCons(ms: seq<string>, vs: seq<string>, k: nat)
    requires |ms| == |vs| && k < |ms|
    ensures Layers(ms[k..], vs[k..]) == ms[k] + vs[k] + Layers(ms[k + 1..], vs[k + 1..])
  {
    assert ms[k..][1..] == ms[k + 1..] && vs[k..][1..] == vs[k + 1..];
  }

  /** The full path is the markers alternating with the values. */
  lemma PathLayers(root: string, vs: seq<string>)
    requires |vs| == 8
    ensures FullPath(root, vs) == Layers(Markers(root), vs)
  {
    var ms := Markers(root);
    MarkerNames(root);
    LowerLayers(ms, vs);
    UpperLayers(ms, vs);
    var t1 := Layers(ms[1..], vs[1..]);
    assert RelPath(vs) == "b" + vs[0] + t1;
    FirstLayer(root, ms, vs);
  }

  lemma MarkerNames(root: string)
    ensures var ms := Markers(root);
            ms[0] == root + "/b" && ms[1] == "/b" && ms[2] == "Ls" && ms[3] == "/mc"
            && ms[4] == "/ms" && ms[5] == "/ml" && ms[6] == "/L" && ms[7] == "/T"
  {
  }

  /** The first layer joins the root to the rest. */
  lemma FirstLayer(root: string, ms: seq<string>, vs: seq<string>)
    requires |ms| == |vs| == 8 && ms[0] == root + "/b"
    ensures Layers(ms, vs) == root + "/" + ("b" + vs[0] + Layers(ms[1..], vs[1..]))
  {
    var t1 := Layers(ms[1..], vs[1..]);
    var slash := root + "/";
    assert slash + ("b" + vs[0] + t1) == slash + ("b" + vs[0]) + t1;
    assert slash + ("b" + vs[0]) == slash + "b" + vs[0];
    assert slash + "b" == root + "/b";
  }

  /** The last four layers. */
  lemma LowerLayers(ms: seq<string>, vs: seq<string>)
    requires |ms| == |vs| == 8
    requires ms[4] == "/ms" && ms[5] == "/ml" && ms[6] == "/L" && ms[7] == "/T"
    ensures Layers(ms[4..], vs[4..]) == "/ms" + vs[4] + ("/ml" + vs[5] + ("/L" + vs[6] + ("/T" + vs[7] + [])))
  {
    assert ms[8..] == [] && vs[8..] == [];
    LayersCons(ms, vs, 7);
    LayersCons(ms, vs, 6);
    LayersCons(ms, vs, 5);
    LayersCons(ms, vs, 4);
  }

  /** The second to fourth layers, in front of the last four. */
  lemma UpperLayers(ms: seq<string>, vs: seq<string>)
    requires |ms| == |vs| == 8
    requires ms[1] == "/b" && ms[2] == "Ls" && ms[3] == "/mc"
    ensures Layers(ms[1..], vs[1..]) == "/b" + vs[1] + ("Ls" + vs[2] + ("/mc" + vs[3] + Layers(ms[4..], vs[4..])))
  {
    LayersCons(ms, vs, 3);
    LayersCons(ms, vs, 2);
    LayersCons(ms, vs, 1);
  }

  lemma WholeNumeric(v: string, decimal: bool)
    requires Whole(v, decimal)
    ensures Numeric(v)
  {
    var n := DigitRun(v, 0);
    if n < |v| {
      forall i | n + 1 <= i < |v| ensures IsDigit(v[i]) {
        assert n + 1 <= i < n + 1 + DigitRun(v, n + 1);
      }
    }
  }

  /** No prefix the path patterns search for (`b`, `Ls`, `mc`, `ms`, `ml`,
      `L`, `T`) is directly followed by a digit in `root`: no match can
      start inside it. */
  predicate MarkerFree(root: string) {
    Clear(root, "b") && Clear(root, "Ls") && Clear(root, "mc") && Clear(root, "ms")
    && Clear(root, "ml") && Clear(root, "L") && Clear(root, "T")
  }

  /** The characters that end a prefix. */
  const PrefixEnds := "bcslLT"

  /** Every digit of `s` follows a character that ends no prefix. */
  predicate DigitsGuarded(s: string) {
    forall e :: 0 < e < |s| && IsDigit(s[e]) ==> s[e - 1] !in PrefixEnds
  }

  lemma GuardedClear(s: string, pre: string)
    requires DigitsGuarded(s) && pre != [] && pre[|pre| - 1] in PrefixEnds
    ensures Clear(s, pre)
  {
    forall e | |pre| <= e < |s| && IsDigit(s[e]) ensures s[e - |pre|..e] != pre {
      assert s[e - |pre|..e][|pre| - 1] == s[e - 1];
    }
  }

  /** Digits that follow no prefix-ending character leave a root marker-free. */
  lemma GuardedMarkerFree(s: string)
    requires DigitsGuarded(s)
    ensures MarkerFree(s)
  {
    GuardedClear(s, "b");
    GuardedClear(s, "Ls");
    GuardedClear(s, "mc");
    GuardedClear(s, "ms");
    GuardedClear(s, "ml");
    GuardedClear(s, "L");
    GuardedClear(s, "T");
  }

  /** Appending text without digits keeps a root marker-free. */
  lemma MarkerFreeAppend(root: string, t: string)
    requires MarkerFree(root) && Plain(t)
    ensures MarkerFree(root + t)
  {
    ClearAppend(root, t, "b");
    ClearAppend(root, t, "Ls");
    ClearAppend(root, t, "mc");
    ClearAppend(root, t, "ms");
    ClearAppend(root, t, "ml");
    ClearAppend(root, t, "L");
    ClearAppend(root, t, "T");
  }

  /** A root without digits or points is marker-free. */
  lemma PlainMarkerFree(root: string)
    requires Plain(root)
    ensures MarkerFree(root)
  {
    PlainClear(root, "b");
    PlainClear(root, "Ls");
    PlainClear(root, "mc");
    PlainClear(root, "ms");
    PlainClear(root, "ml");
    PlainClear(root, "L");
    PlainClear(root, "T");
  }

  lemma MarkerClear(root: string, j: nat, pre: string)
    requires Clear(root, pre) && j < 8
    ensures Markers(root)[j] != [] && Clear(Markers(root)[j], pre)
    ensures j > 0 ==> PlainHead(Markers(root)[j])
  {
    var ms := Markers(root);
    if j == 0 {
      assert Plain("/b");
      ClearAppend(root, "/b", pre);
    } else {
      assert Plain(Tails[j]);
      PlainClear(Tails[j], pre);
    }
  }

  /** Whether a marker ends with a two-letter-or-shorter prefix depends only
      on its tail. */
  lemma MarkerEnds(root: string, j: nat, pre: string)
    requires j < 8 && |pre| <= 2
    ensures EndsWith(Markers(root)[j], pre) <==> EndsWith(Tails[j], pre)
  {
    if j == 0 {
      var m := Markers(root)[0];
      assert m[|m| - |pre|..] == Tails[0][2 - |pre|..];
    }
  }

  /** What follows value `j` starts with a short suffix exactly when `Follow(j)` does. */
  lemma RestStarts(root: string, vs: seq<string>, j: nat, suf: string)
    requires |vs| == 8 && j < 8 && |suf| <= 2
    ensures StartsWith(Layers(Markers(root)[j + 1..], vs[j + 1..]), suf) <==> StartsWith(Follow(j), suf)
  {
    var ms := Markers(root);
    if j < 7 {
      LayersCons(ms, vs, j + 1);
      var r := Layers(ms[j + 1..], vs[j + 1..]);
      assert ms[j + 1] == Tails[j + 1];
      assert r[..|suf|] == Tails[j + 1][..|suf|];
    } else {
      assert ms[8..] == [] && vs[8..] == [];
    }
  }

  /** Searching the full path for a pattern whose prefix ends the tail of
      layer `i` and of no earlier layer whose match would pass the suffix
      gives the value of layer `i`. */
  lemma PathSearch(root: string, vs: seq<string>, p: Pat, i: nat)
    requires Clear(root, p.pre) && Standard(vs) && i < 8
    requires p.pre != [] && Plain(p.pre) && |p.pre| <= 2 && |p.suf| <= 2
    requires forall j :: 0 <= j < i ==>
               !EndsWith(Tails[j], p.pre) || (Whole(vs[j], p.decimal) && !StartsWith(Follow(j), p.suf))
    requires EndsWith(Tails[i], p.pre) && Whole(vs[i], p.decimal) && StartsWith(Follow(i), p.suf)
    ensures Search(FullPath(root, vs), p, 0) == Some(vs[i])
  {
    var ms := Markers(root);
    PathLayers(root, vs);
    forall j | 0 <= j < 8 ensures ms[j] != [] && Clear(ms[j], p.pre) && Numeric(vs[j]) && (j > 0 ==> PlainHead(ms[j])) {
      MarkerClear(root, j, p.pre);
      WholeNumeric(vs[j], Decimal[j]);
    }
    forall j | 0 <= j <= i
      ensures EndsWith(ms[j], p.pre) <==> EndsWith(Tails[j], p.pre)
      ensures StartsWith(Layers(ms[j + 1..], vs[j + 1..]), p.suf) <==> StartsWith(Follow(j), p.suf)
    {
      MarkerEnds(root, j, p.pre);
      RestStarts(root, vs, j, p.suf);
    }
    LayersSearch(ms, vs, p, i);
  }
}
