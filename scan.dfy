/** Configuration scanning (`cli/commands/scan_configs.py`): the numbers of
    the configuration files of an ensemble, the increment inferred from
    them, the range summary stored for the ensemble, and the physics
    signature read from an ensemble directory path. */
module ScanConfigs {
  import opened Wrappers
  import opened Text
  import opened Pattern
  import opened EnsemblePath

  // ---------------------------------------------------------------------------
  // increment

  /** `_infer_increment` as a specification: the common difference of an
      arithmetic sequence of at least two values going up. */
  function Increment(values: seq<int>): (r: Option<int>)
    ensures |values| < 2 ==> r.None?
    ensures |values| >= 2 && values[1] - values[0] <= 0 ==> r.None?
    ensures r.Some? ==> r.value == values[1] - values[0]
  {
    if |values| < 2 then None
    else
      var inc := values[1] - values[0];
      if inc <= 0 then None
      else if forall i :: 2 <= i < |values| ==> values[i] - values[i - 1] == inc then Some(inc)
      else None
  }

  /** `_infer_increment`: the first difference, checked against every later
      one, stopping at the first that differs. */
  method InferIncrement(values: seq<int>) returns (r: Option<int>)
    ensures r == Increment(values)
  {
    if |values| < 2 {
      return None;
    }
    var inc := values[1] - values[0];
    if inc <= 0 {
      return None;
    }
    var i := 2;
    while i < |values|
      invariant 2 <= i <= |values|
      invariant forall k :: 2 <= k < i ==> values[k] - values[k - 1] == inc
    {
      if values[i] - values[i - 1] != inc {
        return None;
      }
      i := i + 1;
    }
    return Some(inc);
  }

  /** The values of an arithmetic progression. */
  predicate Progression(values: seq<int>, d: int) {
    forall i :: 0 <= i < |values| ==> values[i] == values[0] + i * d
  }

  /** The inferred increment is `d` exactly when the values are at least two
      and run from the first in steps of `d > 0`. */
  lemma IncrementMeaning(values: seq<int>, d: int)
    ensures Increment(values) == Some(d) <==> |values| >= 2 && d > 0 && Progression(values, d)
  {
    if Increment(values) == Some(d) {
      ProgressionOfSteps(values, d, |values|);
    }
    if |values| >= 2 && d > 0 && Progression(values, d) {
      assert values[1] == values[0] + d;
      forall i | 2 <= i < |values| ensures values[i] - values[i - 1] == d {
        assert values[i] == values[0] + i * d && values[i - 1] == values[0] + (i - 1) * d;
      }
    }
  }

  lemma {:induction false} ProgressionOfSteps(values: seq<int>, d: int, n: nat)
    requires n <= |values|
    requires forall i :: 1 <= i < |values| ==> values[i] - values[i - 1] == d
    ensures forall i :: 0 <= i < n ==> values[i] == values[0] + i * d
  {
    if n > 1 {
      ProgressionOfSteps(values, d, n - 1);
      assert values[n - 1] == values[n - 2] + d;
      assert values[n - 2] == values[0] + (n - 2) * d;
    }
  }

  // ---------------------------------------------------------------------------
  // configuration numbers

  /** Sorted and free of duplicates. */
  predicate Increasing(s: seq<int>) {
    forall i, j :: 0 <= i < j < |s| ==> s[i] < s[j]
  }

  function Insert(s: seq<int>, x: int): (r: seq<int>)
    requires Increasing(s)
    ensures Increasing(r) && forall y :: y in r <==> y in s || y == x
  {
    if s == [] then [x]
    else if x < s[0] then [x] + s
    else if x == s[0] then s
    else
      var rest := Insert(s[1..], x);
      assert forall y :: y in rest ==> s[0] < y by {
        forall y | y in rest ensures s[0] < y {
          if y != x {
            var k :| 0 <= k < |s[1..]| && s[1..][k] == y;
            assert s[k + 1] == y;
          }
        }
      }
      var r := [s[0]] + rest;
      assert forall j :: 0 < j < |r| ==> r[j] == rest[j - 1] && r[j] in rest;
      r
  }

  /** `sorted(set(xs))`. */
  function SortedUnique(xs: seq<int>): (r: seq<int>)
    ensures Increasing(r) && forall y :: y in r <==> y in xs
  {
    if xs == [] then []
    else
      var init := xs[..|xs| - 1];
      assert xs == init + [xs[|xs| - 1]];
      Insert(SortedUnique(init), xs[|xs| - 1])
  }

  /** An entry of the cnfg directory listing. */
  datatype Entry = Entry(name: string, isFile: bool)

  /** The number a listing entry contributes: a regular file whose name
      contains `lat` gives the value of the last run of digits in its name. */
  function ConfigNumber(e: Entry): Option<int> {
    if !e.isFile || !Contains(e.name, "lat") then None
    else
      match LastRun(e.name)
      case None => None
      case Some(d) => Some(DigitsValue(d))
  }

  predicate Contributes(entries: seq<Entry>, n: int) {
    exists k :: 0 <= k < |entries| && ConfigNumber(entries[k]) == Some(n)
  }

  /** `_extract_numbers_from_cnfg`. The listing is `None` when the directory
      does not exist. The result is sorted, free of duplicates, and holds
      exactly the numbers the entries contribute. */
  method ExtractNumbers(listing: Option<seq<Entry>>) returns (r: seq<int>)
    ensures listing.None? ==> r == []
    ensures Increasing(r)
    ensures listing.Some? ==> forall n :: n in r <==> Contributes(listing.value, n)
  {
    if listing.None? {
      return [];
    }
    var entries := listing.value;
    var nums: seq<int> := [];
    var i := 0;
    while i < |entries|
      invariant 0 <= i <= |entries|
      invariant forall n :: n in nums <==> Contributes(entries[..i], n)
    {
      var e := entries[i];
      var c := ConfigNumber(e);
      if c.Some? {
        nums := nums + [c.value];
      }
      i := i + 1;
      forall n ensures n in nums <==> Contributes(entries[..i], n) {
        if Contributes(entries[..i], n) {
          var k :| 0 <= k < i && ConfigNumber(entries[..i][k]) == Some(n);
          if k < i - 1 {
            assert entries[..i - 1][k] == entries[k];
          }
        }
        if n in nums && !(c.Some? && n == c.value) {
          var k :| 0 <= k < i - 1 && ConfigNumber(entries[..i - 1][k]) == Some(n);
          assert entries[..i][k] == entries[k];
        }
        if c.Some? && n == c.value {
          assert entries[..i][i - 1] == e;
        }
      }
    }
    assert entries[..i] == entries;
    r := SortedUnique(nums);
  }

  /** A configuration file name carries its number after the marker. */
  lemma ConfigNumberOf(prefix: string, n: nat)
    requires Contains(prefix, "lat") && (prefix == [] || !IsDigit(prefix[|prefix| - 1]))
    ensures ConfigNumber(Entry(prefix + NatToString(n), true)) == Some(n)
  {
    var name := prefix + NatToString(n);
    LastRunSuffix(prefix, NatToString(n));
    NatToStringValue(n);
    var i :| 0 <= i <= |prefix| && StartsWith(prefix[i..], "lat");
    assert name[i..][..3] == prefix[i..][..3];
  }

  // ---------------------------------------------------------------------------
  // range summary

  datatype Range = Range(first: int, last: int, increment: Option<int>, total: nat)

  /** The range stored for an ensemble, or `None` (nothing stored) when no
      configuration was found. */
  function Summary(vals: seq<int>): (r: Option<Range>)
    ensures r.None? <==> vals == []
    ensures r.Some? ==> r.value.total == |vals| && r.value.increment == Increment(vals)
  {
    if vals == [] then None
    else Some(Range(vals[0], vals[|vals| - 1], Increment(vals), |vals|))
  }

  /** On the sorted numbers, the range runs from the smallest to the largest. */
  lemma SummaryBounds(vals: seq<int>)
    requires Increasing(vals) && vals != []
    ensures var r := Summary(vals).value;
            r.first in vals && r.last in vals
            && (forall v :: v in vals ==> r.first <= v <= r.last)
  {
    forall v | v in vals ensures vals[0] <= v <= vals[|vals| - 1] {
      var k :| 0 <= k < |vals| && vals[k] == v;
      assert k == 0 || vals[0] < vals[k];
      assert k == |vals| - 1 || vals[k] < vals[|vals| - 1];
    }
  }

  // ---------------------------------------------------------------------------
  // physics signature

  /** The eight physics values of an ensemble, as text. */
  datatype Signature = Signature(beta: string, b: string, Ls: string, mc: string, ms: string,
                                 ml: string, L: string, T: string)

  const BetaPat := Pat("b", true, "/b")
  const BPat := Pat("b", true, "Ls")
  const LsPat := Pat("Ls", false, "")
  const McPat := Pat("mc", true, "")
  const MsPat := Pat("ms", true, "")
  const MlPat := Pat("ml", true, "")
  const LPat := Pat("L", false, "/T")
  const TPat := Pat("T", false, "")

  function Find(s: string, p: Pat): Option<string> {
    Search(s, p, 0)
  }

  /** `_extract_params_signature`: `None` as soon as one of the eight
      patterns finds nothing. */
  function ExtractSignature(path: string): (r: Option<Signature>)
    ensures r.Some? <==>
              Find(path, BetaPat).Some? && Find(path, BPat).Some? && Find(path, LsPat).Some?
              && Find(path, McPat).Some? && Find(path, MsPat).Some? && Find(path, MlPat).Some?
              && Find(path, LPat).Some? && Find(path, TPat).Some?
    ensures r.Some? ==> r.value.beta == Find(path, BetaPat).value && r.value.T == Find(path, TPat).value
  {
    var beta :- Find(path, BetaPat);
    var b :- Find(path, BPat);
    var Ls :- Find(path, LsPat);
    var mc :- Find(path, McPat);
    var ms :- Find(path, MsPat);
    var ml :- Find(path, MlPat);
    var L :- Find(path, LPat);
    var T :- Find(path, TPat);
    Some(Signature(beta, b, Ls, mc, ms, ml, L, T))
  }

  /** Each signature pattern finds its own value in a built path, one
      lemma per key. */
  lemma SignatureKey0(root: string, vs: seq<string>)
    requires MarkerFree(root) && Standard(vs)
    ensures Find(FullPath(root, vs), BetaPat) == Some(vs[0])
  {
    PathSearch(root, vs, BetaPat, 0);
  }

  lemma SignatureKey1(root: string, vs: seq<string>)
    requires MarkerFree(root) && Standard(vs)
    ensures Find(FullPath(root, vs), BPat) == Some(vs[1])
  {
    assert Whole(vs[0], Decimal[0]);
    assert !StartsWith(Follow(0), BPat.suf) by {
      assert Follow(0)[0] != BPat.suf[0];
    }
    PathSearch(root, vs, BPat, 1);
  }

  lemma SignatureKey2(root: string, vs: seq<string>)
    requires MarkerFree(root) && Standard(vs)
    ensures Find(FullPath(root, vs), LsPat) == Some(vs[2])
  {
    PathSearch(root, vs, LsPat, 2);
  }

  lemma SignatureKey3(root: string, vs: seq<string>)
    requires MarkerFree(root) && Standard(vs)
    ensures Find(FullPath(root, vs), McPat) == Some(vs[3])
  {
    PathSearch(root, vs, McPat, 3);
  }

  lemma SignatureKey4(root: string, vs: seq<string>)
    requires MarkerFree(root) && Standard(vs)
    ensures Find(FullPath(root, vs), MsPat) == Some(vs[4])
  {
    PathSearch(root, vs, MsPat, 4);
  }

  lemma SignatureKey5(root: string, vs: seq<string>)
    requires MarkerFree(root) && Standard(vs)
    ensures Find(FullPath(root, vs), MlPat) == Some(vs[5])
  {
    PathSearch(root, vs, MlPat, 5);
  }

  lemma SignatureKey6(root: string, vs: seq<string>)
    requires MarkerFree(root) && Standard(vs)
    ensures Find(FullPath(root, vs), LPat) == Some(vs[6])
  {
    PathSearch(root, vs, LPat, 6);
  }

  lemma SignatureKey7(root: string, vs: seq<string>)
    requires MarkerFree(root) && Standard(vs)
    ensures Find(FullPath(root, vs), TPat) == Some(vs[7])
  {
    PathSearch(root, vs, TPat, 7);
  }

  /** The signature of an ensemble directory built from whole values, under
      a marker-free root, is those values. */
  lemma SignatureRoundTrip(root: string, vs: seq<string>)
    requires MarkerFree(root) && Standard(vs)
    ensures ExtractSignature(FullPath(root, vs)) == Some(Signature(vs[0], vs[1], vs[2], vs[3], vs[4], vs[5], vs[6], vs[7]))
  {
    SignatureKey0(root, vs);
    SignatureKey1(root, vs);
    SignatureKey2(root, vs);
    SignatureKey3(root, vs);
    SignatureKey4(root, vs);
    SignatureKey5(root, vs);
    SignatureKey6(root, vs);
    SignatureKey7(root, vs);
  }
}
