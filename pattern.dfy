/** The two regular-expression shapes the path parsers search for:
    `pre(\d+)suf` and `pre(\d+\.?\d*)suf`, and the "last run of digits" that
    `re.findall(r"(\d+)", name)[-1]` picks.

    Every suffix used is empty or starts with a character that is neither a
    digit nor a point. For such a suffix the greedy match is the only match
    at a position: a shorter digit run, or a point left out, leaves a digit
    or a point where the suffix has to start. So a match at `i` reads the
    maximal digit run, then (for the decimal shape) a point if one follows
    and the maximal digit run after it, and then needs the suffix. */
module Pattern {
  import opened Wrappers
  import opened Text

  datatype Pat = Pat(pre: string, decimal: bool, suf: string)

  /** The length of the run of digits starting at `i`. */
  function DigitRun(s: string, i: nat): (n: nat)
    requires i <= |s|
    ensures i + n <= |s|
    ensures forall k :: i <= k < i + n ==> IsDigit(s[k])
    ensures i + n == |s| || !IsDigit(s[i + n])
    decreases |s| - i
  {
    if i < |s| && IsDigit(s[i]) then 1 + DigitRun(s, i + 1) else 0
  }

  /** The end of the number that starts at `j`, or `None` if no digit is
      there. */
  function NumberEnd(s: string, j: nat, decimal: bool): (e: Option<nat>)
    requires j <= |s|
    ensures e.Some? ==> j < e.value <= |s|
  {
    var n := DigitRun(s, j);
    if n == 0 then None
    else if decimal && j + n < |s| && s[j + n] == '.' then Some(j + n + 1 + DigitRun(s, j + n + 1))
    else Some(j + n)
  }

  /** The group of a match of `p` at the start of `t`. */
  function MatchStart(t: string, p: Pat): (g: Option<string>)
  {
    if |p.pre| <= |t| && t[..|p.pre|] == p.pre then
      match NumberEnd(t, |p.pre|, p.decimal)
      case None => None
      case Some(e) => if StartsWith(t[e..], p.suf) then Some(t[|p.pre|..e]) else None
    else None
  }

  /** The group of a match of `p` starting at `i`. */
  function GroupAt(s: string, i: nat, p: Pat): (g: Option<string>)
    requires i <= |s|
  {
    MatchStart(s[i..], p)
  }

  /** `re.search(p, s)` from position `i`: the group of the leftmost match. */
  function Search(s: string, p: Pat, i: nat): (g: Option<string>)
    requires i <= |s|
    decreases |s| - i
  {
    if GroupAt(s, i, p).Some? then GroupAt(s, i, p)
    else if i == |s| then None
    else Search(s, p, i + 1)
  }

  /** A search that finds nothing means no position from `i` on has a match. */
  lemma {:induction false} SearchNone(s: string, p: Pat, i: nat)
    requires i <= |s|
    requires Search(s, p, i).None?
    ensures forall k :: i <= k <= |s| ==> GroupAt(s, k, p).None?
    decreases |s| - i
  {
    if i < |s| {
      SearchNone(s, p, i + 1);
    }
  }

  /** A search that finds a group finds it at the leftmost position that has
      a match. */
  lemma {:induction false} SearchLeftmost(s: string, p: Pat, i: nat)
    requires i <= |s|
    requires Search(s, p, i).Some?
    ensures exists k :: i <= k <= |s| && GroupAt(s, k, p) == Search(s, p, i)
                        && forall x :: i <= x < k ==> GroupAt(s, x, p).None?
    decreases |s| - i
  {
    var g := GroupAt(s, i, p);
    if g.Some? {
      assert GroupAt(s, i, p) == Search(s, p, i);
    } else {
      assert Search(s, p, i) == Search(s, p, i + 1);
      SearchLeftmost(s, p, i + 1);
      var k :| i + 1 <= k <= |s| && GroupAt(s, k, p) == Search(s, p, i + 1)
               && forall x :: i + 1 <= x < k ==> GroupAt(s, x, p).None?;
      assert forall x :: i <= x < k ==> GroupAt(s, x, p).None?;
    }
  }

  /** The search skips positions where nothing matches. */
  lemma {:induction false} SearchSkip(s: string, p: Pat, i: nat, k: nat)
    requires i <= k <= |s|
    requires forall x :: i <= x < k ==> GroupAt(s, x, p).None?
    ensures Search(s, p, i) == Search(s, p, k)
    decreases k - i
  {
    if i < k {
      SearchSkip(s, p, i + 1, k);
    }
  }

  /** The start of the last run of digits that ends at `e`. */
  function RunStart(s: string, e: nat): (b: nat)
    requires e <= |s|
    ensures b <= e && forall k :: b <= k < e ==> IsDigit(s[k])
    ensures b == 0 || !IsDigit(s[b - 1])
  {
    if e > 0 && IsDigit(s[e - 1]) then RunStart(s, e - 1) else e
  }

  /** `re.findall(r"(\d+)", s)[-1]`: the last maximal run of digits, `None`
      when `s` holds no digit. */
  function LastRun(s: string): (r: Option<string>)
    ensures r.None? <==> forall k :: 0 <= k < |s| ==> !IsDigit(s[k])
    ensures r.Some? ==> r.value != [] && AllDigits(r.value)
    decreases |s|
  {
    if s == [] then None
    else if IsDigit(s[|s| - 1]) then
      var b := RunStart(s, |s|);
      Some(s[b..])
    else
      var r := LastRun(s[..|s| - 1]);
      assert forall k :: 0 <= k < |s| - 1 ==> s[..|s| - 1][k] == s[k];
      r
  }

  /** A run of digits after a non-digit is what `LastRun` finds at the end. */
  lemma LastRunSuffix(a: string, digits: string)
    requires digits != [] && AllDigits(digits)
    requires a == [] || !IsDigit(a[|a| - 1])
    ensures LastRun(a + digits) == Some(digits)
  {
    var s := a + digits;
    RunStartOf(s, |a|, |s|);
    assert s[|a|..] == digits;
  }

  lemma {:induction false} RunStartOf(s: string, b: nat, e: nat)
    requires b <= e <= |s|
    requires forall k :: b <= k < e ==> IsDigit(s[k])
    requires b == 0 || !IsDigit(s[b - 1])
    ensures RunStart(s, e) == b
    decreases e
  {
    if e > b {
      RunStartOf(s, b, e - 1);
    }
  }

  // ---------------------------------------------------------------------------
  // searching a path made of marker/number layers

  /** No digit and no point. */
  predicate Plain(s: string) {
    forall i :: 0 <= i < |s| ==> !IsDigit(s[i]) && s[i] != '.'
  }

  /** No occurrence of `pre` in `s` is directly followed by a digit of `s`,
      so no match of `pre(\d+...)` starts inside `s` and reads a digit of it. */
  predicate Clear(s: string, pre: string) {
    forall e :: |pre| <= e < |s| && IsDigit(s[e]) ==> s[e - |pre|..e] != pre
  }

  /** Text without digits hides no prefix followed by a digit. */
  lemma PlainClear(s: string, pre: string)
    requires Plain(s)
    ensures Clear(s, pre)
  {
  }

  /** Appending text without digits keeps a string clear of `pre`. */
  lemma ClearAppend(s: string, t: string, pre: string)
    requires Clear(s, pre) && Plain(t)
    ensures Clear(s + t, pre)
  {
    var u := s + t;
    forall e | |pre| <= e < |u| && IsDigit(u[e]) ensures u[e - |pre|..e] != pre {
      if e < |s| {
        assert u[e] == s[e];
        assert u[e - |pre|..e] == s[e - |pre|..e];
      }
    }
  }

  /** Empty, or starting with a character that is neither a digit nor a point. */
  predicate PlainHead(s: string) {
    s == [] || (!IsDigit(s[0]) && s[0] != '.')
  }

  /** Digits and points, starting with a digit. */
  predicate Numeric(v: string) {
    v != [] && IsDigit(v[0]) && forall i :: 0 <= i < |v| ==> IsDigit(v[i]) || v[i] == '.'
  }

  /** `v` is exactly what the group `\d+` (or `\d+\.?\d*` when `decimal`)
      reads from it. */
  predicate Whole(v: string, decimal: bool) {
    var n := DigitRun(v, 0);
    0 < n && (n == |v| || (decimal && v[n] == '.' && n + 1 + DigitRun(v, n + 1) == |v|))
  }

  predicate EndsWith(s: string, suffix: string) {
    |suffix| <= |s| && s[|s| - |suffix|..] == suffix
  }

  /** `ms[0] + vs[0] + ms[1] + vs[1] + ...`: markers alternating with numbers. */
  function Layers(ms: seq<string>, vs: seq<string>): string
    requires |ms| == |vs|
    decreases |ms|
  {
    if ms == [] then [] else ms[0] + vs[0] + Layers(ms[1..], vs[1..])
  }

  lemma {:induction false} DigitRunAppend(a: string, b: string, j: nat)
    requires j <= |b|
    ensures DigitRun(a + b, |a| + j) == DigitRun(b, j)
    decreases |b| - j
  {
    if j < |b| {
      assert (a + b)[|a| + j] == b[j];
      DigitRunAppend(a, b, j + 1);
    }
  }

  /** A run that stops inside `v`, or at its end before a non-digit, is not
      lengthened by what follows. */
  lemma {:induction false} DigitRunStop(v: string, r: string, i: nat)
    requires i <= |v|
    requires i + DigitRun(v, i) < |v| || r == [] || !IsDigit(r[0])
    ensures DigitRun(v + r, i) == DigitRun(v, i)
    decreases |v| - i
  {
    if i < |v| {
      assert (v + r)[i] == v[i];
      if IsDigit(v[i]) {
        DigitRunStop(v, r, i + 1);
      }
    } else if r != [] {
      assert (v + r)[i] == r[0];
    }
  }

  /** What a match at a position sees does not depend on what precedes it. */
  lemma GroupAtAppend(a: string, b: string, j: nat, p: Pat)
    requires j <= |b|
    ensures GroupAt(a + b, |a| + j, p) == GroupAt(b, j, p)
  {
    assert (a + b)[|a| + j..] == b[j..];
  }

  lemma {:induction false} SearchAppend(a: string, b: string, j: nat, p: Pat)
    requires j <= |b|
    ensures Search(a + b, p, |a| + j) == Search(b, p, j)
    decreases |b| - j
  {
    GroupAtAppend(a, b, j, p);
    if GroupAt(b, j, p).None? && j < |b| {
      SearchAppend(a, b, j + 1, p);
    }
  }

  /** No match where the prefix is absent or no digit follows it. */
  lemma NoGroup(s: string, x: nat, p: Pat)
    requires x <= |s|
    requires x + |p.pre| < |s| ==> s[x..x + |p.pre|] != p.pre || !IsDigit(s[x + |p.pre|])
    ensures GroupAt(s, x, p).None?
  {
    var t := s[x..];
    if |p.pre| < |t| {
      assert t[..|p.pre|] == s[x..x + |p.pre|];
      assert t[|p.pre|] == s[x + |p.pre|];
    }
  }

  /** The prefix followed by a whole number: the match reads that number. */
  lemma MatchNumber(pre: string, v: string, r: string, p: Pat)
    requires pre == p.pre && Whole(v, p.decimal) && PlainHead(r)
    ensures MatchStart(pre + v + r, p) == if StartsWith(r, p.suf) then Some(v) else None
  {
    var t := pre + v + r;
    assert t == pre + (v + r);
    assert t[..|pre|] == pre;
    NumberEndWhole(pre, v, r, p.decimal);
    var e := |pre| + |v|;
    assert t[e..] == r;
    assert t[|pre|..e] == v;
  }

  /** A whole number followed by a plain tail ends where the tail starts. */
  lemma NumberEndWhole(pre: string, v: string, r: string, decimal: bool)
    requires Whole(v, decimal) && PlainHead(r)
    ensures NumberEnd(pre + (v + r), |pre|, decimal) == Some(|pre| + |v|)
  {
    var t := pre + (v + r);
    var n := DigitRun(v, 0);
    DigitRunAppend(pre, v + r, 0);
    DigitRunStop(v, r, 0);
    if n < |v| {
      assert t[|pre| + n] == v[n];
      DigitRunAppend(pre, v + r, n + 1);
      DigitRunStop(v, r, n + 1);
    } else if r != [] {
      assert t[|pre| + n] == r[0];
    }
  }

  /** A match whose prefix ends a marker reads the whole number after it. */
  lemma LayerGroup(m: string, v: string, r: string, p: Pat)
    requires EndsWith(m, p.pre) && Whole(v, p.decimal) && PlainHead(r)
    ensures GroupAt(m + v + r, |m| - |p.pre|, p) == if StartsWith(r, p.suf) then Some(v) else None
  {
    var s := m + v + r;
    var i := |m| - |p.pre|;
    assert s[i..] == p.pre + v + r;
    MatchNumber(p.pre, v, r, p);
  }

  /** A layer whose marker does not end with the prefix, or whose match
      fails on the suffix, is passed over. */
  lemma LayerSkipped(m: string, v: string, r: string, p: Pat)
    requires Clear(m, p.pre) && Numeric(v) && PlainHead(r) && p.pre != [] && Plain(p.pre)
    requires !EndsWith(m, p.pre) || (Whole(v, p.decimal) && !StartsWith(r, p.suf))
    ensures Search(m + v + r, p, 0) == Search(r, p, 0)
  {
    var s := m + v + r;
    var pre := p.pre;
    forall x | 0 <= x < |m| + |v| ensures GroupAt(s, x, p).None? {
      var k := x + |pre|;
      if x < |m| {
        if k < |m| {
          assert s[k] == m[k];
          assert s[x..k] == m[x..k];
        } else if k == |m| {
          assert s[x..k] == m[x..];
          if EndsWith(m, pre) {
            LayerGroup(m, v, r, p);
          }
        } else if k < |s| {
          assert s[|m|] == v[0];
          assert s[x..k][|m| - x] == s[|m|];
        }
      } else if k < |s| {
        assert s[x] == v[x - |m|];
        assert s[x..k][0] == s[x];
      }
      NoGroupOr(s, x, p, EndsWith(m, pre) && k == |m|);
    }
    SearchSkip(s, p, 0, |m| + |v|);
    assert s == (m + v) + r;
    SearchAppend(m + v, r, 0, p);
  }

  lemma NoGroupOr(s: string, x: nat, p: Pat, known: bool)
    requires x <= |s|
    requires known ==> GroupAt(s, x, p).None?
    requires !known ==> (x + |p.pre| < |s| ==> s[x..x + |p.pre|] != p.pre || !IsDigit(s[x + |p.pre|]))
    ensures GroupAt(s, x, p).None?
  {
  }

  /** The first marker that ends with the prefix, and whose match passes the
      suffix, gives the number after it. */
  lemma LayerHit(m: string, v: string, r: string, p: Pat)
    requires Clear(m, p.pre) && PlainHead(r)
    requires EndsWith(m, p.pre) && Whole(v, p.decimal) && StartsWith(r, p.suf)
    ensures Search(m + v + r, p, 0) == Some(v)
  {
    var s := m + v + r;
    var i := |m| - |p.pre|;
    forall x | 0 <= x < i ensures GroupAt(s, x, p).None? {
      assert s[x + |p.pre|] == m[x + |p.pre|];
      assert s[x..x + |p.pre|] == m[x..x + |p.pre|];
    }
    SearchSkip(s, p, 0, i);
    LayerGroup(m, v, r, p);
  }

  /** Searching a layered path: the layers before `i` are passed over and
      layer `i` gives its number. */
  lemma {:induction false} LayersSearch(ms: seq<string>, vs: seq<string>, p: Pat, i: nat)
    requires |ms| == |vs| && i < |ms|
    requires p.pre != [] && Plain(p.pre)
    requires forall j :: 0 <= j < |ms| ==> ms[j] != [] && Clear(ms[j], p.pre) && Numeric(vs[j])
    requires forall j :: 0 < j < |ms| ==> PlainHead(ms[j])
    requires forall j :: 0 <= j < i ==>
               !EndsWith(ms[j], p.pre) || (Whole(vs[j], p.decimal) && !StartsWith(Layers(ms[j + 1..], vs[j + 1..]), p.suf))
    requires EndsWith(ms[i], p.pre) && Whole(vs[i], p.decimal) && StartsWith(Layers(ms[i + 1..], vs[i + 1..]), p.suf)
    ensures Search(Layers(ms, vs), p, 0) == Some(vs[i])
    decreases i
  {
    var r := Layers(ms[1..], vs[1..]);
    assert PlainHead(r) by {
      if |ms| > 1 {
        assert r[0] == ms[1][0];
      }
    }
    if i == 0 {
      LayerHit(ms[0], vs[0], r, p);
    } else {
      LayerSkipped(ms[0], vs[0], r, p);
      forall j | 0 <= j < i - 1
        ensures !EndsWith(ms[1..][j], p.pre)
                || (Whole(vs[1..][j], p.decimal) && !StartsWith(Layers(ms[1..][j + 1..], vs[1..][j + 1..]), p.suf))
      {
        assert ms[1..][j + 1..] == ms[j + 2..] && vs[1..][j + 1..] == vs[j + 2..];
      }
      assert ms[1..][i..] == ms[i + 1..] && vs[1..][i..] == vs[i + 1..];
      LayersSearch(ms[1..], vs[1..], p, i - 1);
    }
  }
}
