/** GLU input parameters (`jobs/glu.py`): the defaults table overridden by
    flat or dotted names, and the line-based lookup and replacement of one
    `NAME = value` line in a GLU input text. */
module Glu {
  import opened Wrappers
  import opened Text
  import opened PyDict
  import opened Nested
  import opened LineScan

  // ---------------------------------------------------------------------------
  // Overrides

  /** The `defaults` table of `generate_glu_input`. */
  const GluDefaults: map<string, string> := map[
    "MODE" := "SMEARING", "CONFNO" := "24", "RANDOM_TRANSFORM" := "NO", "SEED" := "0",
    "CUTTYPE" := "GLUON_PROPS",
    "HEADER" := "NERSC", "DIM_0" := "16", "DIM_1" := "16", "DIM_2" := "16", "DIM_3" := "48",
    "GFTYPE" := "COULOMB", "GF_TUNE" := "0.09", "ACCURACY" := "14", "MAX_ITERS" := "650",
    "FIELD_DEFINITION" := "LINEAR", "MOM_CUT" := "CYLINDER_CUT", "MAX_T" := "7", "MAXMOM" := "4",
    "CYL_WIDTH" := "2.0", "ANGLE" := "60", "OUTPUT" := "./",
    "SMEARTYPE" := "STOUT", "DIRECTION" := "ALL", "SMITERS" := "8", "ALPHA1" := "0.75",
    "ALPHA2" := "0.4", "ALPHA3" := "0.2",
    "U1_MEAS" := "U1_RECTANGLE", "U1_ALPHA" := "0.07957753876221914", "U1_CHARGE" := "-1.0",
    "CONFIG_INFO" := "2+1DWF_b2.25_TEST", "STORAGE" := "CERN",
    "BETA" := "6.0", "ITERS" := "1500", "MEASURE" := "1", "OVER_ITERS" := "4", "SAVE" := "25",
    "THERM" := "100"]

  /** The name an override key sets: the part after its first `.` for a
      dotted key, the key itself otherwise; `None` (a warning) when that
      name has no default. */
  function Target(defaults: map<string, string>, key: string): (r: Option<string>)
    ensures r.Some? ==> r.value in defaults
    ensures r.Some? && '.' !in key ==> r.value == key
    ensures r.Some? && '.' in key ==> key == SplitOnce(key, '.').value.0 + "." + r.value
  {
    var name := if '.' in key then SplitOnce(key, '.').value.1 else key;
    if name in defaults then Some(name) else None
  }

  /** The override loop over the keys `ks` of `overrides`, in order,
      starting from the table `defaults`. */
  function Overridden(defaults: map<string, string>, overrides: Dict<Val>, ks: seq<string>): (r: map<string, string>)
    decreases |ks|
  {
    if ks == [] then defaults
    else
      var prev := Overridden(defaults, overrides, ks[..|ks| - 1]);
      var k := ks[|ks| - 1];
      if k in overrides.m && Target(defaults, k).Some? then prev[Target(defaults, k).value := Show(overrides.m[k])]
      else prev
  }

  /** `params` after the override loop of `generate_glu_input`: the
      defaults' names, no more and no fewer. */
  function GluParams(overrides: Dict<Val>): (r: map<string, string>)
    ensures r.Keys == GluDefaults.Keys
  {
    OverriddenKeys(GluDefaults, overrides, overrides.keys);
    Overridden(GluDefaults, overrides, overrides.keys)
  }

  /** No name is added and none is removed. */
  lemma {:induction false} OverriddenKeys(defaults: map<string, string>, overrides: Dict<Val>, ks: seq<string>)
    ensures Overridden(defaults, overrides, ks).Keys == defaults.Keys
    decreases |ks|
  {
    if ks != [] {
      OverriddenKeys(defaults, overrides, ks[..|ks| - 1]);
    }
  }

  /** No override key of `ks` from position `lo` on aims at `name`. */
  ghost predicate Untouched(defaults: map<string, string>, overrides: Dict<Val>, ks: seq<string>, name: string, lo: nat) {
    forall i :: lo <= i < |ks| && ks[i] in overrides.m ==> Target(defaults, ks[i]) != Some(name)
  }

  /** Dropping the last key keeps a stretch untouched. */
  lemma UntouchedFront(defaults: map<string, string>, overrides: Dict<Val>, ks: seq<string>, name: string, lo: nat)
    requires ks != [] && Untouched(defaults, overrides, ks, name, lo)
    ensures Untouched(defaults, overrides, ks[..|ks| - 1], name, lo)
  {
    var front := ks[..|ks| - 1];
    forall i | lo <= i < |front| && front[i] in overrides.m ensures Target(defaults, front[i]) != Some(name) {
      assert front[i] == ks[i];
    }
  }

  /** A default no override aims at keeps its default text. */
  lemma {:induction false} OverriddenDefault(defaults: map<string, string>, overrides: Dict<Val>, ks: seq<string>, name: string)
    requires name in defaults && Untouched(defaults, overrides, ks, name, 0)
    ensures name in Overridden(defaults, overrides, ks)
    ensures Overridden(defaults, overrides, ks)[name] == defaults[name]
    decreases |ks|
  {
    OverriddenKeys(defaults, overrides, ks);
    if ks != [] {
      var n := |ks| - 1;
      UntouchedFront(defaults, overrides, ks, name, 0);
      OverriddenDefault(defaults, overrides, ks[..n], name);
      assert ks[n] in overrides.m ==> Target(defaults, ks[n]) != Some(name);
    }
  }

  /** A default holds the text of the last override aimed at it. */
  lemma {:induction false} OverriddenLast(defaults: map<string, string>, overrides: Dict<Val>, ks: seq<string>, name: string, i: nat)
    requires i < |ks| && ks[i] in overrides.m && Target(defaults, ks[i]) == Some(name)
    requires Untouched(defaults, overrides, ks, name, i + 1)
    ensures name in Overridden(defaults, overrides, ks)
    ensures Overridden(defaults, overrides, ks)[name] == Show(overrides.m[ks[i]])
    decreases |ks|
  {
    OverriddenKeys(defaults, overrides, ks);
    var n := |ks| - 1;
    var front := ks[..n];
    if i < n {
      UntouchedFront(defaults, overrides, ks, name, i + 1);
      assert front[i] == ks[i];
      OverriddenLast(defaults, overrides, front, name, i);
      assert ks[n] in overrides.m ==> Target(defaults, ks[n]) != Some(name);
    } else {
      assert Overridden(defaults, overrides, ks)
          == Overridden(defaults, overrides, front)[name := Show(overrides.m[ks[i]])];
    }
  }

  /** The override loop, proved against `Overridden`; `generate_glu_input`
      runs it on `GluDefaults`. */
  method ApplyOverrides(defaults: map<string, string>, overrides: Dict<Val>) returns (params: map<string, string>)
    ensures params == Overridden(defaults, overrides, overrides.keys)
  {
    params := defaults;
    var ks := overrides.keys;
    var i := 0;
    while i < |ks|
      invariant 0 <= i <= |ks|
      invariant params == Overridden(defaults, overrides, ks[..i])
    {
      assert ks[..i + 1][..i] == ks[..i];
      var key := ks[i];
      if key in overrides.m {
        var name := if '.' in key then SplitOnce(key, '.').value.1 else key;
        if name in defaults {
          params := params[name := Show(overrides.m[key])];
        }
      }
      i := i + 1;
    }
    assert ks[..i] == ks;
  }

  // ---------------------------------------------------------------------------
  // Lines of a GLU input

  /** `line.strip().startswith(f'{name} =')`. */
  predicate Matches(line: string, name: string) {
    StartsWith(Strip(line), name + " =")
  }

  /** A line that ends a section: not blank and without four leading
      spaces. */
  predicate Outside(line: string) {
    Strip(line) != [] && !StartsWith(line, "    ")
  }

  /** The test `Matches(_, name)`, for the line scans. */
  function Matcher(name: string): LineTest {
    line => Matches(line, name)
  }

  /** The three tests of the scan for a `parent.child` key. */
  function SectionOf(parent: string, child: string): Section {
    Section(Matcher(parent), line => Outside(line), Matcher(child))
  }

  /** The name a key's line carries: the part after the first `.`, or the
      key. */
  function Name(key: string): string {
    if '.' in key then SplitOnce(key, '.').value.1 else key
  }

  /** The index of the line `get_glu_parameter` and `update_glu_parameter`
      act on. */
  function KeyIndex(lines: seq<string>, key: string): (r: Option<nat>)
    ensures r.Some? ==> r.value < |lines| && Matches(lines[r.value], Name(key))
  {
    if '.' in key then
      var pc := SplitOnce(key, '.').value;
      NestedWhere(lines, SectionOf(pc.0, pc.1))
    else FirstWhere(lines, Matcher(key), 0)
  }

  lemma StripIn(line: string, k: nat)
    requires k < |Strip(line)|
    ensures Strip(line)[k] in line
  {
    var l := LStrip(line);
    assert Strip(line)[k] == l[k];
    assert l[k] == line[|line| - |l| + k];
  }

  /** A matching line holds an `=`. */
  lemma MatchHasEq(line: string, name: string)
    requires Matches(line, name)
    ensures '=' in line
  {
    assert Strip(line)[|name| + 1] == '=';
    StripIn(line, |name| + 1);
  }

  /** `line.split('=', 1)[1]`. */
  function AfterEq(line: string): string
    requires '=' in line
  {
    SplitOnce(line, '=').value.1
  }

  /** `get_glu_parameter(content, key)`: the stripped text after the first
      `=` of the key's line, or `None`. */
  function GetGluParameter(content: string, key: string): (r: Option<string>)
    ensures r.Some? <==> KeyIndex(Split(content, '\n'), key).Some?
  {
    var lines := Split(content, '\n');
    match KeyIndex(lines, key)
    case None => None
    case Some(i) =>
      MatchHasEq(lines[i], Name(key));
      Some(Strip(AfterEq(lines[i])))
  }

  /** `line[:len(line) - len(line.lstrip())]`: the leading whitespace. */
  function Indent(line: string): (r: string)
    ensures r + LStrip(line) == line
    ensures forall i :: 0 <= i < |r| ==> IsSpace(r[i])
  {
    var k := |line| - |LStrip(line)|;
    assert line[..k] + LStrip(line) == line by {
      assert LStrip(line) == line[k..];
    }
    line[..k]
  }

  /** `f'{indent}{name} = {value}'`: the line that replaces `line`. */
  function Assigned(line: string, name: string, value: string): string {
    Indent(line) + (name + " = " + value)
  }

  /** The lines after `update_glu_parameter`: the key's line, when there is
      one, becomes `NAME = value` behind its old indent. */
  function Updated(lines: seq<string>, key: string, value: string): (r: seq<string>)
    ensures |r| == |lines|
    ensures KeyIndex(lines, key).None? ==> r == lines
    ensures KeyIndex(lines, key).Some? ==>
              var i := KeyIndex(lines, key).value;
              r[i] == Assigned(lines[i], Name(key), value)
              && forall j :: 0 <= j < |lines| && j != i ==> r[j] == lines[j]
  {
    match KeyIndex(lines, key)
    case None => lines
    case Some(i) => lines[i := Assigned(lines[i], Name(key), value)]
  }

  /** The file text after `update_glu_parameter`; a text with no line for
      the key comes back unchanged. */
  function UpdatedContent(content: string, key: string, value: string): (r: string)
    ensures KeyIndex(Split(content, '\n'), key).None? ==> r == content
  {
    JoinSplit(content, '\n');
    Join(Updated(Split(content, '\n'), key, value), '\n')
  }

  /** The loop of `update_glu_parameter` for a `parent.child` key: the
      first `child` line of the section, found by the scan, is rewritten. */
  method UpdateInSection(lines: seq<string>, key: string, value: string) returns (u: seq<string>)
    requires '.' in key
    ensures u == Updated(lines, key, value)
  {
    var pc := SplitOnce(key, '.').value;
    var found := FindInSection(lines, SectionOf(pc.0, pc.1));
    if found.Some? {
      var i := found.value;
      u := lines[i := Assigned(lines[i], pc.1, value)];
    } else {
      u := lines;
    }
  }

  /** The loop of `update_glu_parameter` for a plain key: the first
      matching line is rewritten. */
  method UpdateTopLevel(lines: seq<string>, key: string, value: string) returns (u: seq<string>)
    requires '.' !in key
    ensures u == Updated(lines, key, value)
  {
    var found := FindFirst(lines, Matcher(key));
    if found.Some? {
      var i := found.value;
      u := lines[i := Assigned(lines[i], key, value)];
    } else {
      u := lines;
    }
  }

  /** `update_glu_parameter`, proved against `UpdatedContent`. */
  method UpdateGluParameter(content: string, key: string, value: string) returns (r: string)
    ensures r == UpdatedContent(content, key, value)
  {
    var lines := Split(content, '\n');
    var updated;
    if '.' in key {
      updated := UpdateInSection(lines, key, value);
    } else {
      updated := UpdateTopLevel(lines, key, value);
    }
    r := Join(updated, '\n');
  }

  // ---------------------------------------------------------------------------
  // get after update

  lemma LStripSpaces(ind: string, t: string)
    requires forall k :: 0 <= k < |ind| ==> IsSpace(ind[k])
    requires t != [] && !IsSpace(t[0])
    ensures LStrip(ind + t) == t
    decreases |ind|
  {
    if ind != [] {
      assert (ind + t)[1..] == ind[1..] + t;
      LStripSpaces(ind[1..], t);
    }
  }

  /** A name some line matches is non-empty and starts with a
      non-space. */
  lemma MatchedName(line: string, name: string)
    requires Matches(line, name)
    ensures name != [] && !IsSpace(name[0])
  {
    var st := Strip(line);
    assert st[..|name + " ="|] == name + " =";
    assert st != [] && !IsSpace(st[0]);
    assert st[0] == (name + " =")[0];
  }

  /** The replacement line matches the same name. */
  lemma NewLineMatches(line: string, name: string, value: string)
    requires name != [] && !IsSpace(name[0])
    ensures Matches(Assigned(line, name, value), name)
  {
    StripAssigned(line, name + " = " + value);
    RStripAssignment(name, value);
  }

  lemma StripAssigned(line: string, t: string)
    requires t != [] && !IsSpace(t[0])
    ensures Strip(Indent(line) + t) == RStrip(t)
  {
    LStripSpaces(Indent(line), t);
  }

  lemma RStripAssignment(name: string, value: string)
    ensures StartsWith(RStrip(name + " = " + value), name + " =")
  {
    var t := name + " = " + value;
    var rs := RStrip(t);
    assert t[|name| + 1] == '=';
    assert |rs| > |name| + 1;
    assert rs[..|name| + 2] == t[..|name| + 2] == name + " =";
  }

  /** The text after the first `=` of the replacement line is ` value`. */
  lemma NewLineAfterEq(line: string, name: string, value: string)
    requires '=' !in name
    ensures '=' in Assigned(line, name, value)
    ensures AfterEq(Assigned(line, name, value)) == " " + value
  {
    var ind := Indent(line);
    var nl := Assigned(line, name, value);
    var e := |ind| + |name| + 1;
    assert nl[e] == '=';
    forall k | 0 <= k < e ensures nl[k] != '=' {
      if k < |ind| {
        assert nl[k] == ind[k];
      } else if k < |ind| + |name| {
        assert nl[k] == name[k - |ind|];
      }
    }
    IndexOfFirst(nl, '=', e);
    assert nl[e + 1..] == " " + value;
  }

  /** The replacement line holds no newline when the old line and the
      value hold none. */
  lemma NewLineNoNewline(line: string, name: string, value: string)
    requires Matches(line, name) && '\n' !in line && '\n' !in value
    ensures '\n' !in Assigned(line, name, value)
  {
    IndentNoNewline(line);
    NameNoNewline(line, name);
    var t := name + " = " + value;
    assert '\n' !in t by {
      forall k | 0 <= k < |t| ensures t[k] != '\n' {
        if k < |name| {
          assert t[k] == name[k];
        }
      }
    }
    NoNewlineConcat(Indent(line), t);
  }

  lemma IndentNoNewline(line: string)
    requires '\n' !in line
    ensures '\n' !in Indent(line)
  {
    var ind := Indent(line);
    forall k | 0 <= k < |ind| ensures ind[k] != '\n' {
      assert ind[k] == line[k];
    }
  }

  lemma NameNoNewline(line: string, name: string)
    requires Matches(line, name) && '\n' !in line
    ensures '\n' !in name
  {
    var st := Strip(line);
    assert st[..|name| + 2] == name + " =";
    forall k | 0 <= k < |name| ensures name[k] != '\n' {
      assert name[k] == st[k];
      StripIn(line, k);
    }
  }

  lemma NoNewlineConcat(a: string, b: string)
    requires '\n' !in a && '\n' !in b
    ensures '\n' !in a + b
  {
    forall k | 0 <= k < |a + b| ensures (a + b)[k] != '\n' {
      if k < |a| {
        assert (a + b)[k] == a[k];
      } else {
        assert (a + b)[k] == b[k - |a|];
      }
    }
  }

  /** The replacement of a matching line: it matches the same name, its
      text after the first `=` is ` value`, and it holds no newline when
      neither the old line nor the value does. */
  lemma NewLine(line: string, name: string, value: string)
    requires Matches(line, name) && '=' !in name
    ensures var nl := Assigned(line, name, value);
            Matches(nl, name) && '=' in nl && AfterEq(nl) == " " + value
            && ('\n' !in line && '\n' !in value ==> '\n' !in nl)
  {
    MatchedName(line, name);
    NewLineMatches(line, name, value);
    NewLineAfterEq(line, name, value);
    if '\n' !in line && '\n' !in value {
      NewLineNoNewline(line, name, value);
    }
  }

  /** A character missing from a key is missing from both its parts. */
  lemma PartsLack(key: string, c: char)
    requires '.' in key && c !in key
    ensures var pc := SplitOnce(key, '.').value;
            c !in pc.0 && c !in pc.1
  {
    var pc := SplitOnce(key, '.').value;
    forall k | 0 <= k < |pc.0| ensures pc.0[k] != c {
      assert pc.0[k] == key[k];
    }
    forall k | 0 <= k < |pc.1| ensures pc.1[k] != c {
      assert pc.1[k] == key[|pc.0| + 1 + k];
    }
  }

  /** The name of a key without `=` has none. */
  lemma NameLacksEq(key: string)
    requires '=' !in key
    ensures '=' !in Name(key)
  {
    if '.' in key {
      PartsLack(key, '=');
    }
  }

  /** Leading spaces are what `lstrip` removes first. */
  lemma {:induction false} LStripSkip(line: string, n: nat)
    requires n <= |line| && forall k :: 0 <= k < n ==> IsSpace(line[k])
    ensures LStrip(line) == LStrip(line[n..])
    decreases n
  {
    if n > 0 {
      assert line[1..][n - 1..] == line[n..];
      LStripSkip(line[1..], n - 1);
    }
  }

  /** A line inside a section keeps its four leading spaces when it is
      rewritten. */
  lemma RewriteStaysInside(line: string, t: string)
    requires StartsWith(line, "    ")
    ensures StartsWith(Indent(line) + t, "    ")
  {
    forall k | 0 <= k < 4 ensures IsSpace(line[k]) {
      assert line[k] == line[..4][k];
    }
    LStripSkip(line, 4);
    var ind := Indent(line);
    assert |ind| >= 4;
    assert ind == line[..|ind|];
    assert (ind + t)[..4] == line[..4];
  }

  /** Two names without `=` that differ cannot both open the same
      stripped line. */
  lemma NamesExclude(st: string, a: string, b: string)
    requires a != b && '=' !in a && '=' !in b
    requires StartsWith(st, b + " =")
    ensures !StartsWith(st, a + " =")
  {
    var pa, pb := a + " =", b + " =";
    if |pa| <= |st| {
      var k: nat;
      if |a| < |b| {
        k := |a| + 1;
        assert st[k] == pb[k];
        assert pb[k] != '=' by {
          if k < |b| {
            assert pb[k] == b[k];
          }
        }
      } else if |b| < |a| {
        k := |b| + 1;
        assert st[k] == pb[k] == '=';
        assert pa[k] != '=' by {
          if k < |a| {
            assert pa[k] == a[k];
          }
        }
      } else {
        assert exists j :: 0 <= j < |a| && a[j] != b[j];
        var j :| 0 <= j < |a| && a[j] != b[j];
        k := j;
        assert st[k] == pb[k] == b[k];
        assert pa[k] == a[k];
      }
      assert st[..|pa|][k] != pa[k];
    }
  }

  /** The rewritten child line of a section still passes the scan's tests
      as the child line. */
  lemma SectionLineKept(lines: seq<string>, parent: string, child: string, i: nat, value: string)
    requires NestedWhere(lines, SectionOf(parent, child)) == Some(i)
    requires '=' !in parent && '=' !in child
    ensures i < |lines|
    ensures var nl := Assigned(lines[i], child, value);
            Matches(nl, child) && !Matches(nl, parent) && !Outside(nl)
  {
    var sec := SectionOf(parent, child);
    var p := FirstWhere(lines, sec.parent, 0).value;
    assert SectionWhere(lines, sec, p + 1) == Some(i);
    var line := lines[i];
    assert Matches(line, child) && !Matches(line, parent) && !Outside(line);
    assert parent != child;
    var nl := Assigned(line, child, value);
    NewLine(line, child, value);
    NamesExclude(Strip(nl), parent, child);
    RewriteStaysInside(line, child + " = " + value);
  }

  lemma StripSpace(value: string)
    ensures Strip(" " + value) == Strip(value)
  {
    assert (" " + value)[1..] == value;
  }

  /** Reading a key back after updating it gives the stripped new value,
      for a flat key and for a `parent.child` key, when the key has a
      line, holds no `=`, and the value no newline. */
  lemma GetAfterUpdate(content: string, key: string, value: string)
    requires '=' !in key && '\n' !in value
    requires KeyIndex(Split(content, '\n'), key).Some?
    ensures GetGluParameter(UpdatedContent(content, key, value), key) == Some(Strip(value))
  {
    var lines := Split(content, '\n');
    var i := KeyIndex(lines, key).value;
    var name := Name(key);
    NameLacksEq(key);
    var nl := Assigned(lines[i], name, value);
    UpdatedLines(content, key, value);
    NewLine(lines[i], name, value);
    if '.' in key {
      var pc := SplitOnce(key, '.').value;
      PartsLack(key, '=');
      SectionLineKept(lines, pc.0, pc.1, i, value);
      NestedAfterRewrite(lines, SectionOf(pc.0, pc.1), i, nl);
    } else {
      FirstAfterRewrite(lines, Matcher(key), i, nl);
    }
    assert KeyIndex(lines[i := nl], key) == Some(i);
    StripSpace(value);
  }

  /** The lines of the updated content are the old lines with the key's
      line replaced. */
  lemma UpdatedLines(content: string, key: string, value: string)
    requires '=' !in key && '\n' !in value
    requires KeyIndex(Split(content, '\n'), key).Some?
    ensures var lines := Split(content, '\n');
            var i := KeyIndex(lines, key).value;
            Split(UpdatedContent(content, key, value), '\n')
              == lines[i := Assigned(lines[i], Name(key), value)]
  {
    var lines := Split(content, '\n');
    var i := KeyIndex(lines, key).value;
    var lines' := lines[i := Assigned(lines[i], Name(key), value)];
    forall k | 0 <= k < |lines'| ensures '\n' !in lines'[k] {
      if k == i {
        NewLineNoNewline(lines[i], Name(key), value);
      } else {
        assert lines'[k] == lines[k];
      }
    }
    assert Updated(lines, key, value) == lines';
    SplitJoin(lines', '\n');
  }

  // ---------------------------------------------------------------------------
  // other keys after an update

  /** The rewritten line matches a name without `=` exactly when the old
      line did. */
  lemma MatchesKept(line: string, name: string, n: string, value: string)
    requires Matches(line, name) && '=' !in name && '=' !in n
    ensures Matches(Assigned(line, name, value), n) == Matches(line, n)
  {
    MatchedName(line, name);
    NewLineMatches(line, name, value);
    if n != name {
      NamesExclude(Strip(line), n, name);
      NamesExclude(Strip(Assigned(line, name, value)), n, name);
    }
  }

  /** The rewritten line leaves a section exactly when the old line did:
      both are non-blank, and the indent is kept. */
  lemma OutsideKept(line: string, name: string, value: string)
    requires Matches(line, name)
    ensures Outside(Assigned(line, name, value)) == Outside(line)
  {
    MatchedName(line, name);
    NewLineMatches(line, name, value);
    FourSpacesKept(line, name, value);
    assert Strip(line) != [] && Strip(Assigned(line, name, value)) != [];
  }

  /** The rewritten line starts with four spaces exactly when the old line
      did. */
  lemma FourSpacesKept(line: string, name: string, value: string)
    requires Matches(line, name)
    ensures StartsWith(Assigned(line, name, value), "    ") == StartsWith(line, "    ")
  {
    MatchedName(line, name);
    assert Strip(line) != [];
    SameIndentFour(Indent(line), LStrip(line), name + " = " + value);
  }

  /** Two texts behind the same whitespace indent, each starting with a
      non-space, agree on starting with four spaces. */
  lemma SameIndentFour(ind: string, a: string, b: string)
    requires forall k :: 0 <= k < |ind| ==> IsSpace(ind[k])
    requires a != [] && !IsSpace(a[0]) && b != [] && !IsSpace(b[0])
    ensures StartsWith(ind + b, "    ") == StartsWith(ind + a, "    ")
  {
    if |ind| >= 4 {
      assert (ind + b)[..4] == ind[..4] == (ind + a)[..4];
    } else {
      assert (ind + a)[|ind|] == a[0] && (ind + b)[|ind|] == b[0];
    }
  }

  /** The scan for a key without `=` finds the same line after another
      key's line is rewritten. */
  lemma KeyIndexKept(lines: seq<string>, key: string, other: string, value: string)
    requires '=' !in key && '=' !in other
    requires KeyIndex(lines, key).Some?
    ensures var i := KeyIndex(lines, key).value;
            KeyIndex(lines[i := Assigned(lines[i], Name(key), value)], other) == KeyIndex(lines, other)
  {
    var i := KeyIndex(lines, key).value;
    var name := Name(key);
    NameLacksEq(key);
    var nl := Assigned(lines[i], name, value);
    if '.' in other {
      var pc := SplitOnce(other, '.').value;
      PartsLack(other, '=');
      MatchesKept(lines[i], name, pc.0, value);
      MatchesKept(lines[i], name, pc.1, value);
      OutsideKept(lines[i], name, value);
      NestedWhereSameTests(lines, SectionOf(pc.0, pc.1), i, nl);
    } else {
      MatchesKept(lines[i], name, other, value);
      FirstWhereSameTests(lines, Matcher(other), i, nl, 0);
    }
  }

  /** Updating one key leaves the value read for every other key without
      `=` whose line is a different one, flat or `parent.child`. */
  lemma OtherKeyKept(content: string, key: string, other: string, value: string)
    requires '=' !in key && '=' !in other && '\n' !in value
    requires KeyIndex(Split(content, '\n'), key).Some?
    requires KeyIndex(Split(content, '\n'), other) != KeyIndex(Split(content, '\n'), key)
    ensures GetGluParameter(UpdatedContent(content, key, value), other) == GetGluParameter(content, other)
  {
    var lines := Split(content, '\n');
    var i := KeyIndex(lines, key).value;
    var lines' := lines[i := Assigned(lines[i], Name(key), value)];
    UpdatedLines(content, key, value);
    KeyIndexKept(lines, key, other, value);
    assert Split(UpdatedContent(content, key, value), '\n') == lines';
    assert KeyIndex(lines', other) == KeyIndex(lines, other);
    if KeyIndex(lines, other).Some? {
      var j := KeyIndex(lines, other).value;
      assert lines'[j] == lines[j];
    }
  }
}
