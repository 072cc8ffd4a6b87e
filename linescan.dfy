/** The two line scans of `jobs/glu.py`, over any tests on lines: the first
    line that passes a test, and the first `child` line of the indented
    block after a `parent` line. `Glu` instantiates the tests with the
    `NAME =` match and the end-of-section test. */
module LineScan {
  import opened Wrappers

  /** A test on one line of text. */
  type LineTest = string -> bool

  /** The three tests of the section scan: a `parent` line, a line that
      leaves the section, a `child` line. */
  datatype Section = Section(parent: LineTest, outside: LineTest, child: LineTest)

  // ---------------------------------------------------------------------------
  // The first line that passes a test

  /** No line of `lines[lo..hi]` passes `m`. */
  ghost predicate NoneWhere(lines: seq<string>, m: LineTest, lo: nat, hi: nat)
    requires lo <= hi <= |lines|
    decreases hi - lo
  {
    lo == hi || (!m(lines[lo]) && NoneWhere(lines, m, lo + 1, hi))
  }

  /** The first line at or after `from` that passes `m`. */
  function FirstWhere(lines: seq<string>, m: LineTest, from: nat): (r: Option<nat>)
    requires from <= |lines|
    ensures r.Some? ==> from <= r.value < |lines| && m(lines[r.value])
    ensures r.Some? ==> NoneWhere(lines, m, from, r.value)
    ensures r.None? ==> NoneWhere(lines, m, from, |lines|)
    decreases |lines| - from
  {
    if from == |lines| then None
    else if m(lines[from]) then Some(from)
    else FirstWhere(lines, m, from + 1)
  }

  /** A line that does not pass extends a stretch without passes at its
      end. */
  lemma {:induction false} NoneWhereStep(lines: seq<string>, m: LineTest, lo: nat, hi: nat)
    requires lo <= hi < |lines|
    requires NoneWhere(lines, m, lo, hi) && !m(lines[hi])
    ensures NoneWhere(lines, m, lo, hi + 1)
    decreases hi - lo
  {
    if lo < hi {
      NoneWhereStep(lines, m, lo + 1, hi);
    } else {
      assert NoneWhere(lines, m, hi + 1, hi + 1);
    }
  }

  /** Whether a stretch holds a pass depends on its lines only. */
  lemma {:induction false} NoneWhereSame(a: seq<string>, b: seq<string>, m: LineTest, lo: nat, hi: nat)
    requires lo <= hi <= |a| && hi <= |b| && a[..hi] == b[..hi]
    requires NoneWhere(a, m, lo, hi)
    ensures NoneWhere(b, m, lo, hi)
    decreases hi - lo
  {
    if lo < hi {
      assert a[lo] == a[..hi][lo] == b[..hi][lo] == b[lo];
      NoneWhereSame(a, b, m, lo + 1, hi);
    }
  }

  /** The search goes past lines that do not pass. */
  lemma {:induction false} FirstWhereSkip(lines: seq<string>, m: LineTest, from: nat, i: nat)
    requires from <= i <= |lines|
    requires NoneWhere(lines, m, from, i)
    ensures FirstWhere(lines, m, from) == FirstWhere(lines, m, i)
    decreases i - from
  {
    if from < i {
      FirstWhereSkip(lines, m, from + 1, i);
    }
  }

  /** A line that passes, with none before it from `from`, is the first. */
  lemma FirstWhereAt(lines: seq<string>, m: LineTest, from: nat, i: nat)
    requires from <= i < |lines| && m(lines[i])
    requires NoneWhere(lines, m, from, i)
    ensures FirstWhere(lines, m, from) == Some(i)
  {
    FirstWhereSkip(lines, m, from, i);
  }

  // ---------------------------------------------------------------------------
  // The first `child` line of a section

  /** A line the section scan goes past: another parent line, or a line
      inside the section that is not the child's. */
  predicate Passed(s: Section, line: string) {
    s.parent(line) || (!s.outside(line) && !s.child(line))
  }

  /** The scan inside a section from line `j`: a further parent line is
      passed over, a line outside the section stops it, the first child
      line is the one. */
  function SectionWhere(lines: seq<string>, s: Section, j: nat): (r: Option<nat>)
    requires j <= |lines|
    ensures r.Some? ==> j <= r.value < |lines| && s.child(lines[r.value])
    ensures r.Some? ==> !s.parent(lines[r.value]) && !s.outside(lines[r.value])
    ensures r.Some? ==> AllPassed(lines, s, j, r.value)
    decreases |lines| - j
  {
    if j == |lines| then None
    else if s.parent(lines[j]) then SectionWhere(lines, s, j + 1)
    else if s.outside(lines[j]) then None
    else if s.child(lines[j]) then Some(j)
    else SectionWhere(lines, s, j + 1)
  }

  /** The section scan goes past every line of `lines[lo..hi]`. */
  ghost predicate AllPassed(lines: seq<string>, s: Section, lo: nat, hi: nat)
    requires lo <= hi <= |lines|
    decreases hi - lo
  {
    lo == hi || (Passed(s, lines[lo]) && AllPassed(lines, s, lo + 1, hi))
  }

  /** The line the nested scan finds: the first child line in the block
      after the first parent line. */
  function NestedWhere(lines: seq<string>, s: Section): (r: Option<nat>)
    ensures r.Some? ==>
              var p := FirstWhere(lines, s.parent, 0);
              p.Some? && p.value < r.value < |lines| && s.child(lines[r.value])
              && AllPassed(lines, s, p.value + 1, r.value)
  {
    match FirstWhere(lines, s.parent, 0)
    case None => None
    case Some(p) => SectionWhere(lines, s, p + 1)
  }

  /** A passed line extends a passed stretch at its end. */
  lemma {:induction false} PassedStep(lines: seq<string>, s: Section, lo: nat, hi: nat)
    requires lo <= hi < |lines|
    requires AllPassed(lines, s, lo, hi) && Passed(s, lines[hi])
    ensures AllPassed(lines, s, lo, hi + 1)
    decreases hi - lo
  {
    if lo < hi {
      PassedStep(lines, s, lo + 1, hi);
    } else {
      assert AllPassed(lines, s, hi + 1, hi + 1);
    }
  }

  /** Whether a stretch is passed depends on its lines only. */
  lemma {:induction false} AllPassedSame(a: seq<string>, b: seq<string>, s: Section, lo: nat, hi: nat)
    requires lo <= hi <= |a| && hi <= |b| && a[..hi] == b[..hi]
    requires AllPassed(a, s, lo, hi)
    ensures AllPassed(b, s, lo, hi)
    decreases hi - lo
  {
    if lo < hi {
      assert a[lo] == a[..hi][lo] == b[..hi][lo] == b[lo];
      AllPassedSame(a, b, s, lo + 1, hi);
    }
  }

  /** The section scan goes past the lines it passes. */
  lemma {:induction false} SectionWhereSkip(lines: seq<string>, s: Section, from: nat, i: nat)
    requires from <= i <= |lines|
    requires AllPassed(lines, s, from, i)
    ensures SectionWhere(lines, s, from) == SectionWhere(lines, s, i)
    decreases i - from
  {
    if from < i {
      SectionWhereSkip(lines, s, from + 1, i);
    }
  }

  /** The loop of `update_glu_parameter` and `get_glu_parameter` for a
      `parent.child` key: it enters the section at a parent line, stops at
      the first line leaving it, and reports the first child line inside
      it. */
  method FindInSection(lines: seq<string>, s: Section) returns (found: Option<nat>)
    ensures found == NestedWhere(lines, s)
  {
    var inSection := false;
    ghost var p: nat := 0;
    var i := 0;
    while i < |lines|
      invariant 0 <= i <= |lines|
      invariant !inSection ==> NoneWhere(lines, s.parent, 0, i)
      invariant inSection ==> p < i && FirstWhere(lines, s.parent, 0) == Some(p)
                              && AllPassed(lines, s, p + 1, i)
    {
      var line := lines[i];
      if s.parent(line) {
        if !inSection {
          FirstWhereAt(lines, s.parent, 0, i);
          assert AllPassed(lines, s, i + 1, i + 1);
          p := i;
        } else {
          PassedStep(lines, s, p + 1, i);
        }
        inSection := true;
      } else if inSection {
        if s.outside(line) {
          SectionWhereSkip(lines, s, p + 1, i);
          return None;
        } else if s.child(line) {
          SectionWhereSkip(lines, s, p + 1, i);
          return Some(i);
        }
        PassedStep(lines, s, p + 1, i);
      } else {
        NoneWhereStep(lines, s.parent, 0, i);
      }
      i := i + 1;
    }
    if inSection {
      SectionWhereSkip(lines, s, p + 1, i);
    } else {
      FirstWhereSkip(lines, s.parent, 0, i);
    }
    found := None;
  }

  /** The flat loop: the first line that passes `m`. */
  method FindFirst(lines: seq<string>, m: LineTest) returns (found: Option<nat>)
    ensures found == FirstWhere(lines, m, 0)
  {
    var i := 0;
    while i < |lines|
      invariant 0 <= i <= |lines|
      invariant NoneWhere(lines, m, 0, i)
    {
      if m(lines[i]) {
        FirstWhereAt(lines, m, 0, i);
        return Some(i);
      }
      NoneWhereStep(lines, m, 0, i);
      i := i + 1;
    }
    FirstWhereSkip(lines, m, 0, i);
    found := None;
  }

  /** Rewriting a line after the section's child line keeps what the
      nested scan finds, when the new line passes the same tests. */
  lemma NestedAfterRewrite(lines: seq<string>, s: Section, i: nat, nl: string)
    requires NestedWhere(lines, s) == Some(i)
    requires s.child(nl) && !s.parent(nl) && !s.outside(nl)
    ensures i < |lines| && NestedWhere(lines[i := nl], s) == Some(i)
  {
    var lines' := lines[i := nl];
    var p := FirstWhere(lines, s.parent, 0).value;
    assert lines'[..i] == lines[..i];
    assert lines'[..p] == lines[..p];
    NoneWhereSame(lines, lines', s.parent, 0, p);
    assert lines'[p] == lines[p];
    FirstWhereAt(lines', s.parent, 0, p);
    AllPassedSame(lines, lines', s, p + 1, i);
    SectionWhereSkip(lines', s, p + 1, i);
  }

  /** Rewriting the first passing line with another that passes keeps it
      the first. */
  lemma FirstAfterRewrite(lines: seq<string>, m: LineTest, i: nat, nl: string)
    requires FirstWhere(lines, m, 0) == Some(i) && m(nl)
    ensures i < |lines| && FirstWhere(lines[i := nl], m, 0) == Some(i)
  {
    var lines' := lines[i := nl];
    assert lines'[..i] == lines[..i];
    NoneWhereSame(lines, lines', m, 0, i);
    FirstWhereAt(lines', m, 0, i);
  }

  /** Rewriting a line with one that passes `m` exactly when the old one
      did leaves the first pass where it was. */
  lemma {:induction false} FirstWhereSameTests(lines: seq<string>, m: LineTest, i: nat, nl: string, from: nat)
    requires i < |lines| && from <= |lines| && m(nl) == m(lines[i])
    ensures FirstWhere(lines[i := nl], m, from) == FirstWhere(lines, m, from)
    decreases |lines| - from
  {
    if from < |lines| {
      assert lines[i := nl][from] == if from == i then nl else lines[from];
      FirstWhereSameTests(lines, m, i, nl, from + 1);
    }
  }

  /** The same for the scan inside a section, when the new line passes
      each of the three tests exactly when the old one did. */
  lemma {:induction false} SectionWhereSameTests(lines: seq<string>, s: Section, i: nat, nl: string, j: nat)
    requires i < |lines| && j <= |lines|
    requires s.parent(nl) == s.parent(lines[i]) && s.outside(nl) == s.outside(lines[i])
             && s.child(nl) == s.child(lines[i])
    ensures SectionWhere(lines[i := nl], s, j) == SectionWhere(lines, s, j)
    decreases |lines| - j
  {
    if j < |lines| {
      assert lines[i := nl][j] == if j == i then nl else lines[j];
      SectionWhereSameTests(lines, s, i, nl, j + 1);
    }
  }

  /** ... and so for the nested scan. */
  lemma NestedWhereSameTests(lines: seq<string>, s: Section, i: nat, nl: string)
    requires i < |lines|
    requires s.parent(nl) == s.parent(lines[i]) && s.outside(nl) == s.outside(lines[i])
             && s.child(nl) == s.child(lines[i])
    ensures NestedWhere(lines[i := nl], s) == NestedWhere(lines, s)
  {
    FirstWhereSameTests(lines, s.parent, i, nl, 0);
    match FirstWhere(lines, s.parent, 0)
    case None =>
    case Some(p) => SectionWhereSameTests(lines, s, i, nl, p + 1);
  }
}
