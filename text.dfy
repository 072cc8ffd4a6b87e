/** The handful of Python string operations the tool relies on: `strip()`,
    `split()`, `split(sep)`, `split(sep, 1)`, `sep.join(...)`, `int(...)` and
    `str(int)`, `str.lower()` and the shell's `tr` to upper case, stated over
    `seq<char>`. Only ASCII whitespace, digits and letters are modelled. */
module Text {
  import opened Wrappers

  /** `str.isspace()` on ASCII: space, tab, newline, vertical tab, form feed,
      carriage return and the four separator controls 0x1C-0x1F. */
  predicate IsSpace(c: char) {
    c == ' ' || ('\t' <= c <= '\r') || ('\U{1C}' <= c <= '\U{1F}')
  }

  predicate IsDigit(c: char) { '0' <= c <= '9' }

  predicate AllDigits(s: string) { forall i :: 0 <= i < |s| ==> IsDigit(s[i]) }

  predicate NoSpace(s: string) { forall i :: 0 <= i < |s| ==> !IsSpace(s[i]) }

  // ---------------------------------------------------------------------------
  // ASCII case

  /** `str.lower()` on the letters `A`-`Z`. */
  function Lower(c: char): char {
    if 'A' <= c <= 'Z' then (c as int + 32) as char else c
  }

  function LowerText(s: string): (r: string)
    ensures |r| == |s| && forall i :: 0 <= i < |s| ==> r[i] == Lower(s[i])
  {
    seq(|s|, i requires 0 <= i < |s| => Lower(s[i]))
  }

  /** `tr '[:lower:]' '[:upper:]'` on the letters `a`-`z`. */
  function Upper(c: char): char {
    if 'a' <= c <= 'z' then (c as int - 32) as char else c
  }

  function UpperText(s: string): (r: string)
    ensures |r| == |s| && forall i :: 0 <= i < |s| ==> r[i] == Upper(s[i])
  {
    seq(|s|, i requires 0 <= i < |s| => Upper(s[i]))
  }

  lemma UpperTextTwice(s: string)
    ensures UpperText(UpperText(s)) == UpperText(s)
  {
  }

  /** A text whose letters are capitals is its own upper case. */
  lemma UpperTextOfCapitals(s: string)
    requires forall i :: 0 <= i < |s| ==> !('a' <= s[i] <= 'z')
    ensures UpperText(s) == s
  {
  }

  // ---------------------------------------------------------------------------
  // strip

  function LStrip(s: string): (r: string)
    ensures |r| <= |s| && r == s[|s| - |r|..]
    ensures r == [] || !IsSpace(r[0])
    ensures forall i :: 0 <= i < |s| - |r| ==> IsSpace(s[i])
  {
    if s != [] && IsSpace(s[0]) then LStrip(s[1..]) else s
  }

  function RStrip(s: string): (r: string)
    ensures |r| <= |s| && r == s[..|r|]
    ensures r == [] || !IsSpace(r[|r| - 1])
    ensures forall i :: |r| <= i < |s| ==> IsSpace(s[i])
  {
    if s != [] && IsSpace(s[|s| - 1]) then RStrip(s[..|s| - 1]) else s
  }

  /** `s.strip()`: whitespace removed from both ends and nowhere else. */
  function Strip(s: string): (r: string)
    ensures |r| <= |s|
    ensures r == [] || (!IsSpace(r[0]) && !IsSpace(r[|r| - 1]))
  {
    RStrip(LStrip(s))
  }

  lemma StripNoSpace(s: string)
    requires s == [] || (!IsSpace(s[0]) && !IsSpace(s[|s| - 1]))
    ensures Strip(s) == s
  {
  }

  // ---------------------------------------------------------------------------
  // searching

  /** Index of the first `c` in `s`. */
  function IndexOf(s: string, c: char): (r: Option<nat>)
    ensures r.None? <==> c !in s
    ensures r.Some? ==> r.value < |s| && s[r.value] == c && c !in s[..r.value]
  {
    if s == [] then None
    else if s[0] == c then Some(0)
    else match IndexOf(s[1..], c)
      case None => None
      case Some(i) => assert s[1..][..i] == s[1..i + 1]; Some(i + 1)
  }

  predicate StartsWith(s: string, prefix: string) {
    |prefix| <= |s| && s[..|prefix|] == prefix
  }

  /** `sub in s` for strings. */
  predicate Contains(s: string, sub: string) {
    exists i :: 0 <= i <= |s| && StartsWith(s[i..], sub)
  }

  // ---------------------------------------------------------------------------
  // split / join

  /** `s.split(sep, 1)` when `sep in s`: the text before the first `sep` and
      the text after it. `None` when `s` has no `sep`. */
  function SplitOnce(s: string, sep: char): (r: Option<(string, string)>)
    ensures r.None? <==> sep !in s
    ensures r.Some? ==> sep !in r.value.0 && s == r.value.0 + [sep] + r.value.1
  {
    match IndexOf(s, sep)
    case None => None
    case Some(i) => Some((s[..i], s[i + 1..]))
  }

  /** `s.split(sep)` for a one-character separator. */
  function Split(s: string, sep: char): (r: seq<string>)
    ensures |r| >= 1
    ensures forall k :: 0 <= k < |r| ==> sep !in r[k]
    decreases |s|
  {
    match IndexOf(s, sep)
    case None => [s]
    case Some(i) => [s[..i]] + Split(s[i + 1..], sep)
  }

  /** `sep.join(parts)` for a one-character separator. */
  function Join(parts: seq<string>, sep: char): string {
    if |parts| == 0 then []
    else if |parts| == 1 then parts[0]
    else parts[0] + [sep] + Join(parts[1..], sep)
  }

  /** `sep.join(parts)` for a separator of any length. */
  function JoinWith(parts: seq<string>, sep: string): string {
    if |parts| == 0 then []
    else if |parts| == 1 then parts[0]
    else parts[0] + sep + JoinWith(parts[1..], sep)
  }

  lemma {:induction false} JoinSplit(s: string, sep: char)
    ensures Join(Split(s, sep), sep) == s
    decreases |s|
  {
    match IndexOf(s, sep)
    case None =>
    case Some(i) =>
      var rest := Split(s[i + 1..], sep);
      JoinSplit(s[i + 1..], sep);
      assert Split(s, sep) == [s[..i]] + rest;
      assert ([s[..i]] + rest)[1..] == rest;
      assert s == s[..i] + [sep] + s[i + 1..];
  }

  lemma {:induction false} SplitJoin(parts: seq<string>, sep: char)
    requires |parts| >= 1
    requires forall k :: 0 <= k < |parts| ==> sep !in parts[k]
    ensures Split(Join(parts, sep), sep) == parts
  {
    if |parts| == 1 {
      assert IndexOf(parts[0], sep).None?;
    } else {
      var j := Join(parts[1..], sep);
      var s := parts[0] + [sep] + j;
      assert s[..|parts[0]|] == parts[0];
      assert s[|parts[0]| + 1..] == j;
      assert IndexOf(s, sep) == Some(|parts[0]|) by {
        assert s[|parts[0]|] == sep;
        assert forall k :: 0 <= k < |parts[0]| ==> s[k] == parts[0][k];
        IndexOfFirst(s, sep, |parts[0]|);
      }
      SplitJoin(parts[1..], sep);
    }
  }

  lemma {:induction false} IndexOfFirst(s: string, c: char, i: nat)
    requires i < |s| && s[i] == c
    requires forall k :: 0 <= k < i ==> s[k] != c
    ensures IndexOf(s, c) == Some(i)
  {
    if i > 0 {
      IndexOfFirst(s[1..], c, i - 1);
    }
  }

  /** Length of the leading run of non-whitespace characters. */
  function WordLen(s: string): (n: nat)
    ensures n <= |s| && NoSpace(s[..n])
    ensures n < |s| ==> IsSpace(s[n])
  {
    if s == [] || IsSpace(s[0]) then 0 else 1 + WordLen(s[1..])
  }

  /** `s.split()` with no argument: the maximal runs of non-whitespace. */
  function SplitWs(s: string): seq<string>
    decreases |s|
  {
    var t := LStrip(s);
    if t == [] then []
    else
      var n := WordLen(t);
      [t[..n]] + SplitWs(t[n..])
  }

  /** `' '.join(words)` followed by `.split()` gives the words back when none
      of them is empty or contains whitespace. */
  lemma {:induction false} SplitWsJoin(words: seq<string>)
    requires forall k :: 0 <= k < |words| ==> words[k] != [] && NoSpace(words[k])
    ensures SplitWs(Join(words, ' ')) == words
  {
    if |words| == 1 {
      SplitWsJoinOne(words);
    } else if |words| > 1 {
      SplitWsJoin(words[1..]);
      SplitWsJoinStep(words);
    }
  }

  lemma SplitWsJoinOne(words: seq<string>)
    requires |words| == 1 && words[0] != [] && NoSpace(words[0])
    ensures SplitWs(Join(words, ' ')) == words
  {
    assert Join(words, ' ') == words[0];
    SplitWsOne(words[0]);
    assert [words[0]] == words;
  }

  lemma SplitWsJoinStep(words: seq<string>)
    requires |words| > 1 && words[0] != [] && NoSpace(words[0])
    requires SplitWs(Join(words[1..], ' ')) == words[1..]
    ensures SplitWs(Join(words, ' ')) == words
  {
    JoinCons(words, ' ');
    SplitWsWordSpace(words[0], Join(words[1..], ' '));
    assert [words[0]] + words[1..] == words;
  }

  /** A join of non-empty words starts with the first word's first
      character and ends with the last word's last character. */
  lemma {:induction false} JoinEnds(ns: seq<string>, sep: char)
    requires ns != [] && forall i :: 0 <= i < |ns| ==> ns[i] != [] && NoSpace(ns[i])
    ensures Join(ns, sep) != []
    ensures Join(ns, sep)[0] == ns[0][0]
    ensures Join(ns, sep)[|Join(ns, sep)| - 1] == ns[|ns| - 1][|ns[|ns| - 1]| - 1]
  {
    if |ns| > 1 {
      JoinEnds(ns[1..], sep);
      JoinCons(ns, sep);
    }
  }

  lemma JoinCons(parts: seq<string>, sep: char)
    requires |parts| > 1
    ensures Join(parts, sep) == parts[0] + ([sep] + Join(parts[1..], sep))
  {
  }

  lemma SplitWsOne(w: string)
    requires w != [] && NoSpace(w)
    ensures SplitWs(w) == [w]
  {
    SplitWsCons(w, []);
    assert w + [] == w;
    assert SplitWs([]) == [];
  }

  lemma SplitWsWordSpace(w: string, rest: string)
    requires w != [] && NoSpace(w)
    ensures SplitWs(w + ([' '] + rest)) == [w] + SplitWs(rest)
  {
    SplitWsCons(w, [' '] + rest);
    SplitWsSkipSpace(rest);
  }

  /** A word followed by whitespace (or nothing) splits off as the first token. */
  lemma SplitWsCons(w: string, rest: string)
    requires w != [] && NoSpace(w) && (rest == [] || IsSpace(rest[0]))
    ensures SplitWs(w + rest) == [w] + SplitWs(rest)
  {
    var s := w + rest;
    assert s[0] == w[0];
    assert LStrip(s) == s;
    assert s[..|w|] == w;
    WordLenOf(s, |w|);
    assert s[|w|..] == rest;
  }

  lemma WordLenOf(s: string, n: nat)
    requires n <= |s| && NoSpace(s[..n]) && (n < |s| ==> IsSpace(s[n]))
    ensures WordLen(s) == n
    decreases n
  {
    if n > 0 {
      assert s[1..][..n - 1] == s[1..n];
      WordLenOf(s[1..], n - 1);
    }
  }

  /** The words of `s.split()` are non-empty and hold no whitespace. */
  lemma {:induction false} SplitWsWords(s: string)
    ensures forall k :: 0 <= k < |SplitWs(s)| ==> SplitWs(s)[k] != [] && NoSpace(SplitWs(s)[k])
    decreases |s|
  {
    var t := LStrip(s);
    if t != [] {
      var n := WordLen(t);
      SplitWsWords(t[n..]);
      var r := SplitWs(s);
      assert r == [t[..n]] + SplitWs(t[n..]);
      forall k | 0 <= k < |r| ensures r[k] != [] && NoSpace(r[k]) {
        if k > 0 { assert r[k] == SplitWs(t[n..])[k - 1]; }
      }
    }
  }

  lemma SplitWsSkipSpace(s: string)
    ensures SplitWs([' '] + s) == SplitWs(s)
  {
    assert ([' '] + s)[1..] == s;
  }

  // ---------------------------------------------------------------------------
  // integers

  function DigitValue(c: char): nat
    requires IsDigit(c)
  {
    (c as int) - ('0' as int)
  }

  function DigitChar(d: nat): (c: char)
    requires d < 10
    ensures IsDigit(c) && DigitValue(c) == d
  {
    (('0' as int) + d) as char
  }

  /** The value of a decimal digit string (0 for the empty string). */
  function DigitsValue(s: string): nat
    requires AllDigits(s)
  {
    if s == [] then 0 else 10 * DigitsValue(s[..|s| - 1]) + DigitValue(s[|s| - 1])
  }

  /** `str(n)` for a natural number: the shortest decimal numeral. */
  function NatToString(n: nat): (s: string)
    ensures s != [] && AllDigits(s)
  {
    if n < 10 then [DigitChar(n)] else NatToString(n / 10) + [DigitChar(n % 10)]
  }

  /** `str(n)` for any integer. */
  function IntToString(n: int): (s: string)
    ensures s != [] && NoSpace(s)
  {
    if n < 0 then ['-'] + NatToString(-n) else NatToString(n)
  }

  /** `int(s)` on a string: surrounding whitespace, an optional sign and at
      least one decimal digit. `None` stands for the ValueError. Python also
      accepts `_` between digits; that form is not modelled. */
  function ParseInt(s: string): (r: Option<int>)
    ensures r.Some? ==> Strip(s) != []
  {
    var t := Strip(s);
    if t == [] then None
    else
      var neg := t[0] == '-';
      var body := if t[0] == '-' || t[0] == '+' then t[1..] else t;
      if body == [] || !AllDigits(body) then None
      else
        var v: int := DigitsValue(body);
        Some(if neg then -v else v)
  }

  lemma {:induction false} NatToStringValue(n: nat)
    ensures DigitsValue(NatToString(n)) == n
  {
    if n >= 10 {
      var s := NatToString(n);
      NatToStringValue(n / 10);
      assert s[..|s| - 1] == NatToString(n / 10);
    }
  }

  /** `int(str(n)) == n`. */
  lemma ParseIntToString(n: int)
    ensures ParseInt(IntToString(n)) == Some(n)
  {
    if n < 0 {
      ParseNegative(-n);
    } else {
      ParseNatural(n);
    }
  }

  lemma ParseNatural(n: nat)
    ensures ParseInt(NatToString(n)) == Some(n)
  {
    var s := NatToString(n);
    StripNoSpace(s);
    NatToStringValue(n);
    assert s[0] != '-' && s[0] != '+';
  }

  lemma ParseNegative(n: nat)
    requires n > 0
    ensures ParseInt(['-'] + NatToString(n)) == Some(-(n as int))
  {
    var t := NatToString(n);
    StripNoSpace(['-'] + t);
    NatToStringValue(n);
    DropHead('-', t);
    ParseSigned('-', t);
  }

  /** A numeral with a minus sign reads as the negated digits. */
  lemma ParseSigned(c: char, t: string)
    requires c == '-' && t != [] && AllDigits(t)
    ensures ParseInt([c] + t) == Some(-(DigitsValue(t) as int))
  {
    var s := [c] + t;
    assert !IsSpace(s[|s| - 1]);
    StripNoSpace(s);
    DropHead(c, t);
  }

  lemma DropHead(c: char, t: string)
    ensures ([c] + t)[0] == c && ([c] + t)[1..] == t
  {
  }
}
