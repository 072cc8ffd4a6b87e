/** The `zv-script` command (`cli/commands/zv.py`): the job parameters are
    the defaults overridden by `key=value` tokens; the WIT parameters are
    dotted `SECTION.KEY=value` tokens built into a nested dict, checked for
    the required entries, with `Propagator.Seed` moved to `Propagator_0`,
    and refused when an entry is not one the WIT input uses. */
module Zv {
  import opened Wrappers
  import opened Text
  import opened PyDict
  import opened Nested
  import opened Params
  import opened Sqlite

  // ---------------------------------------------------------------------------
  // Job parameters

  const RequiredJob: seq<string> := ["mail_user", "time_limit", "nodes"]

  /** `DEFAULT_JOB_PARAMS`. */
  const JobDefaultItems: seq<(string, string)> := [
    ("account", "m2986_g"), ("constraint", "gpu"), ("queue", "regular"),
    ("time_limit", "06:00:00"), ("nodes", "1"), ("gpus", "4"),
    ("gpu_bind", "none"), ("ranks", "4"), ("ogeom", "1,1,1,4")]

  function Pairs(items: seq<(string, string)>): (d: Dict<string>)
    ensures d.Valid()
    ensures forall i :: 0 <= i < |items| ==> items[i].0 in d.m
    ensures forall k :: k in d.m ==> exists i :: 0 <= i < |items| && items[i].0 == k
  {
    if items == [] then Empty()
    else
      var d := Pairs(items[..|items| - 1]);
      assert forall i :: 0 <= i < |items| - 1 ==> items[..|items| - 1][i] == items[i];
      Set(d, items[|items| - 1].0, items[|items| - 1].1)
  }

  function JobDefaults(): (d: Dict<string>)
    ensures d.Valid()
  {
    Pairs(JobDefaultItems)
  }

  /** The parsing loop run from `d`: each token holding `=` assigns its key,
      and no key of `d` is dropped. */
  function Apply(d: Dict<string>, tokens: seq<string>): (r: Dict<string>)
    requires d.Valid()
    ensures r.Valid()
    ensures forall k :: k in d.m ==> k in r.m
  {
    if tokens == [] then d else AddToken(Apply(d, tokens[..|tokens| - 1]), tokens[|tokens| - 1])
  }

  /** Running the loop from `d` is `d` overridden by what the tokens alone
      parse to. */
  lemma {:induction false} ApplyMap(d: Dict<string>, tokens: seq<string>)
    requires d.Valid()
    ensures Apply(d, tokens).m == d.m + Parsed(tokens).m
  {
    if tokens != [] {
      var n := |tokens| - 1;
      ApplyMap(d, tokens[..n]);
      AddTokenOver(Apply(d, tokens[..n]), Parsed(tokens[..n]), d.m, tokens[n]);
      assert Parsed(tokens) == AddToken(Parsed(tokens[..n]), tokens[n]);
    }
  }

  /** One more token assigns the same key over a dict and over its override. */
  lemma AddTokenOver(a: Dict<string>, p: Dict<string>, base: map<string, string>, t: string)
    requires a.Valid() && p.Valid() && a.m == base + p.m
    ensures AddToken(a, t).m == base + AddToken(p, t).m
  {
    match Kv(t)
    case None =>
    case Some((k, v)) =>
      OverrideAssign(base, p.m, k, v);
  }

  lemma OverrideAssign(base: map<string, string>, m: map<string, string>, k: string, v: string)
    ensures (base + m)[k := v] == base + m[k := v]
  {
  }

  /** The required job keys absent from the job dict, in order. */
  function MissingJob(job: Dict<string>): (r: seq<string>)
  {
    MissingFrom(RequiredJob, job.m.Keys)
  }

  /** `[k for k in ks if k not in present]`. */
  function MissingFrom(ks: seq<string>, present: set<string>): (r: seq<string>)
    ensures forall x :: x in r <==> x in ks && x !in present
  {
    if ks == [] then []
    else if ks[0] in present then MissingFrom(ks[1..], present)
    else [ks[0]] + MissingFrom(ks[1..], present)
  }

  lemma PairsLacks(items: seq<(string, string)>, k: string)
    requires forall i :: 0 <= i < |items| ==> items[i].0 != k
    ensures k !in Pairs(items).m
  {
  }

  lemma NoMailDefault()
    ensures forall i :: 0 <= i < |JobDefaultItems| ==> JobDefaultItems[i].0 != "mail_user"
  {
    forall i | 0 <= i < |JobDefaultItems| ensures JobDefaultItems[i].0 != "mail_user" {
      assert JobDefaultItems[i].0[0] != 'm';
    }
  }

  /** Of the required keys the defaults hold `time_limit` and `nodes`
      but not `mail_user`. */
  lemma DefaultsHold()
    ensures "time_limit" in JobDefaults().m && "nodes" in JobDefaults().m
    ensures "mail_user" !in JobDefaults().m
  {
    assert JobDefaultItems[3].0 == "time_limit" && JobDefaultItems[4].0 == "nodes";
    NoMailDefault();
    PairsLacks(JobDefaultItems, "mail_user");
  }

  /** With `time_limit` and `nodes` present, the missing list is empty
      exactly when `mail_user` is present too. */
  lemma MissingJobEmpty(keys: set<string>)
    requires "time_limit" in keys && "nodes" in keys
    ensures MissingFrom(RequiredJob, keys) == [] <==> "mail_user" in keys
  {
    var r1 := RequiredJob[1..];
    var r2 := r1[1..];
    assert RequiredJob[0] == "mail_user" && r1[0] == "time_limit" && r2[0] == "nodes" && r2[1..] == [];
    assert MissingFrom(r2, keys) == [];
    assert MissingFrom(r1, keys) == [];
  }

  lemma MissingOnlyMail(d: Dict<string>, tokens: seq<string>)
    requires d.Valid() && "time_limit" in d.m && "nodes" in d.m && "mail_user" !in d.m
    ensures MissingJob(Apply(d, tokens)) == [] <==>
              exists i :: 0 <= i < |tokens| && HasKey(tokens[i], "mail_user")
  {
    var job := Apply(d, tokens);
    ApplyMap(d, tokens);
    ParsedHas(tokens, "mail_user");
    MissingJobEmpty(job.m.Keys);
  }

  /** Only `mail_user` can be missing, and it is exactly when no token
      sets it. */
  lemma JobMissing(tokens: seq<string>)
    ensures MissingJob(Apply(JobDefaults(), tokens)) == [] <==>
              exists i :: 0 <= i < |tokens| && HasKey(tokens[i], "mail_user")
  {
    var d := JobDefaults();
    DefaultsHold();
    assert "time_limit" in d.m && "nodes" in d.m && "mail_user" !in d.m;
    MissingOnlyMail(d, tokens);
  }

  /** The job-parameter loop of `do_zv` over the merged `-j` string. */
  method ParseJob(merged: string) returns (job: Dict<string>)
    ensures job == Apply(JobDefaults(), SplitWs(merged))
  {
    job := ApplyTokens(JobDefaults(), SplitWs(merged));
  }

  /** The loop itself: each token holding `=` assigns its key onto `d`. */
  method ApplyTokens(d: Dict<string>, tokens: seq<string>) returns (job: Dict<string>)
    requires d.Valid()
    ensures job == Apply(d, tokens)
  {
    job := d;
    var i := 0;
    while i < |tokens|
      invariant 0 <= i <= |tokens|
      invariant job == Apply(d, tokens[..i])
    {
      assert tokens[..i + 1][..i] == tokens[..i];
      assert Apply(d, tokens[..i + 1]) == AddToken(job, tokens[i]);
      if '=' in tokens[i] {
        var kv := Kv(tokens[i]).value;
        job := Set(job, kv.0, kv.1);
      }
      i := i + 1;
    }
    assert tokens[..i] == tokens;
  }

  // ---------------------------------------------------------------------------
  // Dotted WIT keys

  /** `section_alias.get(s, s)`: shorthand and spaced section names map
      to the underscore form; any other name is kept. */
  function Alias(s: string): string {
    if s == "RNG" then "Random_number_generator"
    else if s == "Random number generator" then "Random_number_generator"
    else if s == "Run name" then "Run_name"
    else if s == "Exact Deflation" then "Exact_Deflation"
    else if s == "Boundary conditions" then "Boundary_conditions"
    else if s == "Propagator0" then "Propagator_0"
    else if s == "Solver0" then "Solver_0"
    else if s == "Lattice parameters" then "Lattice_parameters"
    else s
  }

  /** `normalize_keypath`: the key split at every `.`, its first part
      replaced by its alias. */
  function KeyPath(key: string): (r: seq<string>)
    ensures |r| == |Split(key, '.')| >= 1
    ensures r[0] == Alias(Split(key, '.')[0]) && r[1..] == Split(key, '.')[1..]
  {
    var parts := Split(key, '.');
    [Alias(parts[0])] + parts[1..]
  }

  /** The walk of the insertion loop: each part but the last names a dict,
      made a fresh `{}` when absent or not a dict; the last part takes `v`. */
  function SetPath(d: Dict<Val>, path: seq<string>, v: Val): (r: Dict<Val>)
    requires GoodDict(d) && Good(v) && |path| >= 1
    ensures GoodDict(r)
    ensures path[0] in r.m && forall k :: k in r.m <==> k in d.m || k == path[0]
    decreases |path|
  {
    if |path| == 1 then Set(d, path[0], v)
    else
      var child := if path[0] in d.m && d.m[path[0]].Map? then d.m[path[0]].d else Empty();
      assert path[0] in d.m ==> Good(d.m[path[0]]);
      Set(d, path[0], Map(SetPath(child, path[1..], v)))
  }

  /** The inserted value is found at its path. */
  lemma {:induction false} SetPathFound(d: Dict<Val>, path: seq<string>, v: Val)
    requires GoodDict(d) && Good(v) && |path| >= 1
    ensures Lookup(SetPath(d, path, v), path) == Some(v)
    decreases |path|
  {
    if |path| > 1 {
      var child := if path[0] in d.m && d.m[path[0]].Map? then d.m[path[0]].d else Empty();
      assert path[0] in d.m ==> Good(d.m[path[0]]);
      SetPathFound(child, path[1..], v);
    }
  }

  /** A path that leaves the inserted one at a key where the walk went
      through existing dicts reads as before. */
  lemma {:induction false} SetPathElsewhere(d: Dict<Val>, path: seq<string>, v: Val, q: seq<string>, j: nat)
    requires GoodDict(d) && Good(v) && |path| >= 1
    requires j < |path| && j < |q| && q[..j] == path[..j] && q[j] != path[j]
    requires forall i :: 1 <= i <= j ==> Lookup(d, path[..i]).Some? && Lookup(d, path[..i]).value.Map?
    ensures Lookup(SetPath(d, path, v), q) == Lookup(d, q)
    decreases |path|
  {
    if j == 0 {
      SetPathOtherKey(d, path, v, q);
    } else {
      ThroughChild(d, path, j);
      var child := d.m[path[0]].d;
      assert q[1..][..j - 1] == path[1..][..j - 1];
      SetPathElsewhere(child, path[1..], v, q[1..], j - 1);
      SetPathThrough(d, path, v, q);
    }
  }

  /** A path whose first key is not the inserted one's reads as before. */
  lemma SetPathOtherKey(d: Dict<Val>, path: seq<string>, v: Val, q: seq<string>)
    requires GoodDict(d) && Good(v) && |path| >= 1 && |q| >= 1 && q[0] != path[0]
    ensures Lookup(SetPath(d, path, v), q) == Lookup(d, q)
  {
    var r := SetPath(d, path, v);
    var x := if |path| == 1 then v else Map(SetPath(if path[0] in d.m && d.m[path[0]].Map? then d.m[path[0]].d else Empty(), path[1..], v));
    assert r.m == d.m[path[0] := x];
    assert Get(r, q[0]) == Get(d, q[0]);
  }

  /** The walk's first step goes through an existing dict, which is the
      start of the rest of the walk. */
  lemma ThroughChild(d: Dict<Val>, path: seq<string>, j: nat)
    requires GoodDict(d) && 0 < j < |path|
    requires forall i :: 1 <= i <= j ==> Lookup(d, path[..i]).Some? && Lookup(d, path[..i]).value.Map?
    ensures path[0] in d.m && d.m[path[0]].Map? && GoodDict(d.m[path[0]].d)
    ensures forall i :: 1 <= i <= j - 1 ==>
              Lookup(d.m[path[0]].d, path[1..][..i]).Some? && Lookup(d.m[path[0]].d, path[1..][..i]).value.Map?
  {
    assert Lookup(d, path[..1]).Some? && Lookup(d, path[..1]).value.Map?;
    assert path[..1][0] == path[0];
    GoodChild(d, path[0]);
    forall i | 1 <= i <= j - 1
      ensures Lookup(d.m[path[0]].d, path[1..][..i]).Some? && Lookup(d.m[path[0]].d, path[1..][..i]).value.Map?
    {
      assert path[..i + 1][0] == path[0] && path[..i + 1][1..] == path[1..][..i];
    }
  }

  /** Through an existing dict, the lookup after the insertion is the
      lookup in the child after the rest of the insertion. */
  lemma SetPathThrough(d: Dict<Val>, path: seq<string>, v: Val, q: seq<string>)
    requires GoodDict(d) && Good(v) && |path| >= 2 && |q| >= 2 && q[0] == path[0]
    requires path[0] in d.m && d.m[path[0]].Map?
    ensures GoodDict(d.m[path[0]].d)
    ensures Lookup(SetPath(d, path, v), q) == Lookup(SetPath(d.m[path[0]].d, path[1..], v), q[1..])
    ensures Lookup(d, q) == Lookup(d.m[path[0]].d, q[1..])
  {
    GoodChild(d, path[0]);
  }

  /** A non-dict met on the way is dropped for a fresh dict holding only
      the new entry. */
  lemma SetPathReplaces(d: Dict<Val>, path: seq<string>, v: Val)
    requires GoodDict(d) && Good(v) && |path| >= 2
    requires path[0] in d.m && !d.m[path[0]].Map?
    ensures SetPath(d, path, v).m[path[0]] == Map(SetPath(Empty(), path[1..], v))
  {
  }

  // ---------------------------------------------------------------------------
  // ast.literal_eval, falling back to the text

  /** The digits after an optional sign. */
  function Unsigned(raw: string): string {
    if raw != [] && (raw[0] == '-' || raw[0] == '+') then raw[1..] else raw
  }

  /** A decimal integer literal: an optional sign, then digits with no
      leading zero unless every digit is a zero. */
  predicate IntLiteral(raw: string) {
    var body := Unsigned(raw);
    body != [] && AllDigits(body) && (body[0] != '0' || forall i :: 0 <= i < |body| ==> body[i] == '0')
  }

  function IntLiteralValue(raw: string): int
    requires IntLiteral(raw)
  {
    var v: int := DigitsValue(Unsigned(raw));
    if raw[0] == '-' then -v else v
  }

  predicate QuoteChar(c: char) { c == '\'' || c == '"' }

  /** A string literal in one kind of quote, holding neither that quote nor
      a backslash. */
  predicate StringLiteral(raw: string) {
    |raw| >= 2 && QuoteChar(raw[0]) && raw[|raw| - 1] == raw[0]
    && forall i :: 0 < i < |raw| - 1 ==> raw[i] != raw[0] && raw[i] != '\\'
  }

  /** `ast.literal_eval(raw)`, or `raw` itself when that raises: the
      constants `True`, `False` and `None`, integers (kept as `str` prints
      them) and quoted strings (without their quotes). */
  function LiteralEval(raw: string): (v: Val)
    ensures v.Str? || v.Scalar?
  {
    if raw == "True" || raw == "False" || raw == "None" then Scalar(raw)
    else if IntLiteral(raw) then Scalar(IntToString(IntLiteralValue(raw)))
    else if StringLiteral(raw) then Str(raw[1..|raw| - 1])
    else Str(raw)
  }

  /** The leading digit of `str(n)` is a zero only for zero itself. */
  lemma {:induction false} NatToStringHead(n: nat)
    ensures NatToString(n)[0] == '0' <==> n == 0
  {
    if n >= 10 {
      NatToStringHead(n / 10);
    }
  }

  /** An integer printed by `str` evaluates back to itself. */
  lemma LiteralOfInt(n: int)
    ensures LiteralEval(IntToString(n)) == Scalar(IntToString(n))
  {
    var s := IntToString(n);
    var m: nat := if n < 0 then -n else n;
    var body := NatToString(m);
    assert Unsigned(s) == body;
    NatToStringHead(m);
    if m != 0 {
      assert body[0] != '0';
    } else {
      assert body == "0";
    }
    NatToStringValue(m);
    assert IntLiteral(s);
    assert IntLiteralValue(s) == n;
  }

  /** A quoted text without its quote or a backslash evaluates to the text. */
  lemma LiteralOfQuoted(t: string, q: char)
    requires QuoteChar(q)
    requires forall i :: 0 <= i < |t| ==> t[i] != q && t[i] != '\\'
    ensures LiteralEval([q] + t + [q]) == Str(t)
  {
    var raw := [q] + t + [q];
    assert raw[0] == q && raw[1..|raw| - 1] == t;
    assert !IsDigit(raw[0]) && raw[0] != '-' && raw[0] != '+';
    assert raw[0] != "True"[0] && raw[0] != "False"[0] && raw[0] != "None"[0];
    assert StringLiteral(raw);
  }

  /** Text starting with neither a digit, a sign nor a quote, and naming
      none of the three constants, is kept as it is. */
  lemma LiteralKeepsText(raw: string)
    requires raw != [] ==> !IsDigit(raw[0]) && raw[0] != '-' && raw[0] != '+' && !QuoteChar(raw[0])
    requires raw != "True" && raw != "False" && raw != "None"
    ensures LiteralEval(raw) == Str(raw)
  {
  }

  /** One token's insertion: its key's normalised path takes the value
      the text evaluates to. */
  function Insert(d: Dict<Val>, key: string, raw: string): (r: Dict<Val>)
    requires GoodDict(d)
    ensures GoodDict(r)
  {
    SetPath(d, KeyPath(key), LiteralEval(raw))
  }

  const BadWit := "ERROR: bad WIT-param "

  /** `not tok.strip()`: the token is whitespace only. */
  predicate Blank(tok: string) {
    forall i :: 0 <= i < |tok| ==> IsSpace(tok[i])
  }

  lemma BlankStrip(tok: string)
    ensures Blank(tok) <==> Strip(tok) == ""
  {
  }

  /** A token the loop refuses: not blank, and without `=`. */
  predicate BadToken(tok: string) {
    !Blank(tok) && '=' !in tok
  }

  /** The index of the first refused token. */
  function FirstRefused(tokens: seq<string>): (r: Option<nat>)
    ensures r.None? <==> forall i :: 0 <= i < |tokens| ==> !BadToken(tokens[i])
    ensures r.Some? ==> r.value < |tokens| && BadToken(tokens[r.value])
                        && forall i :: 0 <= i < r.value ==> !BadToken(tokens[i])
  {
    if tokens == [] then None
    else if BadToken(tokens[0]) then Some(0)
    else match FirstRefused(tokens[1..])
      case None => None
      case Some(i) => Some(i + 1)
  }

  /** The insertions of the non-blank tokens, in order (every token holding
      `=`). */
  function Inserted(tokens: seq<string>): (r: Dict<Val>)
    ensures GoodDict(r)
  {
    if tokens == [] then Empty()
    else
      var before := Inserted(tokens[..|tokens| - 1]);
      var tok := tokens[|tokens| - 1];
      if Blank(tok) || '=' !in tok then before
      else Insert(before, Kv(tok).value.0, Kv(tok).value.1)
  }

  /** What the WIT loop leaves for `tokens`: an error naming the first
      refused token, or the dict of all insertions in order. */
  function WitDict(tokens: seq<string>): (r: Result<Dict<Val>>)
    ensures r.Ok? ==> GoodDict(r.value)
  {
    match FirstRefused(tokens)
    case Some(i) => Err(BadWit + tokens[i])
    case None => Ok(Inserted(tokens))
  }

  /** The loop fails exactly when some token is refused, and reports the
      first one. */
  lemma WitDictErr(tokens: seq<string>)
    ensures WitDict(tokens).Err? <==> exists i :: 0 <= i < |tokens| && BadToken(tokens[i])
    ensures WitDict(tokens).Err? ==>
              exists i :: 0 <= i < |tokens| && BadToken(tokens[i]) && WitDict(tokens).msg == BadWit + tokens[i]
                          && forall j :: 0 <= j < i ==> !BadToken(tokens[j])
  {
    if FirstRefused(tokens).Some? {
      var i := FirstRefused(tokens).value;
      assert BadToken(tokens[i]);
    }
  }

  /** The last token wins: its value is found at its normalised path. */
  lemma LastTokenWins(tokens: seq<string>)
    requires tokens != [] && WitDict(tokens).Ok?
    requires !Blank(tokens[|tokens| - 1])
    ensures var kv := Kv(tokens[|tokens| - 1]).value;
            Lookup(WitDict(tokens).value, KeyPath(kv.0)) == Some(LiteralEval(kv.1))
  {
    var n := |tokens| - 1;
    assert !BadToken(tokens[n]);
    var kv := Kv(tokens[n]).value;
    SetPathFound(Inserted(tokens[..n]), KeyPath(kv.0), LiteralEval(kv.1));
  }

  lemma RefusedSnoc(tokens: seq<string>, i: nat)
    requires i < |tokens| && FirstRefused(tokens[..i]).None? && !BadToken(tokens[i])
    ensures FirstRefused(tokens[..i + 1]).None?
  {
    assert forall j :: 0 <= j < i ==> tokens[..i + 1][j] == tokens[..i][j];
  }

  lemma {:induction false} RefusedAt(tokens: seq<string>, i: nat)
    requires i < |tokens| && BadToken(tokens[i])
    requires FirstRefused(tokens[..i]).None?
    ensures FirstRefused(tokens) == Some(i)
  {
    assert forall j :: 0 <= j < i ==> tokens[..i][j] == tokens[j];
  }

  lemma InsertedStep(tokens: seq<string>, i: nat)
    requires i < |tokens|
    ensures var tok := tokens[i];
            Inserted(tokens[..i + 1])
              == if Blank(tok) || '=' !in tok then Inserted(tokens[..i])
                 else Insert(Inserted(tokens[..i]), Kv(tok).value.0, Kv(tok).value.1)
  {
    assert tokens[..i + 1][..i] == tokens[..i];
  }

  /** The WIT-parameter loop of `do_zv` over the merged `-w` string. */
  method ParseWit(merged: string) returns (r: Result<Dict<Val>>)
    ensures r == WitDict(SplitWs(merged))
  {
    var tokens := SplitWs(merged);
    var wdict := Empty();
    var i := 0;
    while i < |tokens|
      invariant 0 <= i <= |tokens|
      invariant wdict == Inserted(tokens[..i])
      invariant FirstRefused(tokens[..i]).None?
    {
      var tok := tokens[i];
      InsertedStep(tokens, i);
      if !Blank(tok) {
        if '=' !in tok {
          RefusedAt(tokens, i);
          return Err(BadWit + tok);
        }
        var kv := Kv(tok).value;
        wdict := Insert(wdict, kv.0, kv.1);
      }
      RefusedSnoc(tokens, i);
      i := i + 1;
    }
    assert tokens[..i] == tokens;
    r := Ok(wdict);
  }

  // ---------------------------------------------------------------------------
  // Leaf keys

  /** `f"{prefix}.{k}" if prefix else k`. */
  function FullKey(prefix: string, k: string): string {
    if prefix == "" then k else prefix + "." + k
  }

  /** The dotted name the recursive helpers give the value at `path` when
      they start from `prefix`. */
  function Dotted(prefix: string, path: seq<string>): string
    decreases |path|
  {
    if path == [] then prefix else Dotted(FullKey(prefix, path[0]), path[1..])
  }

  function Prefixed(k: string, ps: seq<seq<string>>): (r: seq<seq<string>>)
    ensures |r| == |ps| && forall i :: 0 <= i < |ps| ==> r[i] == [k] + ps[i]
  {
    seq(|ps|, i requires 0 <= i < |ps| => [k] + ps[i])
  }

  lemma PrefixedIn(k: string, ps: seq<seq<string>>, p: seq<string>)
    ensures p in Prefixed(k, ps) <==> |p| >= 1 && p[0] == k && p[1..] in ps
  {
    var r := Prefixed(k, ps);
    if p in r {
      var i :| 0 <= i < |r| && r[i] == p;
      assert p[1..] == ps[i];
    }
    if |p| >= 1 && p[0] == k && p[1..] in ps {
      var i :| 0 <= i < |ps| && ps[i] == p[1..];
      assert r[i] == p;
    }
  }

  /** The paths of the non-dict values below the keys `ks` of `d`, in the
      order the recursive walks of `do_zv` visit them. */
  function LeafPathsFrom(d: Dict<Val>, ks: seq<string>): (r: seq<seq<string>>)
    decreases d, |ks|
  {
    if ks == [] then []
    else
      var here :=
        if ks[0] !in d.m then []
        else match d.m[ks[0]]
          case Map(inner) => Prefixed(ks[0], LeafPathsFrom(inner, inner.keys))
          case _ => [[ks[0]]];
      here + LeafPathsFrom(d, ks[1..])
  }

  function LeafPaths(d: Dict<Val>): seq<seq<string>> {
    LeafPathsFrom(d, d.keys)
  }

  /** The non-dict value at `path`, if there is one. */
  function LeafAt(d: Dict<Val>, path: seq<string>): Option<Val>
    requires |path| >= 1
  {
    match Lookup(d, path)
    case Some(v) => if v.Map? then None else Some(v)
    case None => None
  }

  /** The walk visits exactly the paths that lead to a non-dict value. */
  lemma {:induction false} LeafPathsFromAt(d: Dict<Val>, ks: seq<string>, p: seq<string>)
    requires GoodDict(d)
    ensures p in LeafPathsFrom(d, ks) <==> |p| >= 1 && p[0] in ks && LeafAt(d, p).Some?
    decreases d, |ks|
  {
    if ks != [] {
      LeafPathsFromAt(d, ks[1..], p);
      var k := ks[0];
      assert ks == [k] + ks[1..];
      var rest := LeafPathsFrom(d, ks[1..]);
      if k in d.m && d.m[k].Map? {
        var inner := d.m[k].d;
        GoodChild(d, k);
        var here := Prefixed(k, LeafPathsFrom(inner, inner.keys));
        assert LeafPathsFrom(d, ks) == here + rest;
        PrefixedIn(k, LeafPathsFrom(inner, inner.keys), p);
        if p == [k] {
          LeafPathsFromAt(inner, inner.keys, []);
          assert p[1..] == [];
        } else if |p| >= 2 && p[0] == k {
          LeafPathsFromAt(inner, inner.keys, p[1..]);
          assert Lookup(d, p) == Lookup(inner, p[1..]);
        }
      } else if k in d.m {
        assert LeafPathsFrom(d, ks) == [[k]] + rest;
        if p == [k] {
          assert LeafAt(d, p) == Some(d.m[k]);
        } else if |p| >= 2 && p[0] == k {
          assert Lookup(d, p).None?;
        }
      } else {
        assert LeafPathsFrom(d, ks) == rest;
      }
    }
  }

  lemma LeafPathsAt(d: Dict<Val>, p: seq<string>)
    requires GoodDict(d)
    ensures p in LeafPaths(d) <==> |p| >= 1 && LeafAt(d, p).Some?
  {
    LeafPathsFromAt(d, d.keys, p);
  }

  /** `collect_keys`: the dotted names of the non-dict values. */
  function LeafKeys(d: Dict<Val>): (r: seq<string>)
    ensures |r| == |LeafPaths(d)|
    ensures forall i :: 0 <= i < |r| ==> r[i] == Dotted("", LeafPaths(d)[i])
  {
    var ps := LeafPaths(d);
    seq(|ps|, i requires 0 <= i < |ps| => Dotted("", ps[i]))
  }

  /** A name is collected exactly when some path to a non-dict value is
      written that way. */
  lemma LeafKeysAt(d: Dict<Val>, x: string)
    requires GoodDict(d)
    ensures x in LeafKeys(d) <==> exists p :: |p| >= 1 && LeafAt(d, p).Some? && Dotted("", p) == x
  {
    var ks := LeafKeys(d);
    var ps := LeafPaths(d);
    if x in ks {
      var i :| 0 <= i < |ks| && ks[i] == x;
      LeafPathsAt(d, ps[i]);
    }
    if exists p :: |p| >= 1 && LeafAt(d, p).Some? && Dotted("", p) == x {
      var p :| |p| >= 1 && LeafAt(d, p).Some? && Dotted("", p) == x;
      LeafPathsAt(d, p);
      var i :| 0 <= i < |ps| && ps[i] == p;
      assert ks[i] == x;
    }
  }

  /** A value two levels down, under a non-empty section name, is
      collected as `SECTION.KEY`. */
  lemma SectionKey(d: Dict<Val>, section: string, key: string)
    requires GoodDict(d) && section != "" && LeafAt(d, [section, key]).Some?
    ensures section + "." + key in LeafKeys(d)
  {
    assert Dotted("", [section, key]) == section + "." + key by {
      assert [section, key][1..] == [key] && [key][1..] == [];
      assert Dotted("", [section, key]) == Dotted(section, [key]);
      assert Dotted(section, [key]) == Dotted(section + "." + key, []);
    }
    LeafKeysAt(d, section + "." + key);
  }

  // ---------------------------------------------------------------------------
  // Required and valid WIT parameters

  const RequiredWit: set<string> :=
    {"Configurations.first", "Configurations.last", "Configurations.step", "Propagator.Seed"}

  /** `missing_wit`: the required names not collected (a set; the order of
      the message is that of a Python set). */
  function MissingWit(d: Dict<Val>): (r: set<string>)
    ensures forall x :: x in r <==> x in RequiredWit && x !in LeafKeys(d)
  {
    set x | x in RequiredWit && x !in LeafKeys(d)
  }

  /** Nothing is missing when the three `Configurations` entries and
      `Propagator.Seed` all hold non-dict values. */
  lemma RequiredHeld(d: Dict<Val>)
    requires GoodDict(d)
    requires LeafAt(d, ["Configurations", "first"]).Some? && LeafAt(d, ["Configurations", "last"]).Some?
    requires LeafAt(d, ["Configurations", "step"]).Some? && LeafAt(d, ["Propagator", "Seed"]).Some?
    ensures MissingWit(d) == {}
  {
    RequiredNames();
    SectionKey(d, "Configurations", "first");
    SectionKey(d, "Configurations", "last");
    SectionKey(d, "Configurations", "step");
    SectionKey(d, "Propagator", "Seed");
    assert forall x :: x in RequiredWit ==> x in LeafKeys(d);
  }

  /** The required names as section and key joined by a dot. */
  lemma RequiredNames()
    ensures "Configurations" + "." + "first" == "Configurations.first"
    ensures "Configurations" + "." + "last" == "Configurations.last"
    ensures "Configurations" + "." + "step" == "Configurations.step"
    ensures "Propagator" + "." + "Seed" == "Propagator.Seed"
  {
  }

  /** `valid_wit_params`: the entries the WIT input uses, plus
      `Propagator.Seed`. */
  const ValidWit: set<string> := {
    "Run_name.name", "Directories.cnfg_dir", "Configurations.first", "Configurations.last",
    "Configurations.step", "Random_number_generator.level", "Random_number_generator.seed",
    "Lattice_parameters.Ls", "Lattice_parameters.M5", "Lattice_parameters.b", "Lattice_parameters.c",
    "Boundary_conditions.type", "Witness.no_prop", "Witness.no_solver", "Solver_0.solver",
    "Solver_0.nkv", "Solver_0.isolv", "Solver_0.nmr", "Solver_0.ncy", "Solver_0.nmx",
    "Solver_0.exact_deflation", "Exact_Deflation.Cheby_fine", "Exact_Deflation.Cheby_smooth",
    "Exact_Deflation.Cheby_coarse", "Exact_Deflation.kappa", "Exact_Deflation.res",
    "Exact_Deflation.nmx", "Exact_Deflation.Ns", "Propagator_0.Noise", "Propagator_0.Source",
    "Propagator_0.Dilution", "Propagator_0.pos", "Propagator_0.mom", "Propagator_0.twist",
    "Propagator_0.kappa", "Propagator_0.mu", "Propagator_0.Seed", "Propagator_0.idx_solver",
    "Propagator_0.res", "Propagator_0.sloppy_res", "AMA.NEXACT", "AMA.SLOPPY_PREC", "AMA.NHITS",
    "AMA.NT", "Propagator.Seed"}

  /** `find_unused_keys(d, valid_wit_params)`: the collected names outside
      the valid set, in walk order. */
  function Unused(d: Dict<Val>): (r: seq<string>)
  {
    MissingFrom(LeafKeys(d), ValidWit)
  }

  /** Nothing is unused exactly when every non-dict value sits at a path
      whose dotted name is valid. */
  lemma UnusedNone(d: Dict<Val>)
    requires GoodDict(d)
    ensures Unused(d) == [] <==>
              forall p :: |p| >= 1 && LeafAt(d, p).Some? ==> Dotted("", p) in ValidWit
  {
    if Unused(d) != [] {
      var x := Unused(d)[0];
      assert x in Unused(d);
      LeafKeysAt(d, x);
    }
    if Unused(d) == [] {
      forall p | |p| >= 1 && LeafAt(d, p).Some? ensures Dotted("", p) in ValidWit {
        LeafKeysAt(d, Dotted("", p));
      }
    }
  }

  // ---------------------------------------------------------------------------
  // Propagator.Seed

  /** The `TypeError` of indexing or assigning into a non-dict section. */
  const SeedTypeError := "TypeError: Propagator section is not a dict"

  /** A `Seed` in a `Propagator` dict, and a `Propagator_0` that is absent
      or a dict: the case where the seed moves. */
  predicate SeedToMove(d: Dict<Val>) {
    "Propagator" in d.m && d.m["Propagator"].Map? && "Seed" in d.m["Propagator"].d.m
    && ("Propagator_0" !in d.m || d.m["Propagator_0"].Map?)
  }

  /** `SeedToMove` with the two sections well-formed: what the move needs. */
  predicate MoveReady(d: Dict<Val>) {
    d.Valid() && SeedToMove(d) && d.m["Propagator"].d.Valid()
    && ("Propagator_0" in d.m ==> d.m["Propagator_0"].d.Valid())
  }

  lemma ReadyOfGood(d: Dict<Val>)
    requires GoodDict(d) && SeedToMove(d)
    ensures MoveReady(d)
  {
    GoodChild(d, "Propagator");
    if "Propagator_0" in d.m {
      GoodChild(d, "Propagator_0");
    }
  }

  /** The `Propagator` section of `d`. */
  function PropOf(d: Dict<Val>): (r: Dict<Val>)
    requires MoveReady(d)
    ensures r.Valid() && "Seed" in r.m && d.m["Propagator"] == Map(r)
  {
    d.m["Propagator"].d
  }

  /** The `Propagator_0` section of `d`, `{}` when absent. */
  function Prop0Of(d: Dict<Val>): (r: Dict<Val>)
    requires MoveReady(d)
    ensures r.Valid()
    ensures if "Propagator_0" in d.m then d.m["Propagator_0"] == Map(r) else r == Empty()
  {
    if "Propagator_0" in d.m then d.m["Propagator_0"].d else Empty()
  }

  /** `Propagator_0` once the seed is assigned into it. */
  function SeededProp0(d: Dict<Val>): (r: Dict<Val>)
    requires MoveReady(d)
    ensures r.Valid() && r.m == Prop0Of(d).m["Seed" := PropOf(d).m["Seed"]]
  {
    Set(Prop0Of(d), "Seed", PropOf(d).m["Seed"])
  }

  /** `Propagator` once the seed is deleted from it. */
  function PropRest(d: Dict<Val>): (r: Dict<Val>)
    requires MoveReady(d)
    ensures r.Valid() && r.m == PropOf(d).m - {"Seed"}
  {
    Remove(PropOf(d), "Seed")
  }

  /** Deleting the seed leaves `Propagator` empty. */
  predicate PropEmptied(d: Dict<Val>)
    requires MoveReady(d)
  {
    |PropRest(d).keys| == 0
  }

  /** `Propagator` is left empty exactly when it held nothing but the seed. */
  lemma PropEmptiedMeaning(d: Dict<Val>)
    requires MoveReady(d)
    ensures PropEmptied(d) <==> !exists k :: k in PropOf(d).m && k != "Seed"
  {
    var rest := PropRest(d);
    if exists k :: k in PropOf(d).m && k != "Seed" {
      var k :| k in PropOf(d).m && k != "Seed";
      assert k in rest.m;
    }
    if |rest.keys| != 0 {
      assert rest.keys[0] in rest.m;
    }
  }

  /** The move itself: the seed is assigned into `Propagator_0` (a fresh
      `{}` when absent), then deleted from `Propagator`, which goes when that
      empties it. */
  function MoveSeed(d: Dict<Val>): (r: Dict<Val>)
    requires MoveReady(d)
    ensures r.Valid()
    ensures r.m == if PropEmptied(d)
                   then d.m["Propagator_0" := Map(SeededProp0(d))] - {"Propagator"}
                   else d.m["Propagator_0" := Map(SeededProp0(d))]["Propagator" := Map(PropRest(d))]
  {
    var d2 := Set(d, "Propagator_0", Map(SeededProp0(d)));
    if PropEmptied(d) then Remove(d2, "Propagator") else Set(d2, "Propagator", Map(PropRest(d)))
  }

  /** The move keeps every dict in the tree well-formed. */
  lemma MoveSeedGood(d: Dict<Val>)
    requires GoodDict(d) && SeedToMove(d)
    ensures MoveReady(d) && GoodDict(MoveSeed(d))
  {
    ReadyOfGood(d);
    var prop := PropOf(d);
    GoodChild(d, "Propagator");
    assert Good(prop.m["Seed"]);
    var p0 := Prop0Of(d);
    if "Propagator_0" in d.m {
      GoodChild(d, "Propagator_0");
    }
    SetGood(p0, "Seed", prop.m["Seed"]);
    var p0' := SeededProp0(d);
    SetGood(d, "Propagator_0", Map(p0'));
    var d2 := Set(d, "Propagator_0", Map(p0'));
    RemoveGood(prop, "Seed");
    RemoveGood(d2, "Propagator");
    SetGood(d2, "Propagator", Map(PropRest(d)));
  }

  /** The `Propagator.Seed` step: a `Seed` in a `Propagator` dict moves to
      `Propagator_0` (made `{}` when absent) and a `Propagator` left empty
      goes. A string `Propagator` containing `Seed`, a number, boolean or
      `None` there, or a non-dict `Propagator_0`, raises `TypeError`. */
  function RelocateSeed(d: Dict<Val>): (r: Result<Dict<Val>>)
    requires GoodDict(d)
    ensures r.Ok? ==> GoodDict(r.value)
  {
    if "Propagator" !in d.m then Ok(d)
    else match d.m["Propagator"]
      case Str(text) => if Contains(text, "Seed") then Err(SeedTypeError) else Ok(d)
      case Scalar(_) => Err(SeedTypeError)
      case Map(prop) =>
        if "Seed" !in prop.m then Ok(d)
        else if SeedToMove(d) then MoveSeedGood(d); Ok(MoveSeed(d))
        else Err(SeedTypeError)
  }

  /** After the move the seed is found under `Propagator_0` and not under
      `Propagator`, which is kept exactly when it holds something else. */
  lemma MoveSeedFound(d: Dict<Val>)
    requires MoveReady(d)
    ensures var r := MoveSeed(d);
            var prop := d.m["Propagator"].d;
            Lookup(r, ["Propagator_0", "Seed"]) == Some(prop.m["Seed"])
            && Lookup(r, ["Propagator", "Seed"]).None?
            && ("Propagator" in r.m <==> exists k :: k in prop.m && k != "Seed")
  {
    var r := MoveSeed(d);
    PropEmptiedMeaning(d);
    MovedProp0(d);
    LookupTwo(r, "Propagator_0", "Seed");
    LookupTwo(r, "Propagator", "Seed");
  }

  /** A two-key lookup goes through the first key's dict. */
  lemma LookupTwo(d: Dict<Val>, a: string, b: string)
    ensures Lookup(d, [a, b]) == if a in d.m && d.m[a].Map? then Get(d.m[a].d, b) else None
  {
    assert [a, b][1..] == [b];
  }

  /** The other entries of `Propagator` are as before. */
  lemma MoveSeedKeepsPropagator(d: Dict<Val>, q: string)
    requires MoveReady(d) && q != "Seed"
    ensures Lookup(MoveSeed(d), ["Propagator", q]) == Lookup(d, ["Propagator", q])
  {
    LookupTwo(MoveSeed(d), "Propagator", q);
    LookupTwo(d, "Propagator", q);
    if PropEmptied(d) {
      PropEmptiedMeaning(d);
    }
  }

  /** The other entries of `Propagator_0` are as before. */
  lemma MoveSeedKeepsPropagator0(d: Dict<Val>, q: string)
    requires MoveReady(d) && q != "Seed"
    ensures Lookup(MoveSeed(d), ["Propagator_0", q]) == Lookup(d, ["Propagator_0", q])
  {
    MovedProp0(d);
    LookupTwo(MoveSeed(d), "Propagator_0", q);
    LookupTwo(d, "Propagator_0", q);
    assert Get(SeededProp0(d), q) == Get(Prop0Of(d), q);
  }

  /** After the move `Propagator_0` is the seeded section. */
  lemma MovedProp0(d: Dict<Val>)
    requires MoveReady(d)
    ensures "Propagator_0" in MoveSeed(d).m && MoveSeed(d).m["Propagator_0"] == Map(SeededProp0(d))
  {
    assert "Propagator_0" != "Propagator" by {
      assert |"Propagator_0"| != |"Propagator"|;
    }
    var seeded := d.m["Propagator_0" := Map(SeededProp0(d))];
    if PropEmptied(d) {
      assert MoveSeed(d).m == seeded - {"Propagator"};
    } else {
      assert MoveSeed(d).m == seeded["Propagator" := Map(PropRest(d))];
    }
  }

  /** Every other section is as before. */
  lemma MoveSeedKeepsOthers(d: Dict<Val>, k: string)
    requires MoveReady(d) && k != "Propagator" && k != "Propagator_0"
    ensures Get(MoveSeed(d), k) == Get(d, k)
  {
  }

  /** With a `Seed` in a `Propagator` dict, the step succeeds exactly when
      `Propagator_0` is absent or a dict, and is then the move. */
  lemma SeedMoved(d: Dict<Val>)
    requires GoodDict(d) && "Propagator" in d.m && d.m["Propagator"].Map?
    requires "Seed" in d.m["Propagator"].d.m
    ensures RelocateSeed(d).Ok? <==> SeedToMove(d)
    ensures SeedToMove(d) ==> MoveReady(d) && RelocateSeed(d) == Ok(MoveSeed(d))
  {
    if SeedToMove(d) {
      ReadyOfGood(d);
    }
  }

  /** Without a `Propagator` section, or with a dict one holding no `Seed`,
      the step changes nothing. */
  lemma SeedAbsent(d: Dict<Val>)
    requires GoodDict(d)
    requires "Propagator" !in d.m || (d.m["Propagator"].Map? && "Seed" !in d.m["Propagator"].d.m)
    ensures RelocateSeed(d) == Ok(d)
  {
  }

  // ---------------------------------------------------------------------------
  // Pruning

  /** What `remove_unused_keys` leaves under key `k` of `d`: a dict is
      pruned in turn and goes if that leaves it empty; another value goes
      when its dotted name is listed. */
  function PruneEntry(d: Dict<Val>, unused: seq<string>, prefix: string, k: string): (r: Option<Val>)
    requires GoodDict(d) && k in d.m
    ensures r.Some? ==> Good(r.value)
    decreases d, 0
  {
    assert Good(d.m[k]);
    match d.m[k]
    case Map(inner) =>
      var c := Prune(inner, unused, FullKey(prefix, k));
      if c.m == map[] then None else Some(Map(c))
    case v => if FullKey(prefix, k) in unused then None else Some(v)
  }

  /** The keys `ks` of `d` visited in turn, starting from `acc`. */
  function PruneFrom(d: Dict<Val>, unused: seq<string>, prefix: string, ks: seq<string>, acc: Dict<Val>)
    : (r: Dict<Val>)
    requires GoodDict(d) && GoodDict(acc) && forall x :: x in ks ==> x in d.m
    ensures GoodDict(r)
    decreases d, 1, |ks|
  {
    if ks == [] then acc
    else
      var acc' :=
        match PruneEntry(d, unused, prefix, ks[0])
        case None => Remove(acc, ks[0])
        case Some(v) => Set(acc, ks[0], v);
      PruneFrom(d, unused, prefix, ks[1..], acc')
  }

  /** `remove_unused_keys(d, unused, prefix)`: the entries of `d` in their
      order, each as `PruneEntry` leaves it. */
  function Prune(d: Dict<Val>, unused: seq<string>, prefix: string): (r: Dict<Val>)
    requires GoodDict(d)
    ensures GoodDict(r)
    decreases d, 2
  {
    PruneFrom(d, unused, prefix, d.keys, d)
  }

  lemma {:induction false} PruneFromAt(d: Dict<Val>, unused: seq<string>, prefix: string, ks: seq<string>,
                                       acc: Dict<Val>, k: string)
    requires GoodDict(d) && GoodDict(acc) && forall x :: x in ks ==> x in d.m
    ensures var r := PruneFrom(d, unused, prefix, ks, acc);
            k in ks ==> (k in r.m <==> PruneEntry(d, unused, prefix, k).Some?)
                        && (k in r.m ==> r.m[k] == PruneEntry(d, unused, prefix, k).value)
    ensures var r := PruneFrom(d, unused, prefix, ks, acc);
            k !in ks ==> (k in r.m <==> k in acc.m) && (k in r.m ==> r.m[k] == acc.m[k])
    decreases |ks|
  {
    if ks != [] {
      var acc' :=
        match PruneEntry(d, unused, prefix, ks[0])
        case None => Remove(acc, ks[0])
        case Some(v) => Set(acc, ks[0], v);
      PruneFromAt(d, unused, prefix, ks[1..], acc', k);
      assert ks == [ks[0]] + ks[1..];
    }
  }

  /** Each key of `d` is kept or dropped as `PruneEntry` says; no key is
      added. */
  lemma PruneAt(d: Dict<Val>, unused: seq<string>, prefix: string, k: string)
    requires GoodDict(d)
    ensures k in Prune(d, unused, prefix).m ==> k in d.m
    ensures k in d.m ==> (k in Prune(d, unused, prefix).m <==> PruneEntry(d, unused, prefix, k).Some?)
    ensures k in d.m && k in Prune(d, unused, prefix).m ==>
              Prune(d, unused, prefix).m[k] == PruneEntry(d, unused, prefix, k).value
  {
    PruneFromAt(d, unused, prefix, d.keys, d, k);
  }

  /** A non-dict value survives exactly when its dotted name is not
      listed. */
  lemma {:induction false} PruneLeaf(d: Dict<Val>, unused: seq<string>, prefix: string, p: seq<string>)
    requires GoodDict(d) && |p| >= 1
    ensures LeafAt(Prune(d, unused, prefix), p) ==
              if Dotted(prefix, p) in unused then None else LeafAt(d, p)
    decreases d
  {
    var k := p[0];
    var r := Prune(d, unused, prefix);
    PruneAt(d, unused, prefix, k);
    if k in d.m {
      match d.m[k]
      case Map(inner) =>
        GoodChild(d, k);
        var c := Prune(inner, unused, FullKey(prefix, k));
        if |p| >= 2 {
          PruneLeaf(inner, unused, FullKey(prefix, k), p[1..]);
          assert Dotted(prefix, p) == Dotted(FullKey(prefix, k), p[1..]);
          assert Lookup(d, p) == Lookup(inner, p[1..]);
          if k in r.m {
            assert Lookup(r, p) == Lookup(c, p[1..]);
          }
        }
      case _ =>
        if |p| == 1 {
          assert Dotted(prefix, p) == Dotted(FullKey(prefix, k), []);
        }
    }
  }

  /** No dict left anywhere in the result is empty. */
  lemma {:induction false} PruneNoEmpty(d: Dict<Val>, unused: seq<string>, prefix: string, p: seq<string>)
    requires GoodDict(d) && |p| >= 1
    ensures var v := Lookup(Prune(d, unused, prefix), p);
            v.Some? && v.value.Map? ==> v.value.d.m != map[]
    decreases d
  {
    var k := p[0];
    var r := Prune(d, unused, prefix);
    PruneAt(d, unused, prefix, k);
    if k in r.m && |p| >= 2 && d.m[k].Map? {
      var inner := d.m[k].d;
      GoodChild(d, k);
      PruneNoEmpty(inner, unused, FullKey(prefix, k), p[1..]);
    }
  }

  // ---------------------------------------------------------------------------
  // The command

  const MissingWitMessage := "ERROR: missing required WIT parameters"
  const UnusedMessage := "ERROR: WIT parameter provided but not used in DWF.in: "

  /** The WIT half, from the result of the parsing loop: the required check,
      the Seed step, the unused check and the pruning. */
  function WitInputs(parsed: Result<Dict<Val>>): (r: Result<Dict<Val>>)
    requires parsed.Ok? ==> GoodDict(parsed.value)
  {
    match parsed
    case Err(m) => Err(m)
    case Ok(w) =>
      if MissingWit(w) != {} then Err(MissingWitMessage)
      else match RelocateSeed(w)
        case Err(m) => Err(m)
        case Ok(moved) =>
          if Unused(moved) != [] then Err(UnusedMessage + Unused(moved)[0])
          else Ok(Prune(moved, [], ""))
  }

  /** With no unused name, pruning keeps every non-dict value and leaves
      no empty section. */
  lemma PruneClean(w: Dict<Val>)
    requires GoodDict(w) && Unused(w) == []
    ensures var wit := Prune(w, [], "");
            (forall p :: |p| >= 1 ==> LeafAt(wit, p) == LeafAt(w, p))
            && (forall p :: |p| >= 1 && LeafAt(wit, p).Some? ==> Dotted("", p) in ValidWit)
            && (forall p :: |p| >= 1 && Lookup(wit, p).Some? && Lookup(wit, p).value.Map? ==>
                  Lookup(wit, p).value.d.m != map[])
  {
    var wit := Prune(w, [], "");
    UnusedNone(w);
    forall p | |p| >= 1 ensures LeafAt(wit, p) == LeafAt(w, p) {
      PruneLeaf(w, [], "", p);
    }
    forall p | |p| >= 1 && Lookup(wit, p).Some? && Lookup(wit, p).value.Map?
      ensures Lookup(wit, p).value.d.m != map[]
    {
      PruneNoEmpty(w, [], "", p);
    }
  }

  /** The WIT dict that reaches the generator is the parsed one after the
      Seed step, with every value at a valid dotted name, the same values
      and no empty section. */
  lemma WitAccepted(parsed: Result<Dict<Val>>)
    requires parsed.Ok? ==> GoodDict(parsed.value)
    requires WitInputs(parsed).Ok?
    ensures parsed.Ok? && MissingWit(parsed.value) == {} && RelocateSeed(parsed.value).Ok?
    ensures var moved := RelocateSeed(parsed.value).value;
            var wit := WitInputs(parsed).value;
            Unused(moved) == [] && wit == Prune(moved, [], "")
            && (forall p :: |p| >= 1 ==> LeafAt(wit, p) == LeafAt(moved, p))
            && (forall p :: |p| >= 1 && LeafAt(wit, p).Some? ==> Dotted("", p) in ValidWit)
            && (forall p :: |p| >= 1 && Lookup(wit, p).Some? && Lookup(wit, p).value.Map? ==>
                  Lookup(wit, p).value.d.m != map[])
  {
    PruneClean(RelocateSeed(parsed.value).value);
  }

  /** A job dict that passes the required check has `mail_user` from a
      token and every required key. */
  lemma JobAccepted(mergedJob: string)
    requires MissingJob(Apply(JobDefaults(), SplitWs(mergedJob))) == []
    ensures var tokens := SplitWs(mergedJob);
            exists i :: 0 <= i < |tokens| && HasKey(tokens[i], "mail_user")
    ensures forall k :: k in RequiredJob ==> k in Apply(JobDefaults(), SplitWs(mergedJob)).m
  {
    JobMissing(SplitWs(mergedJob));
  }

  /** The generator's integer arguments `int(job_dict.get('nodes'))`,
      `int(job_dict.get('gpus'))` and `int(job_dict.get('ranks', 4))`;
      `None` when one of the casts raises. */
  function GeneratorInts(job: Dict<string>): (r: Option<(int, int, int)>)
    ensures r.Some? <==> "nodes" in job.m && ParseInt(job.m["nodes"]).Some?
                         && "gpus" in job.m && ParseInt(job.m["gpus"]).Some?
                         && ("ranks" in job.m ==> ParseInt(job.m["ranks"]).Some?)
    ensures r.Some? ==> Some(r.value.0) == ParseInt(job.m["nodes"]) && Some(r.value.1) == ParseInt(job.m["gpus"])
    ensures r.Some? && "ranks" !in job.m ==> r.value.2 == 4
    ensures r.Some? && "ranks" in job.m ==> Some(r.value.2) == ParseInt(job.m["ranks"])
  {
    var nodes := if "nodes" in job.m then ParseInt(job.m["nodes"]) else None;
    var gpus := if "gpus" in job.m then ParseInt(job.m["gpus"]) else None;
    var ranks := if "ranks" in job.m then ParseInt(job.m["ranks"]) else Some(4);
    if nodes.None? || gpus.None? || ranks.None? then None
    else Some((nodes.value, gpus.value, ranks.value))
  }

  /** Integers written as text are read back by the generator's casts. */
  lemma GeneratorIntsOfText(job: Dict<string>, nodes: int, gpus: int, ranks: int)
    requires "nodes" in job.m && job.m["nodes"] == IntToString(nodes)
    requires "gpus" in job.m && job.m["gpus"] == IntToString(gpus)
    requires "ranks" in job.m && job.m["ranks"] == IntToString(ranks)
    ensures GeneratorInts(job) == Some((nodes, gpus, ranks))
  {
    ParseIntToString(nodes);
    assert ParseInt(job.m["nodes"]) == Some(nodes);
    ParseIntToString(gpus);
    assert ParseInt(job.m["gpus"]) == Some(gpus);
    ParseIntToString(ranks);
    assert ParseInt(job.m["ranks"]) == Some(ranks);
  }

  /** A job token that is not an integer, such as `nodes=two`, makes the
      casts raise whatever the job dict held before. */
  lemma NonIntegerNodesRefused(job: Dict<string>)
    requires job.Valid()
    ensures GeneratorInts(AddToken(job, "nodes=two")).None?
  {
    assert "nodes=two" == "nodes" + "=" + "two";
    KvToken("nodes", "two");
    assert Get(AddToken(job, "nodes=two"), "nodes") == Some("two");
    TwoIsNoInteger();
  }

  lemma TwoIsNoInteger()
    ensures ParseInt("two").None?
  {
    StripNoSpace("two");
    assert !AllDigits("two");
  }

  /** `do_zv` up to the script generator. The ensemble comes from `-e`
      (`identifier`, with `resolved` its `Path.resolve` form) or else from
      `--ensemble-id`; `mergedJob` and `mergedWit` are the stored defaults
      merged with the command line. The generator's inputs, its three
      integer arguments included, are returned with status 0. */
  method DoZv(s: Store, identifier: Option<Identifier>, resolved: Option<string>, ensembleId: Option<int>,
              mergedJob: string, mergedWit: string)
    returns (code: int, id: Option<int>, inputs: Option<(Dict<string>, Dict<Val>, (int, int, int))>)
    requires s.Valid()
    ensures id.Some? ==> id.value in s.ensembles
    ensures identifier.None? ==> (id.Some? <==> ensembleId.Some? && ensembleId.value in s.ensembles)
    ensures identifier.None? && id.Some? ==> id == ensembleId
    ensures identifier.Some? && identifier.value.IdNumber? ==>
              (id.Some? <==> identifier.value.n in s.ensembles)
    ensures id.None? ==> code == 1 && inputs.None?
    ensures id.Some? ==>
              var job := Apply(JobDefaults(), SplitWs(mergedJob));
              var wit := WitInputs(WitDict(SplitWs(mergedWit)));
              (code == 0 <==> MissingJob(job) == [] && wit.Ok? && GeneratorInts(job).Some?)
              && (code == 0 || code == 1)
              && (code == 0 ==> inputs == Some((job, wit.value, GeneratorInts(job).value)))
              && (code == 1 ==> inputs.None?)
  {
    inputs := None;
    if identifier.Some? {
      var details;
      id, details := s.ResolveEnsembleIdentifier(identifier.value, resolved);
    } else if ensembleId.Some? && s.GetEnsembleDetails(ensembleId.value).Some? {
      id := ensembleId;
    } else {
      id := None;
    }
    if id.None? {
      return 1, id, None;
    }
    var job := ParseJob(mergedJob);
    if MissingJob(job) != [] {
      return 1, id, None;
    }
    var wdict := ParseWit(mergedWit);
    if wdict.Err? {
      return 1, id, None;
    }
    if MissingWit(wdict.value) != {} {
      return 1, id, None;
    }
    var moved := RelocateSeed(wdict.value);
    if moved.Err? {
      return 1, id, None;
    }
    var unused := Unused(moved.value);
    if unused != [] {
      return 1, id, None;
    }
    var wit := Prune(moved.value, unused, "");
    assert WitInputs(wdict) == Ok(wit);
    var ints := GeneratorInts(job);
    if ints.None? {
      return 1, id, None;
    }
    inputs := Some((job, wit, ints.value));
    code := 0;
  }
}
