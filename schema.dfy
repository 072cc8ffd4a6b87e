/** Context parameter schemas of the job builders (`jobs/schema.py`): the
    de-duplication that lets a later definition override an earlier one, the
    application of a schema to user parameters (defaults, required check,
    cast, choices) and the merge order of `ContextBuilder.build`. */
module Schema {
  import opened Wrappers
  import opened Text
  import opened PyDict
  import opened Nested
  import Geometry

  /** The Python types a parameter is declared with. */
  datatype Ty = TStr | TInt | TFloat

  /** `ContextParam`. An absent `choices` and an empty list behave alike
      (both are falsy), so `choices` is a sequence. */
  datatype Param = Param(name: string, ty: Ty, required: bool, default: Option<Val>,
                         help: string, choices: seq<Val>)

  function TypeName(ty: Ty): string {
    match ty
    case TStr => "str"
    case TInt => "int"
    case TFloat => "float"
  }

  /** A decimal literal: an optional sign, digits, an optional point and
      digits, with at least one digit. */
  predicate Decimal(t: string) {
    var body := if t != [] && (t[0] == '-' || t[0] == '+') then t[1..] else t;
    match IndexOf(body, '.')
    case None => body != [] && AllDigits(body)
    case Some(i) =>
      AllDigits(body[..i]) && AllDigits(body[i + 1..]) && |body| > 1
  }

  /** The text a cast to `int` or `float` reads: a string or a scalar. */
  function NumberText(v: Val): Option<string> {
    match v
    case Str(s) => Some(s)
    case Scalar(t) => Some(t)
    case Map(_) => None
  }

  /** `definition.type(value)`; `None` stands for the TypeError or
      ValueError the cast raises. */
  function Cast(ty: Ty, v: Val): (r: Option<Val>)
    ensures ty == TStr ==> r == Some(Str(Show(v)))
    ensures ty == TInt && r.Some? ==> exists n :: r.value == Scalar(IntToString(n))
  {
    match ty
    case TStr => Some(Str(Show(v)))
    case TInt =>
      var t :- NumberText(v);
      var n :- ParseInt(t);
      Some(Scalar(IntToString(n)))
    case TFloat =>
      var t :- NumberText(v);
      if Decimal(Strip(t)) then Some(Scalar(Strip(t))) else None
  }

  /** A cast to `int` gives back the integer an integer's text stands for. */
  lemma CastIntRoundTrip(n: int)
    ensures Cast(TInt, Scalar(IntToString(n))) == Some(Scalar(IntToString(n)))
    ensures Cast(TInt, Str(IntToString(n))) == Some(Scalar(IntToString(n)))
  {
    ParseIntToString(n);
  }

  // ---------------------------------------------------------------------------
  // de-duplication

  function NameSet(s: seq<Param>): set<string> {
    set p | p in s :: p.name
  }

  /** The entry at `i` is the last one with its name. */
  predicate LastOfName(s: seq<Param>, i: int)
    requires 0 <= i < |s|
  {
    forall j :: i < j < |s| ==> s[j].name != s[i].name
  }

  /** The entries of `s` with no later entry of the same name, in order. */
  function Dedup(s: seq<Param>): seq<Param> {
    if s == [] then []
    else (if s[0].name in NameSet(s[1..]) then [] else [s[0]]) + Dedup(s[1..])
  }

  predicate DistinctNames(s: seq<Param>) {
    forall i, j :: 0 <= i < j < |s| ==> s[i].name != s[j].name
  }

  /** `_deduplicate_schema` as a specification: `None` or an empty list
      gives the empty list. */
  function DedupSchema(schema: Option<seq<Param>>): seq<Param> {
    match schema
    case None => []
    case Some(s) => Dedup(s)
  }

  function Reversed<T>(s: seq<T>): (r: seq<T>)
    ensures |r| == |s|
  {
    if s == [] then [] else Reversed(s[1..]) + [s[0]]
  }

  lemma {:induction false} ReversedSnoc<T>(s: seq<T>, x: T)
    ensures Reversed(s + [x]) == [x] + Reversed(s)
  {
    if s == [] {
      assert [x][1..] == [];
    } else {
      assert (s + [x])[1..] == s[1..] + [x];
      ReversedSnoc(s[1..], x);
    }
  }

  lemma NameSetCons(s: seq<Param>, i: nat)
    requires i < |s|
    ensures NameSet(s[i..]) == {s[i].name} + NameSet(s[i + 1..])
  {
    assert s[i..] == [s[i]] + s[i + 1..];
  }

  /** `_deduplicate_schema`: walk the schema backwards, keep each name the
      first time it is seen, then reverse. */
  method DeduplicateSchema(schema: Option<seq<Param>>) returns (r: seq<Param>)
    ensures r == DedupSchema(schema)
  {
    if schema.None? || schema.value == [] {
      return [];
    }
    var s := schema.value;
    var seen: set<string> := {};
    var result: seq<Param> := [];
    var i := |s|;
    while i > 0
      invariant 0 <= i <= |s|
      invariant seen == NameSet(s[i..])
      invariant Reversed(result) == Dedup(s[i..])
    {
      i := i - 1;
      var param := s[i];
      NameSetCons(s, i);
      assert s[i..][1..] == s[i + 1..];
      if param.name !in seen {
        ReversedSnoc(result, param);
        result := result + [param];
        seen := seen + {param.name};
      }
    }
    assert s[0..] == s;
    r := Reversed(result);
  }

  /** Every name survives exactly once: the result's names are distinct and
      are the names of the input. */
  lemma {:induction false} DedupNames(s: seq<Param>)
    ensures DistinctNames(Dedup(s)) && NameSet(Dedup(s)) == NameSet(s)
  {
    if s != [] {
      DedupNames(s[1..]);
      NameSetCons(s, 0);
      assert s[1..] == s[0 + 1..];
      var rest := Dedup(s[1..]);
      if s[0].name !in NameSet(s[1..]) {
        assert Dedup(s) == [s[0]] + rest;
        ConsDistinct(s[0], rest);
      }
    }
  }

  /** A name not among the rest's keeps the names distinct. */
  lemma ConsDistinct(p: Param, rest: seq<Param>)
    requires DistinctNames(rest) && p.name !in NameSet(rest)
    ensures DistinctNames([p] + rest) && NameSet([p] + rest) == {p.name} + NameSet(rest)
  {
    var r := [p] + rest;
    forall i, j | 0 <= i < j < |r| ensures r[i].name != r[j].name {
      if i == 0 {
        assert r[j] == rest[j - 1] && r[j] in rest;
      } else {
        assert r[i] == rest[i - 1] && r[j] == rest[j - 1];
      }
    }
    assert r[1..] == rest;
    NameSetCons(r, 0);
  }

  /** The entry at `i` survives when no later entry has its name. */
  lemma {:induction false} DedupKeepsLast(s: seq<Param>, i: nat)
    requires i < |s|
    ensures s[i] in Dedup(s) <== LastOfName(s, i)
  {
    if LastOfName(s, i) {
      if i == 0 {
        forall p | p in s[1..] ensures p.name != s[0].name {
          var j :| 0 <= j < |s[1..]| && s[1..][j] == p;
          assert s[j + 1] == p;
        }
      } else {
        assert s[1..][i - 1] == s[i];
        assert LastOfName(s[1..], i - 1) by {
          forall j | i - 1 < j < |s[1..]| ensures s[1..][j].name != s[1..][i - 1].name {
            assert s[1..][j] == s[j + 1];
          }
        }
        DedupKeepsLast(s[1..], i - 1);
      }
    }
  }

  /** Every survivor is the last entry of its name. */
  lemma {:induction false} DedupOnlyLast(s: seq<Param>, p: Param)
    requires p in Dedup(s)
    ensures exists i :: 0 <= i < |s| && s[i] == p && LastOfName(s, i)
  {
    var rest := s[1..];
    if p in Dedup(rest) {
      DedupOnlyLast(rest, p);
      var i :| 0 <= i < |rest| && rest[i] == p && LastOfName(rest, i);
      assert s[i + 1] == p;
      forall j | i + 1 < j < |s| ensures s[j].name != s[i + 1].name {
        assert s[j] == rest[j - 1];
      }
    } else {
      assert p == s[0] && s[0].name !in NameSet(rest);
      forall j | 0 < j < |s| ensures s[j].name != s[0].name {
        assert s[j] == rest[j - 1] && s[j] in rest;
      }
    }
  }

  /** `a` is `b` with some entries left out, the rest in their order. */
  predicate SubSeq<T(==)>(a: seq<T>, b: seq<T>)
    decreases |b|
  {
    if a == [] then true
    else if b == [] then false
    else (a[0] == b[0] && SubSeq(a[1..], b[1..])) || SubSeq(a, b[1..])
  }

  /** The survivors keep their relative order. */
  lemma {:induction false} DedupOrder(s: seq<Param>)
    ensures SubSeq(Dedup(s), s)
  {
    if s != [] {
      DedupOrder(s[1..]);
      var rest := Dedup(s[1..]);
      if s[0].name !in NameSet(s[1..]) {
        assert ([s[0]] + rest)[1..] == rest;
      } else {
        assert Dedup(s) == rest;
        SubSeqDrop(rest, s);
      }
    }
  }

  lemma SubSeqDrop<T>(a: seq<T>, b: seq<T>)
    requires b != [] && SubSeq(a, b[1..])
    ensures SubSeq(a, b)
  {
  }

  // ---------------------------------------------------------------------------
  // applying a schema

  /** What the loop of `_apply_schema` does with one definition. */
  datatype Outcome = Skip | MissingReq | Bad(msg: string) | Value(v: Val)

  predicate HasValue(params: Dict<Val>, name: string) {
    name in params.m && params.m[name] != NoneVal
  }

  /** The value a definition reads: the provided one, else the default. */
  function Raw(params: Dict<Val>, def: Param): (r: Option<Val>)
    ensures HasValue(params, def.name) ==> r == Some(params.m[def.name])
    ensures !HasValue(params, def.name) ==> r == def.default
  {
    if HasValue(params, def.name) then Some(params.m[def.name]) else def.default
  }

  function ShowAll(vs: seq<Val>): seq<string> {
    seq(|vs|, i requires 0 <= i < |vs| => Show(vs[i]))
  }

  function ApplyOne(params: Dict<Val>, def: Param, castToStr: bool): (o: Outcome)
    ensures o.MissingReq? <==> Raw(params, def).None? && def.required
    ensures o.Skip? <==> Raw(params, def).None? && !def.required
    ensures o.Value? <==>
              Raw(params, def).Some? && Cast(def.ty, Raw(params, def).value).Some?
              && (def.choices == [] || Cast(def.ty, Raw(params, def).value).value in def.choices)
    ensures o.Value? ==>
              var c := Cast(def.ty, Raw(params, def).value).value;
              o.v == if castToStr then Str(Show(c)) else c
  {
    match Raw(params, def)
    case None => if def.required then MissingReq else Skip
    case Some(value) =>
      match Cast(def.ty, value)
      case None => Bad(def.name + ": expected " + TypeName(def.ty))
      case Some(c) =>
        if def.choices != [] && c !in def.choices then
          Bad(def.name + " must be one of: " + JoinWith(ShowAll(def.choices), ", "))
        else Value(if castToStr then Str(Show(c)) else c)
  }

  /** A provided, non-None value beats the default: the default then plays
      no part. */
  lemma ProvidedBeatsDefault(params: Dict<Val>, def: Param, other: Option<Val>, castToStr: bool)
    requires HasValue(params, def.name)
    ensures ApplyOne(params, def, castToStr) == ApplyOne(params, def.(default := other), castToStr)
  {
  }

  predicate Accepted(o: Outcome) {
    o.Skip? || o.Value?
  }

  /** The three accumulators of the loop. */
  datatype Acc = Acc(typed: Dict<Val>, errors: seq<string>, missing: seq<Param>)

  function Step(acc: Acc, def: Param, o: Outcome): (r: Acc)
    requires acc.typed.Valid()
    ensures r.typed.Valid()
  {
    match o
    case Skip => acc
    case MissingReq => acc.(missing := acc.missing + [def])
    case Bad(msg) => acc.(errors := acc.errors + [msg])
    case Value(v) => acc.(typed := Set(acc.typed, def.name, v))
  }

  /** The accumulators after the loop has seen the definitions `schema`
      with outcomes `os`. */
  function Fold(schema: seq<Param>, os: seq<Outcome>): (r: Acc)
    requires |os| == |schema|
    ensures r.typed.Valid()
  {
    if schema == [] then Acc(Empty(), [], [])
    else
      var n := |schema| - 1;
      Step(Fold(schema[..n], os[..n]), schema[n], os[n])
  }

  lemma FoldSnoc(schema: seq<Param>, os: seq<Outcome>, i: nat)
    requires |os| == |schema| && i < |schema|
    ensures Fold(schema[..i + 1], os[..i + 1]) == Step(Fold(schema[..i], os[..i]), schema[i], os[i])
  {
    assert schema[..i + 1][..i] == schema[..i];
    assert os[..i + 1][..i] == os[..i];
  }

  /** No error and no missing parameter exactly when every outcome is a
      skip or a value. */
  lemma {:induction false} FoldClean(schema: seq<Param>, os: seq<Outcome>)
    requires |os| == |schema|
    ensures var acc := Fold(schema, os);
            (acc.errors == [] && acc.missing == []) <==> forall i :: 0 <= i < |os| ==> Accepted(os[i])
  {
    if schema != [] {
      var n := |schema| - 1;
      var init := os[..n];
      FoldClean(schema[..n], init);
      if forall i :: 0 <= i < |os| ==> Accepted(os[i]) {
        forall i | 0 <= i < |init| ensures Accepted(init[i]) {
          assert init[i] == os[i];
        }
      }
      if (forall i :: 0 <= i < |init| ==> Accepted(init[i])) && Accepted(os[n]) {
        forall i | 0 <= i < |os| ensures Accepted(os[i]) {
          if i < n { assert os[i] == init[i]; }
        }
      }
    }
  }

  /** With distinct names, a name is in the typed dict exactly when its
      outcome is a value, and then holds that value. */
  lemma {:induction false} FoldTyped(schema: seq<Param>, os: seq<Outcome>, i: nat)
    requires |os| == |schema| && DistinctNames(schema) && i < |schema|
    ensures var typed := Fold(schema, os).typed;
            (schema[i].name in typed.m <==> os[i].Value?) && (os[i].Value? ==> typed.m[schema[i].name] == os[i].v)
  {
    var n := |schema| - 1;
    var init := schema[..n];
    var k := schema[i].name;
    DistinctInit(schema);
    FoldLast(schema, os, k);
    if i < n {
      assert init[i] == schema[i] && os[..n][i] == os[i];
      FoldTyped(init, os[..n], i);
    } else {
      FoldAbsent(init, os[..n], k);
    }
  }

  lemma DistinctInit(schema: seq<Param>)
    requires DistinctNames(schema) && schema != []
    ensures DistinctNames(schema[..|schema| - 1])
  {
    var init := schema[..|schema| - 1];
    forall a, b | 0 <= a < b < |init| ensures init[a].name != init[b].name {
      assert init[a] == schema[a] && init[b] == schema[b];
    }
  }

  /** The last definition's outcome decides its own name; any other name
      is as the earlier definitions left it. */
  lemma FoldLast(schema: seq<Param>, os: seq<Outcome>, k: string)
    requires |os| == |schema| && schema != []
    ensures var n := |schema| - 1;
            var before := Fold(schema[..n], os[..n]).typed;
            var after := Fold(schema, os).typed;
            if k == schema[n].name && os[n].Value? then k in after.m && after.m[k] == os[n].v
            else (k in after.m <==> k in before.m) && (k in before.m ==> after.m[k] == before.m[k])
  {
    var n := |schema| - 1;
    FoldUnfold(schema, os);
    StepTyped(Fold(schema[..n], os[..n]), schema[n], os[n]);
  }

  lemma FoldUnfold(schema: seq<Param>, os: seq<Outcome>)
    requires |os| == |schema| && schema != []
    ensures var n := |schema| - 1;
            Fold(schema, os) == Step(Fold(schema[..n], os[..n]), schema[n], os[n])
  {
  }

  /** One step changes the typed dict only for a value, at its name. */
  lemma StepTyped(acc: Acc, def: Param, o: Outcome)
    requires acc.typed.Valid()
    ensures Step(acc, def, o).typed.m == if o.Value? then acc.typed.m[def.name := o.v] else acc.typed.m
  {
  }

  /** A name that no definition has never enters the typed dict. */
  lemma {:induction false} FoldAbsent(schema: seq<Param>, os: seq<Outcome>, k: string)
    requires |os| == |schema|
    requires forall i :: 0 <= i < |schema| ==> schema[i].name != k
    ensures k !in Fold(schema, os).typed.m
  {
    if schema != [] {
      var n := |schema| - 1;
      var init := schema[..n];
      forall i | 0 <= i < |init| ensures init[i].name != k {
        assert init[i] == schema[i];
      }
      FoldAbsent(init, os[..n], k);
    }
  }

  /** The typed dict holds only names of the schema. */
  lemma {:induction false} FoldKeys(schema: seq<Param>, os: seq<Outcome>)
    requires |os| == |schema|
    ensures Fold(schema, os).typed.m.Keys <= NameSet(schema)
  {
    if schema != [] {
      var n := |schema| - 1;
      var init := schema[..n];
      FoldKeys(init, os[..n]);
      assert NameSet(init) <= NameSet(schema) by {
        forall p | p in init ensures p in schema {
          var j :| 0 <= j < |init| && init[j] == p;
          assert schema[j] == p;
        }
      }
      assert schema[n] in schema;
    }
  }

  /** With distinct names, the typed dict is described outcome by outcome. */
  lemma FoldMeaning(schema: seq<Param>, os: seq<Outcome>, paramType: string)
    requires |os| == |schema| && DistinctNames(schema)
    ensures var r := Finish(Fold(schema, os), paramType);
            (r.Ok? <==> forall i :: 0 <= i < |os| ==> Accepted(os[i]))
            && (r.Ok? ==> r.value.m.Keys <= NameSet(schema))
            && (r.Ok? ==> forall i :: 0 <= i < |schema| ==>
                  (schema[i].name in r.value.m <==> os[i].Value?) && (os[i].Value? ==> r.value.m[schema[i].name] == os[i].v))
  {
    FoldClean(schema, os);
    FoldKeys(schema, os);
    forall i | 0 <= i < |schema|
      ensures var typed := Fold(schema, os).typed;
              (schema[i].name in typed.m <==> os[i].Value?) && (os[i].Value? ==> typed.m[schema[i].name] == os[i].v)
    {
      FoldTyped(schema, os, i);
    }
  }

  const BulletChar: string := "\U{2022}"

  function MissingBlock(missing: seq<Param>): string {
    if missing == [] then ""
    else "  " + BulletChar + " " + missing[0].name + ": " + missing[0].help + "\n" + MissingBlock(missing[1..])
  }

  function NamesOf(ps: seq<Param>): seq<string> {
    seq(|ps|, i requires 0 <= i < |ps| => ps[i].name)
  }

  /** The message that lists the missing required parameters. */
  function MissingMessage(missing: seq<Param>, paramType: string): string {
    var flag := if paramType == "input" then "-i" else "-j";
    "\nMissing required " + paramType + " parameters (pass with " + flag + "):\n"
      + MissingBlock(missing) + "\nExample: " + flag + " \""
      + JoinWith(Geometry.Examples(NamesOf(missing)), " ") + "\""
  }

  /** After the loop: any error raises one ValidationError holding all of
      them, one per line, the missing-parameter message last. */
  function Finish(acc: Acc, paramType: string): (r: Result<Dict<Val>>)
    ensures r.Ok? <==> acc.errors == [] && acc.missing == []
    ensures r.Ok? ==> r.value == acc.typed
  {
    var errors := acc.errors + if acc.missing != [] then [MissingMessage(acc.missing, paramType)] else [];
    if errors != [] then Err("ValidationError: " + JoinWith(errors, "\n")) else Ok(acc.typed)
  }

  /** The outcome of every definition of the schema. */
  function Outcomes(params: Dict<Val>, schema: seq<Param>, castToStr: bool): (os: seq<Outcome>)
    ensures |os| == |schema|
    ensures forall i :: 0 <= i < |schema| ==> os[i] == ApplyOne(params, schema[i], castToStr)
  {
    seq(|schema|, i requires 0 <= i < |schema| => ApplyOne(params, schema[i], castToStr))
  }

  function ApplySchemaSpec(params: Dict<Val>, schema: seq<Param>, paramType: string, castToStr: bool): Result<Dict<Val>> {
    Finish(Fold(schema, Outcomes(params, schema, castToStr)), paramType)
  }

  /** `_apply_schema`. */
  method ApplySchema(params: Dict<Val>, schema: seq<Param>, paramType: string, castToStr: bool)
    returns (r: Result<Dict<Val>>)
    ensures r == ApplySchemaSpec(params, schema, paramType, castToStr)
  {
    ghost var os := Outcomes(params, schema, castToStr);
    var typed: Dict<Val> := Empty();
    var errors: seq<string> := [];
    var missing: seq<Param> := [];
    var i := 0;
    while i < |schema|
      invariant 0 <= i <= |schema|
      invariant Acc(typed, errors, missing) == Fold(schema[..i], os[..i])
    {
      var definition := schema[i];
      FoldSnoc(schema, os, i);
      i := i + 1;
      var value: Val;
      if HasValue(params, definition.name) {
        value := params.m[definition.name];
      } else if definition.default.Some? {
        value := definition.default.value;
      } else {
        if definition.required {
          missing := missing + [definition];
        }
        continue;
      }
      var cast := Cast(definition.ty, value);
      if cast.None? {
        errors := errors + [definition.name + ": expected " + TypeName(definition.ty)];
        continue;
      }
      if definition.choices != [] && cast.value !in definition.choices {
        errors := errors + [definition.name + " must be one of: " + JoinWith(ShowAll(definition.choices), ", ")];
        continue;
      }
      typed := Set(typed, definition.name, if castToStr then Str(Show(cast.value)) else cast.value);
    }
    assert schema[..i] == schema && os[..i] == os;
    ghost var acc := Acc(typed, errors, missing);
    if missing != [] {
      errors := errors + [MissingMessage(missing, paramType)];
    }
    r := if errors != [] then Err("ValidationError: " + JoinWith(errors, "\n")) else Ok(typed);
    assert errors == acc.errors + if acc.missing != [] then [MissingMessage(acc.missing, paramType)] else [];
    assert r == Finish(acc, paramType);
  }

  /** `_apply_schema` on a schema with distinct names: it succeeds exactly
      when no definition is missing or rejected; the typed dict then holds
      the cast value of every definition that has one, and nothing else. */
  lemma ApplySchemaMeaning(params: Dict<Val>, schema: seq<Param>, paramType: string, castToStr: bool)
    requires DistinctNames(schema)
    ensures var r := ApplySchemaSpec(params, schema, paramType, castToStr);
            (r.Ok? <==> forall i :: 0 <= i < |schema| ==> Accepted(ApplyOne(params, schema[i], castToStr)))
            && (r.Ok? ==> r.value.m.Keys <= NameSet(schema))
            && (r.Ok? ==> forall i :: 0 <= i < |schema| ==>
                  var o := ApplyOne(params, schema[i], castToStr);
                  (schema[i].name in r.value.m <==> o.Value?) && (o.Value? ==> r.value.m[schema[i].name] == o.v))
  {
    FoldMeaning(schema, Outcomes(params, schema, castToStr), paramType);
  }

  /** A required parameter with neither a value nor a default makes the
      application fail. */
  lemma MissingRequiredFails(params: Dict<Val>, schema: seq<Param>, paramType: string, castToStr: bool, i: nat)
    requires i < |schema| && schema[i].required
    requires !HasValue(params, schema[i].name) && schema[i].default.None?
    ensures ApplySchemaSpec(params, schema, paramType, castToStr).Err?
  {
    var os := Outcomes(params, schema, castToStr);
    FoldClean(schema, os);
    assert !Accepted(os[i]);
  }

  /** A value outside the declared choices makes the application fail. */
  lemma ChoiceViolationFails(params: Dict<Val>, schema: seq<Param>, paramType: string, castToStr: bool, i: nat)
    requires i < |schema| && schema[i].choices != []
    requires var raw := Raw(params, schema[i]);
             raw.Some? && Cast(schema[i].ty, raw.value).Some? && Cast(schema[i].ty, raw.value).value !in schema[i].choices
    ensures ApplySchemaSpec(params, schema, paramType, castToStr).Err?
  {
    var os := Outcomes(params, schema, castToStr);
    FoldClean(schema, os);
    assert !Accepted(os[i]);
  }

  // ---------------------------------------------------------------------------
  // build

  /** Job parameters that hold none of the typical job keys are really input
      parameters (an input builder called positionally). */
  predicate LooksLikeJob(job: Dict<Val>) {
    "config_start" in job.m || "n_trajec" in job.m || "nodes" in job.m || "time_limit" in job.m
  }

  function Normalize(job: Option<Dict<Val>>, input: Option<Dict<Val>>): (r: (Option<Dict<Val>>, Option<Dict<Val>>))
    ensures job.Some? && input.None? && !LooksLikeJob(job.value) ==> r == (Some(Empty()), job)
    ensures !(job.Some? && input.None? && !LooksLikeJob(job.value)) ==> r == (job, input)
  {
    if job.Some? && input.None? && !LooksLikeJob(job.value) then (Some(Empty()), job) else (job, input)
  }

  /** `d or {}`. */
  function OrEmpty(d: Option<Dict<Val>>): Dict<Val> {
    if d.Some? then d.value else Empty()
  }

  /** The three-layer merge of `build`: job values, then input values, then
      the builder's computed values. */
  function Layered(job: Dict<Val>, input: Dict<Val>, computed: Dict<Val>): (r: Dict<Val>)
    requires job.Valid() && input.Valid() && computed.Valid()
    ensures r.Valid()
  {
    Update(Update(Update(Empty(), job), input), computed)
  }

  /** `ContextBuilder.build`. The builder-specific computed values are a
      parameter; `ensembleFound` says whether the backend knows the ensemble.
      An unknown ensemble is an error, and every computed value reaches the
      context unchanged. */
  function Build(ensembleFound: bool, jobParams: Option<Dict<Val>>, inputParams: Option<Dict<Val>>,
                 jobSchema: Option<seq<Param>>, inputSchema: Option<seq<Param>>, computed: Dict<Val>)
    : (r: Result<Dict<Val>>)
    requires computed.Valid()
    ensures !ensembleFound ==> r == Err("EnsembleNotFoundError")
    ensures r.Ok? ==> forall k :: k in computed.m ==> k in r.value.m && r.value.m[k] == computed.m[k]
  {
    var (job, input) := Normalize(jobParams, inputParams);
    if !ensembleFound then Err("EnsembleNotFoundError")
    else
      var jobValues :- ApplySchemaSpec(OrEmpty(job), DedupSchema(jobSchema), "job", false);
      var inputValues :- ApplySchemaSpec(OrEmpty(input), DedupSchema(inputSchema), "input", true);
      LayeredValues(jobValues, inputValues, computed);
      Ok(Layered(jobValues, inputValues, computed))
  }

  /** Precedence of the merge: computed values beat input values, which beat
      job values. */
  lemma LayeredValues(job: Dict<Val>, input: Dict<Val>, computed: Dict<Val>)
    requires job.Valid() && input.Valid() && computed.Valid()
    ensures Layered(job, input, computed).m == job.m + input.m + computed.m
  {
    var e: Dict<Val> := Empty();
    var d1 := Update(e, job);
    var d2 := Update(d1, input);
    assert Layered(job, input, computed) == Update(d2, computed);
    UpdateValues(d2, computed);
    assert d2.m == job.m + input.m by {
      UpdateValues(d1, input);
      EmptyUpdate(job);
    }
  }

  lemma MapEmptyPlus<V>(m: map<string, V>)
    ensures map[] + m == m
  {
  }

  lemma EmptyUpdate<V>(d: Dict<V>)
    requires d.Valid()
    ensures Update(Empty(), d).m == d.m
  {
    var e: Dict<V> := Empty();
    UpdateValues(e, d);
    MapEmptyPlus(d.m);
  }

  /** What `build` returns: an unknown ensemble fails; otherwise the schemas
      are de-duplicated and applied, and the results layered under the
      computed values. */
  lemma BuildMeaning(ensembleFound: bool, jobParams: Option<Dict<Val>>, inputParams: Option<Dict<Val>>,
                     jobSchema: Option<seq<Param>>, inputSchema: Option<seq<Param>>, computed: Dict<Val>)
    requires computed.Valid()
    ensures var r := Build(ensembleFound, jobParams, inputParams, jobSchema, inputSchema, computed);
            var (job, input) := Normalize(jobParams, inputParams);
            var jv := ApplySchemaSpec(OrEmpty(job), DedupSchema(jobSchema), "job", false);
            var iv := ApplySchemaSpec(OrEmpty(input), DedupSchema(inputSchema), "input", true);
            (r.Ok? <==> ensembleFound && jv.Ok? && iv.Ok?)
            && (r.Ok? ==> r.value.m == jv.value.m + iv.value.m + computed.m)
  {
    var (job, input) := Normalize(jobParams, inputParams);
    var jv := ApplySchemaSpec(OrEmpty(job), DedupSchema(jobSchema), "job", false);
    var iv := ApplySchemaSpec(OrEmpty(input), DedupSchema(inputSchema), "input", true);
    if ensembleFound && jv.Ok? && iv.Ok? {
      LayeredValues(jv.value, iv.value, computed);
    }
  }

  /** The schemas `build` applies have distinct names, so the meaning of
      `_apply_schema` above holds for them. */
  lemma DedupSchemaDistinct(schema: Option<seq<Param>>)
    ensures DistinctNames(DedupSchema(schema))
  {
    if schema.Some? {
      DedupNames(schema.value);
    }
  }
}
