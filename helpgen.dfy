/** `HelpGenerator` (`cli/help_generator.py`): the help text of a parameter
    schema and the legacy validation of string parameters against it. The
    definitions are the same records as the context schemas (`ParamDef` has
    the fields of `ContextParam`). */
module HelpGenerator {
  import opened Wrappers
  import opened Text
  import opened PyDict
  import opened Nested
  import opened Schema

  /** `params.get(definition.name, definition.default)`: a provided string,
      else the default. */
  function Lookup(params: Dict<string>, def: Param): (r: Option<Val>)
    ensures def.name in params.m ==> r == Some(Str(params.m[def.name]))
    ensures def.name !in params.m ==> r == def.default
  {
    if def.name in params.m then Some(Str(params.m[def.name])) else def.default
  }

  /** What the loop of `validate_and_cast` does with one definition. Unlike
      `_apply_schema`, the choices are checked on the value as given, before
      the cast, and a missing required value is an error of its own in
      order. */
  function Judge(params: Dict<string>, def: Param): (o: Outcome)
    ensures !o.MissingReq?
    ensures o.Skip? <==> Lookup(params, def).None? && !def.required
    ensures Lookup(params, def).None? && def.required ==> o == Bad("Missing required parameter: " + def.name)
    ensures o.Value? <==>
              Lookup(params, def).Some?
              && (def.choices == [] || Lookup(params, def).value in def.choices)
              && Cast(def.ty, Lookup(params, def).value).Some?
    ensures o.Value? ==> o.v == Cast(def.ty, Lookup(params, def).value).value
  {
    match Lookup(params, def)
    case None => if def.required then Bad("Missing required parameter: " + def.name) else Skip
    case Some(value) =>
      if def.choices != [] && value !in def.choices then
        Bad(def.name + " must be one of: " + JoinWith(ShowAll(def.choices), ", "))
      else
        match Cast(def.ty, value)
        case None => Bad(def.name + ": expected " + TypeName(def.ty))
        case Some(c) => Value(c)
  }

  function Judgements(params: Dict<string>, schema: seq<Param>): (os: seq<Outcome>)
    ensures |os| == |schema|
    ensures forall i :: 0 <= i < |schema| ==> os[i] == Judge(params, schema[i])
  {
    seq(|schema|, i requires 0 <= i < |schema| => Judge(params, schema[i]))
  }

  /** The result of `validate_and_cast`: all errors, in schema order, raised
      together, else the typed dict. */
  function ValidateSpec(params: Dict<string>, schema: seq<Param>): Result<Dict<Val>> {
    Finish(Fold(schema, Judgements(params, schema)), "")
  }

  /** `validate_and_cast`. */
  method ValidateAndCast(params: Dict<string>, schema: seq<Param>) returns (r: Result<Dict<Val>>)
    ensures r == ValidateSpec(params, schema)
  {
    ghost var os := Judgements(params, schema);
    var typed: Dict<Val> := Empty();
    var errors: seq<string> := [];
    ghost var missing: seq<Param> := [];
    var i := 0;
    while i < |schema|
      invariant 0 <= i <= |schema|
      invariant Acc(typed, errors, missing) == Fold(schema[..i], os[..i])
      invariant missing == []
    {
      var definition := schema[i];
      FoldSnoc(schema, os, i);
      i := i + 1;
      var value := if definition.name in params.m then Some(Str(params.m[definition.name])) else definition.default;
      if definition.required && value.None? {
        errors := errors + ["Missing required parameter: " + definition.name];
        continue;
      }
      if value.None? {
        continue;
      }
      if definition.choices != [] && value.value !in definition.choices {
        errors := errors + [definition.name + " must be one of: " + JoinWith(ShowAll(definition.choices), ", ")];
        continue;
      }
      var cast := Cast(definition.ty, value.value);
      if cast.Some? {
        typed := Set(typed, definition.name, cast.value);
      } else {
        errors := errors + [definition.name + ": expected " + TypeName(definition.ty)];
      }
    }
    assert schema[..i] == schema && os[..i] == os;
    ghost var acc := Acc(typed, errors, missing);
    r := if errors != [] then Err("ValidationError: " + JoinWith(errors, "\n")) else Ok(typed);
    assert errors == acc.errors + if acc.missing != [] then [MissingMessage(acc.missing, "")] else [];
    assert r == Finish(acc, "");
  }

  /** On a schema with distinct names, validation succeeds exactly when no
      definition yields an error, and the typed dict then holds the cast
      value of every definition that has a value, and nothing else. */
  lemma ValidateMeaning(params: Dict<string>, schema: seq<Param>)
    requires DistinctNames(schema)
    ensures var r := ValidateSpec(params, schema);
            (r.Ok? <==> forall i :: 0 <= i < |schema| ==> Accepted(Judge(params, schema[i])))
            && (r.Ok? ==> r.value.m.Keys <= NameSet(schema))
            && (r.Ok? ==> forall i :: 0 <= i < |schema| ==>
                  var o := Judge(params, schema[i]);
                  (schema[i].name in r.value.m <==> o.Value?) && (o.Value? ==> r.value.m[schema[i].name] == o.v))
  {
    FoldMeaning(schema, Judgements(params, schema), "");
  }

  /** The choices are compared with the raw string: an integer parameter
      whose choices are integers rejects every provided value, even one
      whose cast is among the choices, while `_apply_schema` accepts it. */
  lemma RawChoicesDiffer(name: string, n: int)
    ensures var def := Param(name, TInt, false, None, "", [Scalar(IntToString(n))]);
            Judge(Set(Empty(), name, IntToString(n)), def).Bad?
            && ApplyOne(Set(Empty(), name, Str(IntToString(n))), def, false) == Value(Scalar(IntToString(n)))
  {
    CastIntRoundTrip(n);
    RawChoiceRefused(name, n);
  }

  lemma RawChoiceRefused(name: string, n: int)
    ensures var def := Param(name, TInt, false, None, "", [Scalar(IntToString(n))]);
            Judge(Set(Empty(), name, IntToString(n)), def).Bad?
  {
    var def := Param(name, TInt, false, None, "", [Scalar(IntToString(n))]);
    var params := Set(Empty(), name, IntToString(n));
    assert Lookup(params, def) == Some(Str(IntToString(n)));
    assert Str(IntToString(n)) !in def.choices;
  }

  // ---------------------------------------------------------------------------
  // help text

  /** The parts of one help line: name and help, then the markers that
      apply. */
  function Parts(p: Param): (parts: seq<string>)
    ensures |parts| == 1 + (if p.required then 1 else 0) + (if p.default.Some? then 1 else 0)
                         + (if p.choices != [] then 1 else 0)
    ensures parts[0] == "  " + p.name + ": " + p.help
    ensures ("(required)" in parts) <==> p.required
  {
    var head := "  " + p.name + ": " + p.help;
    var req := if p.required then ["(required)"] else [];
    var def := if p.default.Some? then ["[default: " + Show(p.default.value) + "]"] else [];
    var ch := if p.choices != [] then ["[choices: " + JoinWith(ShowAll(p.choices), ", ") + "]"] else [];
    var parts := [head] + req + def + ch;
    assert head[0] == ' ';
    assert forall x :: x in def ==> x[0] == '[';
    assert forall x :: x in ch ==> x[0] == '[';
    parts
  }

  function HelpLine(p: Param): string {
    JoinWith(Parts(p), " ")
  }

  /** The lines of the help text: a heading, then one line per parameter. */
  function HelpLines(schema: seq<Param>, heading: string): (lines: seq<string>)
    ensures |lines| == |schema| + 1 && lines[0] == "\n" + heading + ":"
    ensures forall i :: 0 <= i < |schema| ==> lines[i + 1] == HelpLine(schema[i])
  {
    ["\n" + heading + ":"] + seq(|schema|, i requires 0 <= i < |schema| => HelpLine(schema[i]))
  }

  /** `generate_help`: the empty string for an empty schema. */
  method GenerateHelp(schema: seq<Param>, heading: string) returns (text: string)
    ensures schema == [] ==> text == ""
    ensures schema != [] ==> text == JoinWith(HelpLines(schema, heading), "\n")
  {
    if schema == [] {
      return "";
    }
    var lines := ["\n" + heading + ":"];
    var i := 0;
    while i < |schema|
      invariant 0 <= i <= |schema|
      invariant lines == HelpLines(schema, heading)[..i + 1]
    {
      lines := lines + [HelpLine(schema[i])];
      i := i + 1;
    }
    assert lines == HelpLines(schema, heading);
    text := JoinWith(lines, "\n");
  }
}
