/** The per-ensemble operation configuration (`config.py`): a YAML tree of
    operation type → variant → parameter strings, and the merge of a stored
    parameter string with the one given on the command line. */
module Config {
  import opened Wrappers
  import opened Text
  import opened PyDict
  import opened Nested
  import opened Params

  // ---------------------------------------------------------------------------
  // merge_params

  /** `parse_params`: `{}` for an empty string, otherwise the `key=value`
      tokens of the stripped string, split at their first `=`. */
  function ParseParams(s: string): (d: Dict<string>)
    ensures d.Valid() && Clean(d)
  {
    if s == [] then
      var e: Dict<string> := Empty();
      assert e.m == map[];
      e
    else
      var t := Strip(s);
      ParseWords(t)
  }

  /** `merge_params`: the command-line values override the stored ones and
      the result is written back as `key=value` tokens, which read back as
      the stored dict updated by the command-line one. */
  function MergeParams(configParams: string, cliParams: string): (r: string)
    ensures ParseParams(r) == Update(ParseParams(configParams), ParseParams(cliParams))
  {
    var c := ParseParams(configParams);
    var l := ParseParams(cliParams);
    UpdateClean(c, l);
    ParseParamsRender(Update(c, l));
    Render(Update(c, l))
  }

  lemma UpdateClean(d: Dict<string>, e: Dict<string>)
    requires d.Valid() && e.Valid() && Clean(d) && Clean(e)
    ensures Clean(Update(d, e))
  {
    UpdateValues(d, e);
  }

  /** Reading back a written clean dict gives it back. */
  lemma ParseParamsRender(d: Dict<string>)
    requires d.Valid() && Clean(d)
    ensures ParseParams(Render(d)) == d
  {
    if d.keys == [] {
      assert d.m == map[];
    } else {
      TokensWords(d);
      JoinEnds(Tokens(d), ' ');
      StripNoSpace(Render(d));
    }
  }

  /** The merged string reads back as the stored parameters overridden by the
      command-line ones: every key of either side is kept, a clash takes the
      command-line value, and the stored keys come first. */
  lemma MergeParamsMeaning(configParams: string, cliParams: string)
    ensures var c := ParseParams(configParams); var l := ParseParams(cliParams);
            ParseParams(MergeParams(configParams, cliParams)) == Update(c, l)
            && Update(c, l).m == c.m + l.m
            && Update(c, l).keys == c.keys + Fresh(l.keys, c.m.Keys)
  {
    var c := ParseParams(configParams);
    var l := ParseParams(cliParams);
    UpdateClean(c, l);
    ParseParamsRender(Update(c, l));
    UpdateValues(c, l);
    UpdateKeys(c, l);
  }

  /** Two empty strings merge to the empty string. */
  lemma MergeParamsEmpty()
    ensures MergeParams("", "") == ""
  {
    assert Update(ParseParams(""), ParseParams("")).keys == [];
  }

  // ---------------------------------------------------------------------------
  // the operation tree

  /** `{}` as a value. */
  function EmptyMap(): (v: Val)
    ensures Good(v)
  {
    Map(Empty())
  }

  /** `get_operation_config`: the variant's entry when a variant is asked
      for and present; the whole operation entry when none is asked for;
      `{}` otherwise. An empty `mode` is Python's falsy mode. */
  function GetOperationConfig(config: Dict<Val>, operationType: string, mode: string): (r: Val)
    ensures r == EmptyMap()
            || (operationType in config.m && config.m[operationType].Map?
                && if mode == [] then r == config.m[operationType]
                   else mode in config.m[operationType].d.m && r == config.m[operationType].d.m[mode])
    ensures mode != [] && operationType in config.m && config.m[operationType].Map?
            && mode in config.m[operationType].d.m
            ==> r == config.m[operationType].d.m[mode]
    ensures GoodDict(config) ==> Good(r)
  {
    if operationType !in config.m then EmptyMap()
    else
      var op := config.m[operationType];
      if mode != [] && op.Map? && mode in op.d.m then
        if GoodDict(config) then GoodChild(config, operationType); op.d.m[mode] else op.d.m[mode]
      else if mode == [] && op.Map? then op
      else EmptyMap()
  }

  /** `variant_config[key] = value` when the value is given. */
  function SetIfGiven(d: Dict<Val>, key: string, value: Option<string>): (r: Dict<Val>)
    requires GoodDict(d)
    ensures GoodDict(r)
    ensures value.None? ==> r == d
    ensures value.Some? ==> r.m == d.m[key := Str(value.value)]
  {
    match value
    case None => d
    case Some(s) => Set(d, key, Str(s))
  }

  const XmlParamsKey := "xml_params"
  const JobParamsKey := "job_params"
  const ParamsKey := "params"
  const OperationNotDict := "TypeError: operation entry is not a dict"
  const VariantNotDict := "TypeError: variant entry is not a dict"

  /** The variant's entries after the three assignments. */
  function SetFields(v: Dict<Val>, xmlParams: Option<string>, jobParams: Option<string>,
                     params: Option<string>): (r: Dict<Val>)
    requires GoodDict(v)
    ensures GoodDict(r)
    ensures forall k :: k in r.m <==> k in v.m || (k == XmlParamsKey && xmlParams.Some?)
                                      || (k == JobParamsKey && jobParams.Some?) || (k == ParamsKey && params.Some?)
    ensures xmlParams.Some? ==> r.m[XmlParamsKey] == Str(xmlParams.value)
    ensures jobParams.Some? ==> r.m[JobParamsKey] == Str(jobParams.value)
    ensures params.Some? ==> r.m[ParamsKey] == Str(params.value)
    ensures forall k :: k in v.m && k != XmlParamsKey && k != JobParamsKey && k != ParamsKey ==> r.m[k] == v.m[k]
  {
    SetIfGiven(SetIfGiven(SetIfGiven(v, XmlParamsKey, xmlParams), JobParamsKey, jobParams), ParamsKey, params)
  }

  /** `save_operation_config` up to the file write: the operation and the
      variant are created as `{}` when missing, then each given parameter
      string is set. Item access on a non-dict entry raises TypeError, which
      happens for a non-dict operation entry and, when something is to be
      set, for a non-dict variant entry. */
  function SaveOperationConfig(config: Dict<Val>, operationType: string, variant: string,
                               xmlParams: Option<string>, jobParams: Option<string>,
                               params: Option<string>): (r: Result<Dict<Val>>)
    requires GoodDict(config)
    ensures r.Ok? ==> GoodDict(r.value)
  {
    var op := if operationType in config.m then config.m[operationType] else EmptyMap();
    if !op.Map? then Err(OperationNotDict)
    else
      assert GoodDict(op.d) by { if operationType in config.m { GoodChild(config, operationType); } }
      var v := if variant in op.d.m then op.d.m[variant] else EmptyMap();
      if !v.Map? then
        if xmlParams.None? && jobParams.None? && params.None? then Ok(config)
        else Err(VariantNotDict)
      else
        assert GoodDict(v.d) by { if variant in op.d.m { GoodChild(op.d, variant); } }
        var newOp := Set(op.d, variant, Map(SetFields(v.d, xmlParams, jobParams, params)));
        assert GoodDict(newOp) by { assert Good(Map(SetFields(v.d, xmlParams, jobParams, params))); }
        Ok(Set(config, operationType, Map(newOp)))
  }

  /** Reading the variant back after a save that set something gives the
      strings just saved. */
  lemma SaveThenGet(config: Dict<Val>, operationType: string, variant: string,
                    xmlParams: Option<string>, jobParams: Option<string>, params: Option<string>)
    requires GoodDict(config) && variant != []
    requires SaveOperationConfig(config, operationType, variant, xmlParams, jobParams, params).Ok?
    requires xmlParams.Some? || jobParams.Some? || params.Some?
    ensures var saved := SaveOperationConfig(config, operationType, variant, xmlParams, jobParams, params).value;
            var got := GetOperationConfig(saved, operationType, variant);
            got.Map?
            && (xmlParams.Some? ==> got.d.m[XmlParamsKey] == Str(xmlParams.value))
            && (jobParams.Some? ==> got.d.m[JobParamsKey] == Str(jobParams.value))
            && (params.Some? ==> got.d.m[ParamsKey] == Str(params.value))
  {
    var op := if operationType in config.m then config.m[operationType] else EmptyMap();
    var v := if variant in op.d.m then op.d.m[variant] else EmptyMap();
    assert GoodDict(op.d) by { if operationType in config.m { GoodChild(config, operationType); } }
    assert GoodDict(v.d) by { if variant in op.d.m { GoodChild(op.d, variant); } }
    var fields := SetFields(v.d, xmlParams, jobParams, params);
    var saved := SaveOperationConfig(config, operationType, variant, xmlParams, jobParams, params).value;
    assert saved.m[operationType] == Map(Set(op.d, variant, Map(fields)));
    assert GetOperationConfig(saved, operationType, variant) == Map(fields);
  }

  /** A save touches nothing outside its operation and variant, and inside
      the variant nothing but the three parameter keys. */
  lemma SaveFrame(config: Dict<Val>, operationType: string, variant: string,
                  xmlParams: Option<string>, jobParams: Option<string>, params: Option<string>,
                  otherOp: string, otherVariant: string)
    requires GoodDict(config)
    requires SaveOperationConfig(config, operationType, variant, xmlParams, jobParams, params).Ok?
    ensures var saved := SaveOperationConfig(config, operationType, variant, xmlParams, jobParams, params).value;
            (otherOp != operationType ==> Get(saved, otherOp) == Get(config, otherOp))
            && (otherVariant != variant && operationType in config.m && config.m[operationType].Map? ==>
                  saved.m[operationType].Map?
                  && Get(saved.m[operationType].d, otherVariant) == Get(config.m[operationType].d, otherVariant))
  {
  }

  // ---------------------------------------------------------------------------
  // validate_config

  const KnownOps: seq<string> := ["hmc", "smearing", "meson_2pt", "wit"]
  const HmcModes: seq<string> := ["tepid", "continue", "reseed"]
  const ExpectedParams: seq<string> := [XmlParamsKey, JobParamsKey]

  /** The parameter entries of one HMC mode that are present are strings. */
  function ParamsAreStrings(mode: Dict<Val>, ps: seq<string>): bool {
    if ps == [] then true
    else (ps[0] !in mode.m || mode.m[ps[0]].Str?) && ParamsAreStrings(mode, ps[1..])
  }

  /** The loop over the HMC modes. */
  function CheckHmcModes(hmc: Dict<Val>, ks: seq<string>): bool
    requires forall k :: k in ks ==> k in hmc.m
  {
    if ks == [] then true
    else
      var ok := ks[0] !in HmcModes ||
                (hmc.m[ks[0]].Map? && ParamsAreStrings(hmc.m[ks[0]].d, ExpectedParams));
      ok && CheckHmcModes(hmc, ks[1..])
  }

  /** The loop over the operations. */
  function CheckOps(config: Dict<Val>, ks: seq<string>): bool
    requires forall k :: k in ks ==> k in config.m
  {
    if ks == [] then true
    else
      var op := config.m[ks[0]];
      var ok := ks[0] !in KnownOps ||
                (op.Map? && (ks[0] != "hmc" || (op.d.Valid() && CheckHmcModes(op.d, op.d.keys))));
      ok && CheckOps(config, ks[1..])
  }

  /** `validate_config`: it holds exactly when the configuration is a dict
      whose known operations are dicts and whose HMC modes are dicts holding
      only string parameter entries. */
  function ValidateConfig(config: Val): (r: bool)
    ensures Good(config) ==> (r <==> config.Map? && forall k :: k in config.d.m ==> OpOk(k, config.d.m[k]))
  {
    if !config.Map? then false
    else if Good(config) then
      CheckOpsGood(config.d);
      config.d.Valid() && CheckOps(config.d, config.d.keys)
    else config.d.Valid() && CheckOps(config.d, config.d.keys)
  }

  /** The rules `validate_config` checks, stated per entry. */
  predicate ModeOk(mode: Val) {
    mode.Map? && forall p :: p in ExpectedParams && p in mode.d.m ==> mode.d.m[p].Str?
  }

  predicate OpOk(name: string, op: Val) {
    name in KnownOps ==>
      op.Map? && (name == "hmc" ==> forall m :: m in HmcModes && m in op.d.m ==> ModeOk(op.d.m[m]))
  }

  lemma {:induction false} ParamsAreStringsMeaning(mode: Dict<Val>, ps: seq<string>)
    ensures ParamsAreStrings(mode, ps) <==> forall p :: p in ps && p in mode.m ==> mode.m[p].Str?
  {
    if ps != [] {
      ParamsAreStringsMeaning(mode, ps[1..]);
    }
  }

  lemma {:induction false} CheckHmcModesMeaning(hmc: Dict<Val>, ks: seq<string>)
    requires forall k :: k in ks ==> k in hmc.m
    ensures CheckHmcModes(hmc, ks) <==> forall m :: m in HmcModes && m in ks ==> ModeOk(hmc.m[m])
  {
    if ks != [] {
      CheckHmcModesMeaning(hmc, ks[1..]);
      if hmc.m[ks[0]].Map? {
        ParamsAreStringsMeaning(hmc.m[ks[0]].d, ExpectedParams);
      }
    }
  }

  lemma {:induction false} CheckOpsMeaning(config: Dict<Val>, ks: seq<string>)
    requires forall k :: k in ks ==> k in config.m
    requires forall k :: k in ks && config.m[k].Map? ==> config.m[k].d.Valid()
    ensures CheckOps(config, ks) <==> forall k :: k in ks ==> OpOk(k, config.m[k])
  {
    if ks != [] {
      CheckOpsMeaning(config, ks[1..]);
      var op := config.m[ks[0]];
      if ks[0] == "hmc" && op.Map? {
        CheckHmcModesMeaning(op.d, op.d.keys);
      }
    }
  }

  /** The operation loop over a well-formed configuration checks every
      entry against the rules. */
  lemma CheckOpsGood(config: Dict<Val>)
    requires GoodDict(config)
    ensures CheckOps(config, config.keys) <==> forall k :: k in config.m ==> OpOk(k, config.m[k])
  {
    forall k | k in config.keys && config.m[k].Map? ensures config.m[k].d.Valid() {
      GoodChild(config, k);
    }
    CheckOpsMeaning(config, config.keys);
  }
}
