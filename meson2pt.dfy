/** The checks `generate_meson2pt_sbatch` (`jobs/meson2pt.py`) makes before it
    writes anything: the process grid, the lattice it must tile, and the
    configuration range read from the WIT parameter changes. */
module Meson2pt {
  import opened Wrappers
  import opened Text
  import opened PyDict
  import opened Nested
  import opened Geometry
  import Validators
  import Params
  import SlurmTrap

  /** The `ogeom` argument: not given, a list of integers, or a string. */
  datatype OgeomArg = Unset | Listed(vals: seq<int>) | Written(text: string)

  /** The parts that are not blank after stripping, in order. */
  function NonBlank(parts: seq<string>): (r: seq<string>)
    ensures forall x :: x in r <==> x in parts && Strip(x) != []
  {
    if parts == [] then []
    else if Strip(parts[0]) != [] then [parts[0]] + NonBlank(parts[1..])
    else NonBlank(parts[1..])
  }

  /** The grid as a list: a string is split on commas when it has one and on
      whitespace otherwise, and its non-blank parts are read as integers. */
  function OgeomValues(arg: OgeomArg): Option<seq<int>>
    requires !arg.Unset?
  {
    match arg
    case Listed(vals) => Some(vals)
    case Written(text) =>
      var s := Strip(text);
      var parts := if ',' in s then Split(s, ',') else SplitWs(s);
      ParseInts(NonBlank(parts))
  }

  /** The normalised `ogeom`: `[1,1,1,4]` when not given, otherwise four
      positive integers or a ValueError. */
  function NormalizeOgeom(arg: OgeomArg): (r: Result<seq<int>>)
    ensures r.Ok? ==> |r.value| == 4 && AllPositive(r.value)
    ensures arg.Unset? ==> r == Ok([1, 1, 1, 4])
    ensures !arg.Unset? ==> (r.Ok? <==> OgeomValues(arg).Some? && |OgeomValues(arg).value| == 4
                                        && AllPositive(OgeomValues(arg).value))
    ensures !arg.Unset? && r.Ok? ==> r.value == OgeomValues(arg).value
  {
    if arg.Unset? then Ok([1, 1, 1, 4])
    else
      match OgeomValues(arg)
      case None => Err("ValueError: invalid literal for int()")
      case Some(vals) =>
        if |vals| != 4 || exists i :: 0 <= i < |vals| && vals[i] <= 0 then
          Err("ValueError: ogeom must have 4 positive integers")
        else Ok(vals)
  }

  lemma NonBlankNumerals(xs: seq<int>)
    ensures NonBlank(Numerals(xs)) == Numerals(xs)
  {
    var ns := Numerals(xs);
    forall i | 0 <= i < |ns| ensures Strip(ns[i]) == ns[i] {
      StripNoSpace(ns[i]);
    }
    NonBlankKeeps(ns);
  }

  lemma {:induction false} NonBlankKeeps(parts: seq<string>)
    requires forall i :: 0 <= i < |parts| ==> Strip(parts[i]) == parts[i] && parts[i] != []
    ensures NonBlank(parts) == parts
  {
    if parts != [] {
      NonBlankKeeps(parts[1..]);
    }
  }

  /** A grid written with commas is read back. */
  lemma NormalizeOgeomCommas(ogeom: seq<int>)
    requires |ogeom| == 4 && AllPositive(ogeom)
    ensures NormalizeOgeom(Written(Join(Numerals(ogeom), ','))) == Ok(ogeom)
  {
    var ns := Numerals(ogeom);
    var j := Join(ns, ',');
    forall i | 0 <= i < |ns| ensures ns[i] != [] && NoSpace(ns[i]) && ',' !in ns[i] {
      NumeralHasNo(ogeom[i], ',');
    }
    JoinEnds(ns, ',');
    StripNoSpace(j);
    assert j[|ns[0]|] == ',' by { JoinCons(ns, ','); }
    SplitJoin(ns, ',');
    NonBlankNumerals(ogeom);
    ParseIntsNumerals(ogeom);
  }

  /** A grid written with spaces is read back. */
  lemma NormalizeOgeomSpaces(ogeom: seq<int>)
    requires |ogeom| == 4 && AllPositive(ogeom)
    ensures NormalizeOgeom(Written(Join(Numerals(ogeom), ' '))) == Ok(ogeom)
  {
    var ns := Numerals(ogeom);
    var j := Join(ns, ' ');
    forall i | 0 <= i < |ns| ensures ns[i] != [] && NoSpace(ns[i]) && ',' !in ns[i] {
      NumeralHasNo(ogeom[i], ',');
    }
    JoinEnds(ns, ' ');
    StripNoSpace(j);
    JoinWithout(ns, ' ', ',');
    SplitWsJoin(ns);
    NonBlankNumerals(ogeom);
    ParseIntsNumerals(ogeom);
  }

  lemma {:induction false} JoinWithout(ns: seq<string>, sep: char, c: char)
    requires c != sep && forall i :: 0 <= i < |ns| ==> c !in ns[i]
    ensures c !in Join(ns, sep)
  {
    if |ns| > 1 {
      JoinWithout(ns[1..], sep, c);
      JoinCons(ns, sep);
    }
  }

  /** The local lattice for the grid: the grid must use `4 * nodes` ranks,
      divide `L` and `T` exactly and leave an even local extent in every
      direction. */
  function Meson2ptGeometry(L: int, T: int, nodes: int, arg: OgeomArg): (r: Result<seq<int>>)
    ensures r.Ok? ==> NormalizeOgeom(arg).Ok? && Product(NormalizeOgeom(arg).value) == 4 * nodes
    ensures r.Ok? ==> |r.value| == 4 && forall i :: 0 <= i < 4 ==>
              r.value[i] * NormalizeOgeom(arg).value[i] == Extent(L, T, i) && r.value[i] % 2 == 0
  {
    match NormalizeOgeom(arg)
    case Err(e) => Err(e)
    case Ok(o) =>
      if Product(o) != 4 * nodes then
        Err("ValueError: Invalid ogeom: product must equal 4*nodes")
      else if L % o[0] != 0 || L % o[1] != 0 || L % o[2] != 0 || T % o[3] != 0 then
        Err("ValueError: ogeom does not evenly divide lattice")
      else
        var lgeom := [L / o[0], L / o[1], L / o[2], T / o[3]];
        if exists i :: 0 <= i < 4 && lgeom[i] % 2 != 0 then
          Err("ValueError: lgeom values must be even")
        else
          DivMul(L, o[0]); DivMul(L, o[1]); DivMul(L, o[2]); DivMul(T, o[3]);
          Ok(lgeom)
  }

  lemma DivMul(a: int, b: int)
    requires b > 0 && a % b == 0
    ensures (a / b) * b == a
  {
    assert a == b * (a / b) + a % b;
  }

  /** The grid check here accepts exactly what `validate_geometry` accepts
      among grids with `4 * nodes` ranks, and derives the same local lattice. */
  lemma Meson2ptAgreesWithValidateGeometry(L: int, T: int, nodes: int, ogeom: seq<int>)
    requires |ogeom| == 4 && AllPositive(ogeom)
    ensures Meson2ptGeometry(L, T, nodes, Listed(ogeom)).Ok? <==>
            Product(ogeom) == 4 * nodes && ValidateGeometry(L, T, ogeom).Ok?
    ensures Meson2ptGeometry(L, T, nodes, Listed(ogeom)).Ok? ==>
            Meson2ptGeometry(L, T, nodes, Listed(ogeom)).value == ValidateGeometry(L, T, ogeom).value
  {
    ValidateGeometryExact(L, T, ogeom);
    assert Extent(L, T, 0) == L && Extent(L, T, 1) == L && Extent(L, T, 2) == L && Extent(L, T, 3) == T;
  }

  /** `int(p['L'])` and `int(p['T'])`, both positive, or the RuntimeError. */
  function LatticeDims(p: map<string, string>): (r: Result<(int, int)>)
    ensures r.Ok? <==> "L" in p && "T" in p && ParseInt(p["L"]).Some? && ParseInt(p["T"]).Some?
                       && ParseInt(p["L"]).value > 0 && ParseInt(p["T"]).value > 0
    ensures r.Ok? ==> Some(r.value.0) == ParseInt(p["L"]) && Some(r.value.1) == ParseInt(p["T"])
  {
    var L := if "L" in p then ParseInt(p["L"]) else None;
    var T := if "T" in p then ParseInt(p["T"]) else None;
    if L.None? || T.None? || L.value <= 0 || T.value <= 0 then
      Err("RuntimeError: Failed to get lattice dimensions from ensemble parameters")
    else Ok((L.value, T.value))
  }

  /** `int(v)` for a value read from the parameter changes: a string or
      integer literal; a dict raises. */
  function IntOfVal(v: Val): Option<int> {
    match v
    case Str(s) => ParseInt(s)
    case Scalar(t) => ParseInt(t)
    case Map(_) => None
  }

  /** `(custom_changes or {}).get('Configurations', {})`. */
  function ConfigSection(custom: Dict<Val>): Val {
    if "Configurations" in custom.m then custom.m["Configurations"] else Map(Empty())
  }

  /** `first`, `last` and `step` (4 when absent) read as integers from the
      section; `None` when the section is not a dict or a value is missing or
      not an integer. */
  function RangeOf(section: Val): (r: Option<(int, int, int)>)
    ensures r.Some? ==> section.Map? && "first" in section.d.m && "last" in section.d.m
    ensures r.Some? ==> var cfg := section.d.m;
              IntOfVal(cfg["first"]) == Some(r.value.0) && IntOfVal(cfg["last"]) == Some(r.value.1)
              && (if "step" in cfg then IntOfVal(cfg["step"]) == Some(r.value.2) else r.value.2 == 4)
  {
    if !section.Map? || "first" !in section.d.m || "last" !in section.d.m then None
    else
      var cfg := section.d.m;
      var first := IntOfVal(cfg["first"]);
      var last := IntOfVal(cfg["last"]);
      var step := if "step" in cfg then IntOfVal(cfg["step"]) else Some(4);
      if first.None? || last.None? || step.None? then None
      else Some((first.value, last.value, step.value))
  }

  const ConfigRangeError := "ValueError: WIT parameters must include Configurations.first, Configurations.last, and Configurations.step"

  /** The configuration range of the user's WIT changes, or the ValueError
      every failure to read it turns into. */
  function ConfigRange(custom: Dict<Val>): (r: Result<(int, int, int)>)
    ensures r.Ok? <==> RangeOf(ConfigSection(custom)).Some?
    ensures r.Ok? ==> r.value == RangeOf(ConfigSection(custom)).value
  {
    match RangeOf(ConfigSection(custom))
    case None => Err(ConfigRangeError)
    case Some(range) => Ok(range)
  }

  /** A section holding `first` and `last` numerals and no `step` gives that
      range with the default step of 4. */
  lemma RangeOfDefaultStep(first: int, last: int)
    ensures RangeOf(Map(Set(Set(Empty(), "first", Str(IntToString(first))), "last", Str(IntToString(last)))))
            == Some((first, last, 4))
  {
    ParseIntToString(first);
    ParseIntToString(last);
    RangeOfTwo(Str(IntToString(first)), Str(IntToString(last)), first, last);
  }

  lemma RangeOfTwo(a: Val, b: Val, first: int, last: int)
    requires IntOfVal(a) == Some(first) && IntOfVal(b) == Some(last)
    ensures RangeOf(Map(Set(Set(Empty(), "first", a), "last", b))) == Some((first, last, 4))
  {
    var cfg := Set(Set(Empty(), "first", a), "last", b);
    TwoFields(a, b);
    RangeOfFields(cfg, a, b, first, last);
  }

  lemma TwoFields(a: Val, b: Val)
    ensures var cfg := Set(Set(Empty(), "first", a), "last", b);
            "first" in cfg.m && cfg.m["first"] == a && "last" in cfg.m && cfg.m["last"] == b && "step" !in cfg.m
  {
    assert "first" != "last" && "step" != "first" && "step" != "last";
  }

  lemma RangeOfFields(d: Dict<Val>, a: Val, b: Val, first: int, last: int)
    requires IntOfVal(a) == Some(first) && IntOfVal(b) == Some(last)
    requires "first" in d.m && d.m["first"] == a && "last" in d.m && d.m["last"] == b && "step" !in d.m
    ensures RangeOf(Map(d)) == Some((first, last, 4))
  {
  }

  /** The batch script path: `output_file` when given (non-empty), else
      `<ensemble dir>/slurm/meson2pt_<first>_<last>.sh`. */
  function ScriptPath(ensembleDir: string, outputFile: string, start: int, end: int): (path: string)
    ensures outputFile != [] ==> path == outputFile
    ensures outputFile == [] ==> StartsWith(path, ensembleDir + "/slurm/meson2pt_")
  {
    if outputFile != [] then outputFile
    else
      var prefix := ensembleDir + "/slurm/meson2pt_";
      var path := prefix + IntToString(start) + "_" + IntToString(end) + ".sh";
      assert path[..|prefix|] == prefix;
      path
  }

  const MassKeys: seq<string> := ["ml", "ms", "mc"]

  /** The mass `k` is present and reads as a float above zero (decimal
      text, whitespace around it allowed). */
  predicate MassOk(p: map<string, string>, k: string) {
    k in p && Validators.PositiveDecimal(Strip(p[k]))
  }

  /** The quark masses: `ml`, `ms` and `mc` must each pass. */
  function QuarkMasses(p: map<string, string>): (r: Result<()>)
    ensures r.Ok? <==> forall k :: k in MassKeys ==> MassOk(p, k)
  {
    if forall k :: k in MassKeys ==> MassOk(p, k) then Ok(())
    else Err("RuntimeError: Failed to get quark masses (ml, ms, mc) from ensemble parameters")
  }

  /** `params_str`: the range as the three `key=value` words the exit trap
      of the batch script reads back. */
  function RangeParams(first: int, last: int, step: int): string {
    Join([SlurmTrap.Word(SlurmTrap.StartKey, IntToString(first)), SlurmTrap.Word(SlurmTrap.EndKey, IntToString(last)),
          SlurmTrap.Word(SlurmTrap.IncrementKey, IntToString(step))], ' ')
  }

  /** The parameter text splits into three words that read back as the
      `config_start`, `config_end` and `config_increment` keys with the
      numerals of the range, and those numerals as the range itself. */
  lemma RangeParamsRead(first: int, last: int, step: int)
    ensures var ws := SplitWs(RangeParams(first, last, step));
            |ws| == 3
            && Params.Kv(ws[0]) == Some((SlurmTrap.StartKey, IntToString(first)))
            && Params.Kv(ws[1]) == Some((SlurmTrap.EndKey, IntToString(last)))
            && Params.Kv(ws[2]) == Some((SlurmTrap.IncrementKey, IntToString(step)))
    ensures ParseInt(IntToString(first)) == Some(first) && ParseInt(IntToString(last)) == Some(last)
            && ParseInt(IntToString(step)) == Some(step)
  {
    var a, b, c := IntToString(first), IntToString(last), IntToString(step);
    var ws := [SlurmTrap.Word(SlurmTrap.StartKey, a), SlurmTrap.Word(SlurmTrap.EndKey, b),
               SlurmTrap.Word(SlurmTrap.IncrementKey, c)];
    SlurmTrap.RangeKeysClean();
    SlurmTrap.WordClean(SlurmTrap.StartKey, a);
    SlurmTrap.WordClean(SlurmTrap.EndKey, b);
    SlurmTrap.WordClean(SlurmTrap.IncrementKey, c);
    SplitWsJoin(ws);
    Params.KvToken(SlurmTrap.StartKey, a);
    Params.KvToken(SlurmTrap.EndKey, b);
    Params.KvToken(SlurmTrap.IncrementKey, c);
    ParseIntToString(first);
    ParseIntToString(last);
    ParseIntToString(step);
  }

  datatype Plan = Plan(lgeom: seq<int>, first: int, last: int, step: int, script: string, paramsText: string)

  const MailUserError := "ValueError: mail_user is required"

  /** The checks of `generate_meson2pt_sbatch`, in its order, and the
      script path and parameter text that follow from them: `mail_user` is
      required, then the lattice, the quark masses, the grid and the
      configuration range; the first failure is the result. Reading the
      ensemble record and writing the script are not part of it. */
  function Meson2ptPlan(mailUser: Option<string>, p: map<string, string>, nodes: int, arg: OgeomArg,
                        custom: Dict<Val>, ensembleDir: string, outputFile: string): (r: Result<Plan>)
    ensures r.Ok? <==>
              mailUser.Some? && LatticeDims(p).Ok? && QuarkMasses(p).Ok?
              && Meson2ptGeometry(LatticeDims(p).value.0, LatticeDims(p).value.1, nodes, arg).Ok?
              && ConfigRange(custom).Ok?
    ensures mailUser.None? ==> r == Err(MailUserError)
    ensures mailUser.Some? && LatticeDims(p).Err? ==> r == Err(LatticeDims(p).msg)
    ensures mailUser.Some? && LatticeDims(p).Ok? && QuarkMasses(p).Err? ==> r == Err(QuarkMasses(p).msg)
    ensures mailUser.Some? && LatticeDims(p).Ok? && QuarkMasses(p).Ok?
            && Meson2ptGeometry(LatticeDims(p).value.0, LatticeDims(p).value.1, nodes, arg).Err?
            ==> r == Err(Meson2ptGeometry(LatticeDims(p).value.0, LatticeDims(p).value.1, nodes, arg).msg)
    ensures mailUser.Some? && LatticeDims(p).Ok? && QuarkMasses(p).Ok?
            && Meson2ptGeometry(LatticeDims(p).value.0, LatticeDims(p).value.1, nodes, arg).Ok?
            && ConfigRange(custom).Err?
            ==> r == Err(ConfigRangeError)
    ensures r.Ok? ==> var dims := LatticeDims(p).value;
                      Meson2ptGeometry(dims.0, dims.1, nodes, arg) == Ok(r.value.lgeom)
    ensures r.Ok? ==> (r.value.first, r.value.last, r.value.step) == ConfigRange(custom).value
    ensures r.Ok? ==> r.value.script == ScriptPath(ensembleDir, outputFile, r.value.first, r.value.last)
    ensures r.Ok? ==> r.value.paramsText == RangeParams(r.value.first, r.value.last, r.value.step)
  {
    if mailUser.None? then Err(MailUserError)
    else if LatticeDims(p).Err? then Err(LatticeDims(p).msg)
    else if QuarkMasses(p).Err? then Err(QuarkMasses(p).msg)
    else
      var dims := LatticeDims(p).value;
      var geometry := Meson2ptGeometry(dims.0, dims.1, nodes, arg);
      var range := ConfigRange(custom);
      if geometry.Err? then Err(geometry.msg)
      else if range.Err? then Err(range.msg)
      else
        var (first, last, step) := range.value;
        Ok(Plan(geometry.value, first, last, step, ScriptPath(ensembleDir, outputFile, first, last),
                RangeParams(first, last, step)))
  }
}
