/** The `add-ensemble` command (`cli/commands/add_ensemble.py`): the
    `key=val` pairs, the ensemble directory (given, or built from the
    physics values under `TUNING/` or `ENSEMBLES/`), the required-keys
    check, the folders, and the database record. */
module AddEnsemble {
  import opened Wrappers
  import opened Text
  import opened PyDict
  import opened Params
  import opened Pattern
  import opened EnsemblePath
  import opened Geometry
  import opened Validators
  import opened Sqlite
  import opened FileTree

  // ---------------------------------------------------------------------------
  // reading the physics values back from a path

  /** The pattern of each key of `Required`, in the same order. */
  function PathPattern(i: nat): Pat
    requires i < 8
  {
    if i == 0 then Pat("b", true, "")
    else if i == 1 then Pat("b", true, "Ls")
    else if i == 2 then Pat("Ls", false, "")
    else if i == 3 then Pat("mc", true, "")
    else if i == 4 then Pat("ms", true, "")
    else if i == 5 then Pat("ml", true, "")
    else if i == 6 then Pat("L", false, "")
    else Pat("T", false, "")
  }

  lemma RequiredDistinct()
    ensures DistinctSeq(Required)
  {
  }

  /** The dict the loop of `_parse_params_from_path` holds after the first
      `n` patterns; it holds no key past the `n` first. */
  function Collect(s: string, n: nat): (r: Dict<string>)
    requires n <= 8
    ensures r.Valid()
    ensures forall k :: k in r.m ==> k in Required[..n]
  {
    if n == 0 then Empty()
    else
      var d := Collect(s, n - 1);
      assert forall k :: k in Required[..n - 1] ==> k in Required[..n];
      match Search(s, PathPattern(n - 1), 0)
      case None => d
      case Some(g) => Set(d, Required[n - 1], g)
  }

  /** After the first `n` patterns a key is present exactly when its
      pattern matched, with the group of the leftmost match. */
  lemma {:induction false} CollectAt(s: string, n: nat, i: nat)
    requires i < n <= 8
    ensures Get(Collect(s, n), Required[i]) == Search(s, PathPattern(i), 0)
    decreases n
  {
    var d := Collect(s, n - 1);
    RequiredDistinct();
    if i < n - 1 {
      assert Required[i] != Required[n - 1];
      CollectAt(s, n - 1, i);
    } else {
      assert Required[n - 1] !in Required[..n - 1];
      assert Required[n - 1] !in d.m;
    }
  }

  /** `_parse_params_from_path`: only required keys. */
  function ParseParamsFromPath(s: string): (r: Dict<string>)
    ensures r.Valid()
    ensures forall k :: k in r.m ==> k in Required
  {
    assert Required[..8] == Required;
    Collect(s, 8)
  }

  /** Each required key is read from the path exactly when its pattern
      matches, with the group of the leftmost match. */
  lemma ParsedFromPath(s: string, i: nat)
    requires i < 8
    ensures Get(ParseParamsFromPath(s), Required[i]) == Search(s, PathPattern(i), 0)
  {
    CollectAt(s, 8, i);
  }

  /** A directory built from whole values under a marker-free root reads
      back to exactly those values. */
  lemma PathRoundTrip(root: string, vs: seq<string>)
    requires MarkerFree(root) && Standard(vs)
    ensures forall i :: 0 <= i < 8 ==> Get(ParseParamsFromPath(FullPath(root, vs)), Required[i]) == Some(vs[i])
  {
    forall i | 0 <= i < 8 ensures Get(ParseParamsFromPath(FullPath(root, vs)), Required[i]) == Some(vs[i]) {
      KeyRoundTrip(root, vs, i);
      ParsedFromPath(FullPath(root, vs), i);
    }
  }

  /** ... and finds every required key and no other. */
  lemma PathRoundTripKeys(root: string, vs: seq<string>, k: string)
    requires MarkerFree(root) && Standard(vs)
    ensures k in ParseParamsFromPath(FullPath(root, vs)).m <==> k in Required
  {
    if k in Required {
      var i :| 0 <= i < 8 && Required[i] == k;
      KeyRoundTrip(root, vs, i);
      ParsedFromPath(FullPath(root, vs), i);
    }
  }

  /** The search for key `i` finds exactly its value in a built path. */
  lemma KeyRoundTrip(root: string, vs: seq<string>, i: nat)
    requires MarkerFree(root) && Standard(vs) && i < 8
    ensures Search(FullPath(root, vs), PathPattern(i), 0) == Some(vs[i])
  {
    if i == 0 {
      KeyRoundTrip0(root, vs);
    } else if i == 1 {
      KeyRoundTrip1(root, vs);
    } else if i == 2 {
      KeyRoundTrip2(root, vs);
    } else if i == 3 {
      KeyRoundTrip3(root, vs);
    } else if i == 4 {
      KeyRoundTrip4(root, vs);
    } else if i == 5 {
      KeyRoundTrip5(root, vs);
    } else if i == 6 {
      KeyRoundTrip6(root, vs);
    } else {
      KeyRoundTrip7(root, vs);
    }
  }

  /** The search for each key, one lemma per key. */
  lemma KeyRoundTrip0(root: string, vs: seq<string>)
    requires MarkerFree(root) && Standard(vs)
    ensures Search(FullPath(root, vs), PathPattern(0), 0) == Some(vs[0])
  {
    PathSearch(root, vs, PathPattern(0), 0);
  }

  lemma KeyRoundTrip1(root: string, vs: seq<string>)
    requires MarkerFree(root) && Standard(vs)
    ensures Search(FullPath(root, vs), PathPattern(1), 0) == Some(vs[1])
  {
    BetaBeforeB(vs);
    PathSearch(root, vs, PathPattern(1), 1);
  }

  /** The `b` pattern with the `Ls` suffix passes over the `beta` layer. */
  lemma BetaBeforeB(vs: seq<string>)
    requires Standard(vs)
    ensures forall j :: 0 <= j < 1 ==> Whole(vs[j], PathPattern(1).decimal) && !StartsWith(Follow(j), PathPattern(1).suf)
  {
    assert Whole(vs[0], Decimal[0]);
    assert Follow(0)[1] != "Ls"[1];
  }

  lemma KeyRoundTrip2(root: string, vs: seq<string>)
    requires MarkerFree(root) && Standard(vs)
    ensures Search(FullPath(root, vs), PathPattern(2), 0) == Some(vs[2])
  {
    PathSearch(root, vs, PathPattern(2), 2);
  }

  lemma KeyRoundTrip3(root: string, vs: seq<string>)
    requires MarkerFree(root) && Standard(vs)
    ensures Search(FullPath(root, vs), PathPattern(3), 0) == Some(vs[3])
  {
    PathSearch(root, vs, PathPattern(3), 3);
  }

  lemma KeyRoundTrip4(root: string, vs: seq<string>)
    requires MarkerFree(root) && Standard(vs)
    ensures Search(FullPath(root, vs), PathPattern(4), 0) == Some(vs[4])
  {
    PathSearch(root, vs, PathPattern(4), 4);
  }

  lemma KeyRoundTrip5(root: string, vs: seq<string>)
    requires MarkerFree(root) && Standard(vs)
    ensures Search(FullPath(root, vs), PathPattern(5), 0) == Some(vs[5])
  {
    PathSearch(root, vs, PathPattern(5), 5);
  }

  lemma KeyRoundTrip6(root: string, vs: seq<string>)
    requires MarkerFree(root) && Standard(vs)
    ensures Search(FullPath(root, vs), PathPattern(6), 0) == Some(vs[6])
  {
    PathSearch(root, vs, PathPattern(6), 6);
  }

  lemma KeyRoundTrip7(root: string, vs: seq<string>)
    requires MarkerFree(root) && Standard(vs)
    ensures Search(FullPath(root, vs), PathPattern(7), 0) == Some(vs[7])
  {
    PathSearch(root, vs, PathPattern(7), 7);
  }

  // ---------------------------------------------------------------------------
  // the -p pairs

  const BadPair := "ERROR: bad key=val pair "

  /** The position of the first token without `=`. */
  function FirstBad(tokens: seq<string>): (r: Option<nat>)
    ensures r.None? <==> forall i :: 0 <= i < |tokens| ==> '=' in tokens[i]
    ensures r.Some? ==> r.value < |tokens| && '=' !in tokens[r.value]
                        && forall i :: 0 <= i < r.value ==> '=' in tokens[i]
  {
    if tokens == [] then None
    else if '=' !in tokens[0] then Some(0)
    else match FirstBad(tokens[1..])
      case None => None
      case Some(i) => Some(i + 1)
  }

  /** The pairs given with `-p`: every whitespace-separated token must hold
      `=` and is split at its first one; a later key overrides an earlier
      one. No `-p` (or an empty one) gives the empty dict. */
  function PairsOf(params: Option<string>): (r: Result<Dict<string>>)
  {
    var tokens := SplitWs(params.GetOr(""));
    match FirstBad(tokens)
    case Some(i) => Err(BadPair + tokens[i])
    case None => Ok(Parsed(tokens))
  }

  /** The pairs are refused exactly when a token has no `=`; otherwise a key
      is present exactly when a token names it. */
  lemma PairsMeaning(params: Option<string>, k: string)
    ensures var tokens := SplitWs(params.GetOr(""));
            (PairsOf(params).Err? <==> exists i :: 0 <= i < |tokens| && '=' !in tokens[i])
            && (PairsOf(params).Ok? ==>
                  (k in PairsOf(params).value.m <==> exists i :: 0 <= i < |tokens| && HasKey(tokens[i], k)))
  {
    var tokens := SplitWs(params.GetOr(""));
    ParsedHas(tokens, k);
    if FirstBad(tokens).Some? {
      assert '=' !in tokens[FirstBad(tokens).value];
    }
  }

  /** The parsing loop of `do_add`: it stops at the first token without
      `=`. */
  method ParsePairs(params: Option<string>) returns (r: Result<Dict<string>>)
    ensures r == PairsOf(params)
  {
    var tokens := SplitWs(params.GetOr(""));
    var pdict: Dict<string> := Empty();
    var i := 0;
    while i < |tokens|
      invariant 0 <= i <= |tokens|
      invariant pdict == Parsed(tokens[..i])
      invariant FirstBad(tokens[..i]).None?
    {
      var token := tokens[i];
      if '=' !in token {
        FirstBadAt(tokens, i);
        return Err(BadPair + token);
      }
      ParsedSnoc(tokens, i);
      FirstBadSnoc(tokens, i);
      var kv := Kv(token).value;
      pdict := Set(pdict, kv.0, kv.1);
      i := i + 1;
    }
    assert tokens[..i] == tokens;
    r := Ok(pdict);
  }

  lemma FirstBadSnoc(tokens: seq<string>, i: nat)
    requires i < |tokens| && FirstBad(tokens[..i]).None? && '=' in tokens[i]
    ensures FirstBad(tokens[..i + 1]).None?
  {
    assert forall j :: 0 <= j < i ==> tokens[..i + 1][j] == tokens[..i][j];
  }

  lemma {:induction false} FirstBadAt(tokens: seq<string>, i: nat)
    requires i < |tokens| && '=' !in tokens[i]
    requires FirstBad(tokens[..i]).None?
    ensures FirstBad(tokens) == Some(i)
  {
    assert forall j :: 0 <= j < i ==> tokens[..i][j] == tokens[j];
    if i > 0 {
      assert tokens[1..][..i - 1] == tokens[..i][1..];
      FirstBadAt(tokens[1..], i - 1);
    }
  }

  // ---------------------------------------------------------------------------
  // the ensemble directory

  /** The outcome of working out the ensemble directory: the directory and
      the final parameters, the required keys still missing (exit 1), or the
      `KeyError` raised while formatting the path. */
  datatype Prep = Ready(dir: string, pdict: Dict<string>) | Missing(keys: seq<string>) | KeyError(key: string)

  /** The two roots created when the directory is built from the values. */
  function Roots(base: string): set<string> {
    {base + TuningDir, base + EnsemblesDir}
  }

  /** `ENSEMBLES/` for PRODUCTION, `TUNING/` otherwise. */
  function Root(base: string, production: bool): string {
    base + if production then EnsemblesDir else TuningDir
  }

  /** The eight values of a dict holding every required key. */
  function Values(d: Dict<string>): (vs: seq<string>)
    requires forall k :: k in Required ==> k in d.m
    ensures |vs| == 8 && forall i :: 0 <= i < 8 ==> vs[i] == d.m[Required[i]]
  {
    seq(8, i requires 0 <= i < 8 => d.m[Required[i]])
  }

  /** The parameters after `--directory`: the values read from the path,
      but only when `-p` gave none. */
  function WithInferred(pdict: Dict<string>, dir: string): (r: Dict<string>)
    requires pdict.Valid()
    ensures r.Valid()
  {
    if pdict.keys == [] then Update(pdict, ParseParamsFromPath(dir)) else pdict
  }

  /** The directory step of `do_add` as written, with the directories
      created on the way:
      without `--directory` both roots are made and the path is formatted
      before the required keys are checked, so a missing key raises a
      `KeyError` (named by the first missing key, in the order of the
      format string) after the roots exist. `directory` is the resolved
      `--directory`, `None` when it is absent or empty. */
  function PrepareAsWritten(pdict: Dict<string>, directory: Option<string>, base: string, production: bool)
    : (r: (Prep, set<string>))
    requires pdict.Valid()
  {
    if directory.Some? then
      var pd := WithInferred(pdict, directory.value);
      var missing := MissingKeys(Required, pd.m.Keys);
      (if missing != [] then Missing(missing) else Ready(directory.value, pd), {})
    else
      var missing := MissingKeys(Required, pdict.m.Keys);
      if missing != [] then (KeyError(missing[0]), Roots(base))
      else (Ready(Root(base, production) + "/" + RelPath(Values(pdict)), pdict), Roots(base))
  }

  /** As intended: the required keys are checked before anything is
      created, for a given and for a built directory alike. */
  function Prepare(pdict: Dict<string>, directory: Option<string>, base: string, production: bool)
    : (r: (Prep, set<string>))
    requires pdict.Valid()
    ensures !r.0.KeyError?
    ensures r.1 == if directory.None? && r.0.Ready? then Roots(base) else {}
    ensures r.0.Missing? ==> r.0.keys != []
    ensures r.0.Ready? ==> r.0.pdict.Valid() && forall k :: k in Required ==> k in r.0.pdict.m
    ensures r.0.Missing? <==>
              exists k :: k in Required
                          && k !in (if directory.Some? then WithInferred(pdict, directory.value) else pdict).m
  {
    var pd := if directory.Some? then WithInferred(pdict, directory.value) else pdict;
    var missing := MissingKeys(Required, pd.m.Keys);
    if missing != [] then
      assert missing[0] in missing;
      (Missing(missing), {})
    else if directory.Some? then (Ready(directory.value, pd), {})
    else (Ready(Root(base, production) + "/" + RelPath(Values(pd)), pd), Roots(base))
  }

  /** `-p "beta=6.0"` without `--directory`: the code as written creates
      both roots and then fails with a `KeyError` on `b`, where the
      required-keys check was meant to report the missing keys and create
      nothing. */
  lemma BuiltPathKeyError(base: string, production: bool)
    ensures var pdict := Set(Empty(), "beta", "6.0");
            PrepareAsWritten(pdict, None, base, production) == (KeyError("b"), Roots(base))
            && Prepare(pdict, None, base, production).0.Missing?
            && Prepare(pdict, None, base, production).1 == {}
  {
    var pdict := Set(Empty(), "beta", "6.0");
    assert pdict.m.Keys == {"beta"};
    assert Required[0] == "beta" && Required[1] == "b";
    assert "b" !in pdict.m.Keys by { assert |"b"| != |"beta"|; }
    var rest := MissingKeys(Required[2..], pdict.m.Keys);
    assert Required[1..][1..] == Required[2..];
    assert MissingKeys(Required[1..], pdict.m.Keys) == ["b"] + rest;
    var missing := MissingKeys(Required, pdict.m.Keys);
    assert missing == ["b"] + rest;
    assert Prepare(pdict, None, base, production) == (Missing(missing), {});
  }

  /** Everywhere else the two agree. */
  lemma PrepareAgrees(pdict: Dict<string>, directory: Option<string>, base: string, production: bool)
    requires pdict.Valid()
    requires !PrepareAsWritten(pdict, directory, base, production).0.KeyError?
    ensures PrepareAsWritten(pdict, directory, base, production) == Prepare(pdict, directory, base, production)
  {
  }

  /** A marker-free base path gives marker-free roots. */
  lemma MarkerFreeRoot(base: string, production: bool)
    requires MarkerFree(base)
    ensures MarkerFree(Root(base, production))
  {
    var tail := if production then EnsemblesDir else TuningDir;
    assert Plain(tail);
    MarkerFreeAppend(base, tail);
  }

  /** The base directory of the production runs. */
  const CosmonBase := "/global/cfs/cdirs/m2986/cosmon/mdwf"

  /** Its only digits, `2986`, follow an `m` or a digit, so it is marker-free. */
  lemma CosmonBaseMarkerFree()
    ensures MarkerFree(CosmonBase)
  {
    forall e | 0 < e < |CosmonBase| && IsDigit(CosmonBase[e]) ensures CosmonBase[e - 1] !in PrefixEnds {
      assert 19 <= e <= 22;
    }
    GuardedMarkerFree(CosmonBase);
  }

  /** Without `--directory`, and with every required key given, the
      directory is the relative path under the root of the status. */
  lemma BuiltDir(pdict: Dict<string>, base: string, production: bool)
    requires pdict.Valid()
    requires forall k :: k in Required ==> k in pdict.m
    ensures Prepare(pdict, None, base, production) ==
              (Ready(FullPath(Root(base, production), Values(pdict)), pdict), Roots(base))
  {
  }

  /** A directory built from the values reads back to them when no pattern
      prefix in the base path is followed by a digit and every value is
      whole. */
  lemma BuiltDirRoundTrip(pdict: Dict<string>, base: string, production: bool)
    requires pdict.Valid() && MarkerFree(base)
    requires forall k :: k in Required ==> k in pdict.m
    requires Standard(Values(pdict))
    ensures forall i :: 0 <= i < 8 ==>
              Get(ParseParamsFromPath(FullPath(Root(base, production), Values(pdict))), Required[i])
              == Get(pdict, Required[i])
  {
    MarkerFreeRoot(base, production);
    PathRoundTrip(Root(base, production), Values(pdict));
  }

  /** In particular under the production base directory. */
  lemma CosmonRoundTrip(pdict: Dict<string>, production: bool)
    requires pdict.Valid()
    requires forall k :: k in Required ==> k in pdict.m
    requires Standard(Values(pdict))
    ensures forall i :: 0 <= i < 8 ==>
              Get(ParseParamsFromPath(FullPath(Root(CosmonBase, production), Values(pdict))), Required[i])
              == Get(pdict, Required[i])
  {
    CosmonBaseMarkerFree();
    BuiltDirRoundTrip(pdict, CosmonBase, production);
  }

  // ---------------------------------------------------------------------------
  // the command

  const SubDirs: seq<string> := ["/log_hmc", "/jlog", "/cnfg", "/slurm"]

  /** The ensemble directory and its four sub-directories. */
  function EnsembleDirs(dir: string): set<string> {
    {dir} + set j | 0 <= j < |SubDirs| :: dir + SubDirs[j]
  }

  /** The ensemble directory and its four sub-directories, created. */
  method MakeEnsembleDirs(fs: Tree, dir: string)
    modifies fs
    ensures fs.dirs == old(fs.dirs) + EnsembleDirs(dir)
  {
    fs.MakeDir(dir);
    var i := 0;
    while i < |SubDirs|
      invariant 0 <= i <= |SubDirs|
      invariant fs.dirs == old(fs.dirs) + {dir} + set j | 0 <= j < i :: dir + SubDirs[j]
    {
      fs.MakeDir(dir + SubDirs[i]);
      i := i + 1;
    }
  }

  /** The record left for `dir` by a successful `add-ensemble`. */
  predicate Recorded(s: Store, dir: string, production: bool, nickname: Option<string>)
    reads s
  {
    exists id :: id in s.ensembles && s.ensembles[id].directory == dir
                 && (production ==> s.ensembles[id].status == Production)
                 && (nickname.GetOr("") != "" ==>
                       (id, NicknameKey) in s.ensembleParams && s.ensembleParams[(id, NicknameKey)] == nickname.value)
  }

  /** The steps after the insert: the PRODUCTION status (the
      directory is rewritten unchanged, so the update cannot clash) and the
      nickname row. Other parameter rows, the description and the
      operations stay. */
  method Finish(s: Store, eid: int, dir: string, production: bool, nickname: Option<string>)
    requires s.Valid() && eid in s.ensembles && s.ensembles[eid].directory == dir && dir != ""
    modifies s
    ensures s.Valid()
    ensures s.operations == old(s.operations) && s.operationParams == old(s.operationParams)
    ensures eid in s.ensembles && s.ensembles[eid].directory == dir
    ensures s.ensembles[eid].description == old(s.ensembles[eid].description)
    ensures s.ensembles[eid].status == if production then Production else old(s.ensembles[eid].status)
    ensures forall k :: k != NicknameKey && (eid, k) in old(s.ensembleParams) ==>
              (eid, k) in s.ensembleParams && s.ensembleParams[(eid, k)] == old(s.ensembleParams)[(eid, k)]
    ensures nickname.GetOr("") != "" ==>
              (eid, NicknameKey) in s.ensembleParams && s.ensembleParams[(eid, NicknameKey)] == nickname.value
  {
    if production {
      PromotionPlan(s.ensembles[eid], dir);
      var updated := s.UpdateEnsemble(eid, Some(ProductionText), Some(dir));
      assert updated == Ok(true);
    }
    if nickname.GetOr("") != "" {
      var _ := s.SetEnsembleParameter(eid, NicknameKey, nickname.value);
    }
  }

  /** The database steps of `do_add`: the record, the PRODUCTION status
      and the nickname.
      Only the insert can fail (a stale parameter row under the new id);
      its exception ends the command with status 1 and leaves the store as
      it was. */
  method Record(s: Store, dir: string, pdict: Dict<string>, description: Option<string>,
                production: bool, nickname: Option<string>)
    returns (code: int)
    requires s.Valid() && pdict.Valid() && dir != ""
    modifies s
    ensures s.Valid()
    ensures s.operations == old(s.operations) && s.operationParams == old(s.operationParams)
    ensures code == 0 || code == 1
    ensures code == 0 <==> old(s.HasDirectory(dir))
                           || forall k :: k in pdict.m ==> (NextId(old(s.ensembles).Keys), k) !in old(s.ensembleParams)
    ensures code == 0 ==> Recorded(s, dir, production, nickname)
    ensures code == 0 && !old(s.HasDirectory(dir)) ==>
              var id := NextId(old(s.ensembles).Keys);
              id in s.ensembles && s.ensembles[id].description == description
              && (!production ==> s.ensembles[id].status == Tuning)
              && forall k :: k in pdict.m && k != NicknameKey ==>
                   (id, k) in s.ensembleParams && s.ensembleParams[(id, k)] == pdict.m[k]
    ensures code == 1 ==> unchanged(s)
  {
    var added := s.AddEnsemble(dir, pdict, description);
    if added.Err? {
      return 1;
    }
    var eid := added.value.0;
    Finish(s, eid, dir, production, nickname);
    code := 0;
  }

  /** The rest of `do_add` once the directory is worked out: the roots (when
      the directory is built), then, for a ready directory, its folders and
      the record. */
  method Carry(s: Store, fs: Tree, prep: Prep, roots: set<string>, base: string,
               production: bool, description: Option<string>, nickname: Option<string>)
    returns (code: int)
    requires s.Valid() && (roots == {} || roots == Roots(base))
    requires prep.Ready? ==> prep.pdict.Valid() && prep.dir != ""
    modifies s, fs
    ensures s.Valid()
    ensures code == 0 || code == 1
    ensures fs.dirs == old(fs.dirs) + roots + (if prep.Ready? then EnsembleDirs(prep.dir) else {})
    ensures !prep.Ready? ==> code == 1 && unchanged(s)
    ensures prep.Ready? && code == 0 ==> Recorded(s, prep.dir, production, nickname)
    ensures prep.Ready? && code == 1 ==> unchanged(s)
  {
    if roots != {} {
      fs.MakeDir(base + TuningDir);
      fs.MakeDir(base + EnsemblesDir);
    }
    if !prep.Ready? {
      return 1;
    }
    MakeEnsembleDirs(fs, prep.dir);
    code := Record(s, prep.dir, prep.pdict, description, production, nickname);
  }

  /** The directory step of `do_add` for the given `-p` text: `None` for
      a bad pair, else the outcome as written and the roots it creates. */
  function Planned(params: Option<string>, directory: Option<string>, base: string, production: bool)
    : (r: Option<(Prep, set<string>)>)
  {
    match PairsOf(params)
    case Err(_) => None
    case Ok(pdict) => Some(PrepareAsWritten(pdict, directory, base, production))
  }

  /** `do_add`. `directory` is the resolved `--directory` (`None` when it is
      absent or empty) and `base` the resolved `--base-dir`. The exit status
      is 1 for a bad pair, for missing keys, for the `KeyError` of a path
      built from incomplete values (after the roots are created), and for
      an exception from the store; the directories are created before the
      record is written. */
  method DoAdd(s: Store, fs: Tree, params: Option<string>, production: bool, directory: Option<string>,
               base: string, description: Option<string>, nickname: Option<string>)
    returns (code: int)
    requires s.Valid() && directory != Some("")
    modifies s, fs
    ensures s.Valid()
    ensures code == 0 || code == 1
    ensures Planned(params, directory, base, production).None? ==> code == 1 && unchanged(s) && unchanged(fs)
    ensures Planned(params, directory, base, production).Some? ==>
              var prep := Planned(params, directory, base, production).value;
              fs.dirs == old(fs.dirs) + prep.1 + (if prep.0.Ready? then EnsembleDirs(prep.0.dir) else {})
              && (!prep.0.Ready? ==> code == 1 && unchanged(s))
              && (prep.0.Ready? && code == 0 ==> Recorded(s, prep.0.dir, production, nickname))
              && (prep.0.Ready? && code == 1 ==> unchanged(s))
  {
    var pairs := ParsePairs(params);
    if pairs.Err? {
      assert Planned(params, directory, base, production).None?;
      return 1;
    }
    var prep := PrepareAsWritten(pairs.value, directory, base, production);
    assert Planned(params, directory, base, production) == Some(prep);
    PreparedReady(pairs.value, directory, base, production);
    code := Carry(s, fs, prep.0, prep.1, base, production, description, nickname);
  }

  /** What `Carry` needs of the outcome as written. */
  lemma PreparedReady(pdict: Dict<string>, directory: Option<string>, base: string, production: bool)
    requires pdict.Valid() && directory != Some("")
    ensures var r := PrepareAsWritten(pdict, directory, base, production);
            (r.1 == {} || r.1 == Roots(base)) && (r.0.Ready? ==> r.0.pdict.Valid() && r.0.dir != "")
  {
  }
}
