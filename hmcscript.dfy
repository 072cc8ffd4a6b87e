/** The `hmc-script` command (`cli/commands/hmc_script.py`): reads the XML
    and job parameters, writes `HMCparameters.xml`, fills the job
    parameters with their defaults and hands them to the GPU batch-script
    generator. */
module HmcScript {
  import opened Wrappers
  import opened Text
  import opened PyDict
  import opened Params
  import opened Hmc
  import Zv

  // ---------------------------------------------------------------------------
  // key=value tokens

  /** Every token holds `=`; otherwise the command stops at the first that
      does not. */
  predicate AllAssign(tokens: seq<string>) {
    forall i :: 0 <= i < |tokens| ==> '=' in tokens[i]
  }

  lemma AllAssignSnoc(tokens: seq<string>, i: nat)
    requires i < |tokens| && AllAssign(tokens[..i]) && '=' in tokens[i]
    ensures AllAssign(tokens[..i + 1])
  {
    assert forall j :: 0 <= j < i ==> tokens[..i + 1][j] == tokens[..i][j];
  }

  const BadXmlMessage := "ERROR: bad XML param"
  const BadJobMessage := "ERROR: bad job param"

  /** The parsing loop of `-x`/`-j`: the dict of the tokens when all hold
      `=`, else the error. */
  function StrictParse(tokens: seq<string>, msg: string): (r: Result<Dict<string>>)
    ensures r.Ok? <==> AllAssign(tokens)
    ensures r.Ok? ==> r.value == Parsed(tokens) && r.value.Valid()
    ensures r.Err? ==> r.msg == msg
  {
    if AllAssign(tokens) then Ok(Parsed(tokens)) else Err(msg)
  }

  /** The loop over `s.split()`, proved against `StrictParse`. */
  method ParseTokens(s: string, msg: string) returns (r: Result<Dict<string>>)
    ensures r == StrictParse(SplitWs(s), msg)
  {
    var tokens := SplitWs(s);
    var d := Empty();
    var i := 0;
    while i < |tokens|
      invariant 0 <= i <= |tokens|
      invariant AllAssign(tokens[..i]) && d == Parsed(tokens[..i])
    {
      if '=' !in tokens[i] {
        return Err(msg);
      }
      ParsedSnoc(tokens, i);
      AllAssignSnoc(tokens, i);
      d := AddToken(d, tokens[i]);
      i := i + 1;
    }
    assert tokens[..i] == tokens;
    r := Ok(d);
  }

  // ---------------------------------------------------------------------------
  // Job parameters

  const RequiredJobParams: seq<string> := ["queue", "cfg_max"]

  const DefaultJobKeys: seq<string> :=
    ["constraint", "time_limit", "cpus_per_task", "nodes", "gpus_per_task", "gpu_bind", "mail_user", "mpi"]

  /** `DEFAULT_JOB_PARAMS`; `user` is `$USER` (or "") when the module is
      loaded. */
  function DefaultJobParams(user: string): (d: Dict<string>)
    ensures d.Valid()
  {
    Dict(DefaultJobKeys,
         map["constraint" := "gpu", "time_limit" := "17:00:00", "cpus_per_task" := "32", "nodes" := "1",
             "gpus_per_task" := "1", "gpu_bind" := "none", "mail_user" := user, "mpi" := "2.1.1.2"])
  }

  lemma DefaultCpus(user: string)
    ensures Get(DefaultJobParams(user), "cpus_per_task") == Some("32")
  {
  }

  /** `out_path` and `omp_num_threads` are no job defaults. */
  lemma DefaultsLackJobOnly(user: string)
    ensures "out_path" !in DefaultJobParams(user).m && "omp_num_threads" !in DefaultJobParams(user).m
  {
  }

  lemma DefaultsLackTasks(user: string)
    ensures "ntasks_per_node" !in DefaultJobParams(user).m && "resubmit" !in DefaultJobParams(user).m
  {
  }

  /** `for k, v in defs.items(): d.setdefault(k, v)` over the keys `ks`. */
  function SetDefaults(d: Dict<string>, defs: Dict<string>, ks: seq<string>): (r: Dict<string>)
    requires d.Valid() && defs.Valid()
    requires forall i :: 0 <= i < |ks| ==> ks[i] in defs.m
    ensures r.Valid()
    decreases |ks|
  {
    if ks == [] then d
    else
      var prev := SetDefaults(d, defs, ks[..|ks| - 1]);
      var k := ks[|ks| - 1];
      if k in prev.m then prev else Set(prev, k, defs.m[k])
  }

  /** A given key keeps its value and a default fills only a key that was
      absent. */
  lemma {:induction false} SetDefaultsAt(d: Dict<string>, defs: Dict<string>, ks: seq<string>, k: string)
    requires d.Valid() && defs.Valid()
    requires forall i :: 0 <= i < |ks| ==> ks[i] in defs.m
    ensures Get(SetDefaults(d, defs, ks), k)
            == if k in d.m then Some(d.m[k]) else if k in ks then Some(defs.m[k]) else None
    decreases |ks|
  {
    if ks != [] {
      var init := ks[..|ks| - 1];
      SetDefaultsAt(d, defs, init, k);
      assert k in ks <==> k in init || k == ks[|ks| - 1];
    }
  }

  lemma SetDefaultsSnoc(d: Dict<string>, defs: Dict<string>, ks: seq<string>, i: nat)
    requires d.Valid() && defs.Valid() && i < |ks|
    requires forall i :: 0 <= i < |ks| ==> ks[i] in defs.m
    ensures var prev := SetDefaults(d, defs, ks[..i]);
            SetDefaults(d, defs, ks[..i + 1]) == if ks[i] in prev.m then prev else Set(prev, ks[i], defs.m[ks[i]])
  {
    assert ks[..i + 1][..i] == ks[..i];
  }

  const ReseedName := "reseed"
  const TasksKey := "ntasks_per_node"
  const CpusKey := "cpus_per_task"
  const ResubmitKey := "resubmit"

  /** The job dict after the defaults `defs`, `ntasks_per_node` and
      `resubmit`. */
  function Filled(given: Dict<string>, defs: Dict<string>, modeName: string): (r: Dict<string>)
    requires given.Valid() && defs.Valid() && CpusKey in defs.m
    ensures r.Valid()
  {
    var filled := SetDefaults(given, defs, defs.keys);
    assert CpusKey in defs.keys;
    SetDefaultsAt(given, defs, defs.keys, CpusKey);
    var withTasks := if TasksKey in filled.m then filled else Set(filled, TasksKey, filled.m[CpusKey]);
    if ResubmitKey in withTasks.m then withTasks
    else Set(withTasks, ResubmitKey, if modeName == ReseedName then "false" else "true")
  }

  /** What the filled dict holds at each key: the given value; else the
      default; else, for `ntasks_per_node`, `cpus_per_task`; else, for
      `resubmit`, false in reseed mode and true otherwise; else nothing. */
  lemma FilledAt(given: Dict<string>, defs: Dict<string>, modeName: string, k: string)
    requires given.Valid() && defs.Valid() && CpusKey in defs.m
    requires TasksKey !in defs.m && ResubmitKey !in defs.m
    ensures Get(Filled(given, defs, modeName), k)
            == if k in given.m then Some(given.m[k])
               else if k in defs.m then Some(defs.m[k])
               else if k == TasksKey then Some(if CpusKey in given.m then given.m[CpusKey] else defs.m[CpusKey])
               else if k == ResubmitKey then Some(if modeName == ReseedName then "false" else "true")
               else None
  {
    var filled := SetDefaults(given, defs, defs.keys);
    SetDefaultsAt(given, defs, defs.keys, k);
    SetDefaultsAt(given, defs, defs.keys, TasksKey);
    SetDefaultsAt(given, defs, defs.keys, ResubmitKey);
    SetDefaultsAt(given, defs, defs.keys, CpusKey);
    assert k in defs.keys <==> k in defs.m;
    assert TasksKey !in defs.keys && ResubmitKey !in defs.keys && CpusKey in defs.keys;
    FilledShape(given, defs, modeName, k);
  }

  /** `Filled` adds at most `ntasks_per_node` and `resubmit` to the
      defaulted dict. */
  lemma FilledShape(given: Dict<string>, defs: Dict<string>, modeName: string, k: string)
    requires given.Valid() && defs.Valid() && CpusKey in defs.m
    ensures var filled := SetDefaults(given, defs, defs.keys);
            CpusKey in filled.m
            && Get(Filled(given, defs, modeName), k)
               == if k in filled.m then Some(filled.m[k])
                  else if k == TasksKey then Some(filled.m[CpusKey])
                  else if k == ResubmitKey then Some(if modeName == ReseedName then "false" else "true")
                  else None
  {
    assert CpusKey in defs.keys;
    SetDefaultsAt(given, defs, defs.keys, CpusKey);
  }

  /** The defaults loop and the two defaults after it, proved against
      `Filled`. */
  method FillJob(given: Dict<string>, defs: Dict<string>, modeName: string) returns (j: Dict<string>)
    requires given.Valid() && defs.Valid() && CpusKey in defs.m
    ensures j == Filled(given, defs, modeName)
  {
    j := given;
    var i := 0;
    while i < |defs.keys|
      invariant 0 <= i <= |defs.keys|
      invariant j == SetDefaults(given, defs, defs.keys[..i])
    {
      var k := defs.keys[i];
      SetDefaultsSnoc(given, defs, defs.keys, i);
      if k !in j.m {
        j := Set(j, k, defs.m[k]);
      }
      i := i + 1;
    }
    assert defs.keys[..i] == defs.keys;
    assert CpusKey in defs.keys;
    SetDefaultsAt(given, defs, defs.keys, CpusKey);
    if TasksKey !in j.m {
      j := Set(j, TasksKey, j.m[CpusKey]);
    }
    if ResubmitKey !in j.m {
      j := Set(j, ResubmitKey, if modeName == ReseedName then "false" else "true");
    }
  }

  /** The job dict of `hmc-script`: the given parameters filled with
      `DEFAULT_JOB_PARAMS`. */
  function JobDict(given: Dict<string>, modeName: string, user: string): (r: Dict<string>)
    requires given.Valid()
    ensures r.Valid()
  {
    DefaultCpus(user);
    Filled(given, DefaultJobParams(user), modeName)
  }

  /** A key that is no default and not one of the two set after them is in
      the job dict exactly as given. */
  lemma JobDictKeeps(given: Dict<string>, modeName: string, user: string, k: string)
    requires given.Valid()
    requires k !in DefaultJobParams(user).m && k != TasksKey && k != ResubmitKey
    ensures Get(JobDict(given, modeName, user), k) == Get(given, k)
  {
    DefaultCpus(user);
    DefaultsLackTasks(user);
    FilledAt(given, DefaultJobParams(user), modeName, k);
  }

  /** Without `ntasks_per_node` and `cpus_per_task` the job runs 32 tasks
      per node. */
  lemma JobDictTasks(given: Dict<string>, modeName: string, user: string)
    requires given.Valid() && TasksKey !in given.m && CpusKey !in given.m
    ensures Get(JobDict(given, modeName, user), TasksKey) == Some("32")
  {
    DefaultCpus(user);
    DefaultsLackTasks(user);
    FilledAt(given, DefaultJobParams(user), modeName, TasksKey);
  }


  // ---------------------------------------------------------------------------
  // Paths

  /** `ens_dir.relative_to(base)` as text, for resolved absolute paths;
      `None` is the ValueError. The directory itself gives no part, which
      makes `rel.parts[0]` fail, so it is refused too. */
  function RelativeTo(p: string, base: string): (r: Option<string>)
    ensures r.Some? ==> r.value != [] && (if base == "/" then p == "/" + r.value else p == base + "/" + r.value)
  {
    var prefix := if base == "/" then "/" else base + "/";
    if |p| > |prefix| && p[..|prefix|] == prefix then
      assert p == prefix + p[|prefix|..];
      Some(p[|prefix|..])
    else None
  }

  /** `ens_rel.replace('/', '_')`. */
  function EnsName(rel: string): (r: string)
    ensures |r| == |rel| && '/' !in r
    ensures forall i :: 0 <= i < |rel| && rel[i] != '/' ==> r[i] == rel[i]
    ensures forall i :: 0 <= i < |rel| && rel[i] == '/' ==> r[i] == '_'
  {
    seq(|rel|, i requires 0 <= i < |rel| => if rel[i] == '/' then '_' else rel[i])
  }

  /** `rel.parts[0]`: `TUNING` or `ENSEMBLES` for a standard layout. */
  function RootPart(rel: string): string {
    match SplitOnce(rel, '/')
    case None => rel
    case Some((first, _)) => first
  }

  /** `ens_dir / 'slurm' / f"hmc_{id}_{mode}.sbatch"`. */
  function OutFile(ensDir: string, id: int, modeName: string): string {
    ensDir + "/slurm/hmc_" + IntToString(id) + "_" + modeName + ".sbatch"
  }

  // ---------------------------------------------------------------------------
  // ---------------------------------------------------------------------------
  // The call of the batch-script generator

  /** The keyword parameters of `generate_hmc_slurm_gpu`. */
  const GpuParameters: set<string> := {
    "out_path", "db_file", "ensemble_id", "base_dir", "type_", "ens_relpath", "ens_name",
    "account", "mode", "constraint", "time_limit", "cpus_per_task", "nodes", "ntasks_per_node",
    "gpus_per_task", "gpu_bind", "mail_user", "exec_path", "bind_script", "run_dir", "gres",
    "n_trajec", "mpi", "omp_num_threads", "queue", "trajL", "lvl_sizes"}

  lemma GpuParameterNames()
    ensures "out_path" in GpuParameters && "omp_num_threads" in GpuParameters
    ensures "cfg_max" !in GpuParameters && ResubmitKey !in GpuParameters
  {
  }

  const TypeErrorMessage := "got an unexpected keyword argument"

  /** A call `f(**args)` of a function with keyword parameters `params` and
      no `**kwargs`, as Python binds it: a key that is not a parameter is the
      TypeError. */
  function KeywordCall(args: Dict<string>, params: set<string>): (r: Result<Dict<string>>)
    ensures r.Ok? <==> forall k :: k in args.m ==> k in params
    ensures r.Ok? ==> r.value == args
  {
    if forall k :: k in args.m ==> k in params then Ok(args) else Err(TypeErrorMessage)
  }

  const FixedArgKeys: seq<string> :=
    ["out_path", "db_file", "ensemble_id", "base_dir", "type_", "ens_relpath", "ens_name", "account", "mode"]

  /** The fixed entries of `sbatch_args`. */
  function FixedArgs(outFile: string, dbFile: string, id: int, baseDir: string, root: string,
                     rel: string, account: string, modeName: string): (r: Dict<string>)
    ensures r.Valid()
  {
    Dict(FixedArgKeys,
         map["out_path" := outFile, "db_file" := dbFile, "ensemble_id" := IntToString(id),
             "base_dir" := baseDir, "type_" := root, "ens_relpath" := rel, "ens_name" := EnsName(rel),
             "account" := account, "mode" := modeName])
  }

  lemma FixedArgsOutPath(outFile: string, dbFile: string, id: int, baseDir: string, root: string,
                         rel: string, account: string, modeName: string)
    ensures var f := FixedArgs(outFile, dbFile, id, baseDir, root, rel, account, modeName);
            Get(f, "out_path") == Some(outFile) && "omp_num_threads" !in f.m
  {
  }

  /** `sbatch_args`: the fixed arguments, then every job parameter with
      `update`, so a job parameter of the same name replaces a fixed one. */
  function SbatchArgs(outFile: string, dbFile: string, id: int, baseDir: string, root: string,
                      rel: string, account: string, modeName: string, job: Dict<string>): (r: Dict<string>)
    requires job.Valid()
    ensures r.Valid()
    ensures r.m == FixedArgs(outFile, dbFile, id, baseDir, root, rel, account, modeName).m + job.m
  {
    UpdateValues(FixedArgs(outFile, dbFile, id, baseDir, root, rel, account, modeName), job);
    Update(FixedArgs(outFile, dbFile, id, baseDir, root, rel, account, modeName), job)
  }

  /** As written, every job dict that passes the required-key check holds
      `cfg_max` and `resubmit`, neither of which the generator accepts, so
      the call always fails. */
  lemma AsWrittenCallFails(outFile: string, dbFile: string, id: int, baseDir: string, root: string,
                           rel: string, account: string, modeName: string, given: Dict<string>, user: string)
    requires given.Valid() && Zv.MissingFrom(RequiredJobParams, given.m.Keys) == []
    ensures KeywordCall(SbatchArgs(outFile, dbFile, id, baseDir, root, rel, account, modeName,
                                   JobDict(given, modeName, user)), GpuParameters).Err?
  {
    assert "cfg_max" in RequiredJobParams;
    assert "cfg_max" in given.m;
    DefaultCpus(user);
    DefaultsLackTasks(user);
    FilledAt(given, DefaultJobParams(user), modeName, "cfg_max");
    GpuParameterNames();
    var job := JobDict(given, modeName, user);
    var args := SbatchArgs(outFile, dbFile, id, baseDir, root, rel, account, modeName, job);
    assert "cfg_max" in args.m;
  }

  /** The arguments a function with keyword parameters `params` accepts. */
  function Accepted(args: Dict<string>, params: set<string>): (r: Dict<string>)
    requires args.Valid()
    ensures r.Valid()
    ensures forall k :: k in r.m ==> k in args.m && k in params
    decreases |args.keys|
  {
    if args.keys == [] then Empty()
    else
      var k := args.keys[0];
      var rest := Accepted(Rest(args), params);
      if k in params then Set(rest, k, args.m[k]) else rest
  }

  /** A parameter keeps its argument and anything else is left out. */
  lemma {:induction false} AcceptedAt(args: Dict<string>, params: set<string>, k: string)
    requires args.Valid()
    ensures Get(Accepted(args, params), k) == if k in params then Get(args, k) else None
    decreases |args.keys|
  {
    if args.keys != [] {
      AcceptedAt(Rest(args), params, k);
      assert k in args.m <==> k in Rest(args).m || k == args.keys[0];
    }
  }

  /** With the extra arguments left out the call always binds. */
  lemma AcceptedCallBinds(args: Dict<string>, params: set<string>)
    requires args.Valid()
    ensures KeywordCall(Accepted(args, params), params) == Ok(Accepted(args, params))
  {
  }

  /** A parameter of the updated arguments gets the update's value when it
      names it, else the base value. */
  lemma AcceptedUpdate(base: Dict<string>, upd: Dict<string>, params: set<string>, k: string)
    requires base.Valid() && upd.Valid() && k in params
    ensures Get(Accepted(Update(base, upd), params), k) == if k in upd.m then Some(upd.m[k]) else Get(base, k)
  {
    var u := Update(base, upd);
    UpdateValues(base, upd);
    assert Get(u, k) == if k in upd.m then Some(upd.m[k]) else Get(base, k);
    AcceptedAt(u, params, k);
  }

  // ---------------------------------------------------------------------------
  // do_hmc_script

  /** How the batch-script generator is called. `AsWritten`: with every
      entry of `sbatch_args`, as the command does; `ExtrasDropped`: with
      only the entries the generator has parameters for, which is what the
      command evidently means to do. */
  datatype Binding = AsWritten | ExtrasDropped

  /** The arguments the generator gets, or the TypeError of the call. */
  function GeneratorArgs(args: Dict<string>, b: Binding): (r: Result<Dict<string>>)
    requires args.Valid()
    ensures r.Ok? ==> r.value.Valid() && forall k :: k in r.value.m ==> k in GpuParameters
    ensures r.Ok? && "out_path" in args.m ==> "out_path" in r.value.m
  {
    match b
    case AsWritten => KeywordCall(args, GpuParameters)
    case ExtrasDropped =>
      GpuParameterNames();
      AcceptedAt(args, GpuParameters, "out_path");
      Ok(Accepted(args, GpuParameters))
  }

  /** The generator's arguments always hold an `out_path`. */
  lemma SbatchOutPath(outFile: string, dbFile: string, id: int, baseDir: string, root: string,
                      rel: string, account: string, modeName: string, job: Dict<string>)
    requires job.Valid()
    ensures "out_path" in SbatchArgs(outFile, dbFile, id, baseDir, root, rel, account, modeName, job).m
  {
    FixedArgsOutPath(outFile, dbFile, id, baseDir, root, rel, account, modeName);
  }

  /** What a run leaves: its exit status, the element written to
      `HMCparameters.xml`, and the path and inputs of the batch script. */
  datatype Outcome = Outcome(code: int, xml: Option<HmcElem>, script: Option<(string, ScriptInputs)>)

  /** The batch script of a run whose job parameters `given` hold the
      required keys: its path and its inputs, or the error of the call.
      `rel` is the ensemble's directory relative to `--base-dir`. */
  function Script(ensDir: string, rel: string, dbFile: string, baseDir: string, id: int, account: string,
                  modeName: string, user: string, given: Dict<string>, ensParams: map<string, string>, b: Binding)
    : (r: Result<(string, ScriptInputs)>)
    requires given.Valid()
  {
    var job := JobDict(given, modeName, user);
    var outFile := OutFile(ensDir, id, modeName);
    var args := SbatchArgs(outFile, dbFile, id, baseDir, RootPart(rel), rel, account, modeName, job);
    SbatchOutPath(outFile, dbFile, id, baseDir, RootPart(rel), rel, account, modeName, job);
    match GeneratorArgs(args, b)
    case Err(msg) => Err(msg)
    case Ok(a) =>
      match SlurmInputs(true, Some(ensParams), Get(a, "exec_path"), Get(a, "bind_script"), Get(a, "n_trajec"),
                        Get(a, "trajL"), Get(a, "lvl_sizes"), Get(a, "omp_num_threads"))
      case Err(msg) => Err(msg)
      case Ok(inputs) => Ok((a.m["out_path"], inputs))
  }

  /** As written, the call of the generator fails for every job dict that
      passed the required-key check: no batch script is ever written. */
  lemma AsWrittenScriptFails(ensDir: string, rel: string, dbFile: string, baseDir: string, id: int, account: string,
                             modeName: string, user: string, given: Dict<string>, ensParams: map<string, string>)
    requires given.Valid() && Zv.MissingFrom(RequiredJobParams, given.m.Keys) == []
    ensures Script(ensDir, rel, dbFile, baseDir, id, account, modeName, user, given, ensParams, AsWritten).Err?
  {
    AsWrittenCallFails(OutFile(ensDir, id, modeName), dbFile, id, baseDir, RootPart(rel), rel, account, modeName,
                       given, user);
  }

  /** With the extra arguments dropped, the script goes to
      `slurm/hmc_<id>_<mode>.sbatch` under the ensemble unless the job
      parameters name another `out_path`, and its OpenMP threads default
      to 16. */
  lemma ScriptPath(ensDir: string, rel: string, dbFile: string, baseDir: string, id: int, account: string,
                   modeName: string, user: string, given: Dict<string>, ensParams: map<string, string>)
    requires given.Valid()
    ensures var r := Script(ensDir, rel, dbFile, baseDir, id, account, modeName, user, given, ensParams, ExtrasDropped);
            r.Ok? ==>
              ("out_path" !in given.m ==> r.value.0 == OutFile(ensDir, id, modeName))
              && ("out_path" in given.m ==> r.value.0 == given.m["out_path"])
              && r.value.1.ompThreads == OrDefault(Get(given, "omp_num_threads"), "16")
  {
    var job := JobDict(given, modeName, user);
    var outFile := OutFile(ensDir, id, modeName);
    var args := SbatchArgs(outFile, dbFile, id, baseDir, RootPart(rel), rel, account, modeName, job);
    var a := Accepted(args, GpuParameters);
    assert GeneratorArgs(args, ExtrasDropped) == Ok(a);
    ScriptArgs(outFile, dbFile, id, baseDir, RootPart(rel), rel, account, modeName, user, given);
    assert Get(a, "out_path") == Some(a.m["out_path"]);
  }

  /** The generator's `out_path` is the given one or the default path, and
      its `omp_num_threads` is the given one. */
  lemma ScriptArgs(outFile: string, dbFile: string, id: int, baseDir: string, root: string,
                   rel: string, account: string, modeName: string, user: string, given: Dict<string>)
    requires given.Valid()
    ensures var a := Accepted(SbatchArgs(outFile, dbFile, id, baseDir, root, rel, account, modeName,
                                         JobDict(given, modeName, user)), GpuParameters);
            Get(a, "out_path") == Some(if "out_path" in given.m then given.m["out_path"] else outFile)
            && Get(a, "omp_num_threads") == Get(given, "omp_num_threads")
  {
    var fixed := FixedArgs(outFile, dbFile, id, baseDir, root, rel, account, modeName);
    var job := JobDict(given, modeName, user);
    DefaultsLackJobOnly(user);
    JobDictKeeps(given, modeName, user, "out_path");
    JobDictKeeps(given, modeName, user, "omp_num_threads");
    FixedArgsOutPath(outFile, dbFile, id, baseDir, root, rel, account, modeName);
    GpuParameterNames();
    AcceptedUpdate(fixed, job, GpuParameters, "out_path");
    AcceptedUpdate(fixed, job, GpuParameters, "omp_num_threads");
  }

  /** The steps after `HMCparameters.xml` is written as `xml`. */
  function JobStage(ensDir: string, rel: string, dbFile: string, baseDir: string, id: int, account: string,
                    modeName: string, jobParams: string, user: string, xml: HmcElem,
                    ensParams: map<string, string>, b: Binding): (r: Outcome)
    ensures r.xml == Some(xml)
    ensures r.script.Some? <==> r.code == 0
    ensures r.code == 0 || r.code == 1
  {
    match StrictParse(SplitWs(jobParams), BadJobMessage)
    case Err(_) => Outcome(1, Some(xml), None)
    case Ok(given) =>
      if Zv.MissingFrom(RequiredJobParams, given.m.Keys) != [] then Outcome(1, Some(xml), None)
      else
        match Script(ensDir, rel, dbFile, baseDir, id, account, modeName, user, given, ensParams, b)
        case Err(_) => Outcome(1, Some(xml), None)
        case Ok(script) => Outcome(0, Some(xml), Some(script))
  }

  /** `generate_hmc_parameters(ens_dir, mode=..., **xdict)` binds: an XML
      parameter named like one of its own parameters is the TypeError
      "got multiple values". */
  predicate XmlCallBinds(xd: Dict<string>) {
    "mode" !in xd.m && "ensemble_dir" !in xd.m
  }

  /** `do_hmc_script`, with the batch-script generator called as `b` says.
      `ensDir` is the ensemble's resolved directory (`None` for an unknown
      ensemble), `base` the resolved `--base-dir`, `existing` the parsed
      `HMCparameters.xml`, `randomSeed` the drawn seed and `ensParams` the
      ensemble's parameters. A raised exception exits with 1. */
  function Run(ensDir: Option<string>, base: string, dbFile: string, baseDir: string, id: int,
               account: string, modeName: string, xmlParams: string, jobParams: string, user: string,
               existing: Option<Option<HmcElem>>, randomSeed: int, ensParams: map<string, string>, b: Binding)
    : (r: Outcome)
    requires existing.Some? && existing.value.Some? ==> existing.value.value.Valid()
    ensures r.code == 0 || r.code == 1
    ensures r.script.Some? <==> r.code == 0
    ensures r.code == 0 ==> r.xml.Some?
  {
    if ensDir.None? then Outcome(1, None, None)
    else match RelativeTo(ensDir.value, base)
      case None => Outcome(1, None, None)
      case Some(rel) =>
        match StrictParse(SplitWs(xmlParams), BadXmlMessage)
        case Err(_) => Outcome(1, None, None)
        case Ok(xd) =>
          if !XmlCallBinds(xd) then Outcome(1, None, None)
          else match Generated(existing, modeName, xd, randomSeed)
          case Err(_) => Outcome(1, None, None)
          case Ok(xml) =>
            JobStage(ensDir.value, rel, dbFile, baseDir, id, account, modeName, jobParams, user, xml, ensParams, b)
  }

  /** As written the command never writes a batch script: every run ends
      with status 1, at best after writing `HMCparameters.xml`. */
  lemma RunAsWrittenFails(ensDir: Option<string>, base: string, dbFile: string, baseDir: string, id: int,
                          account: string, modeName: string, xmlParams: string, jobParams: string, user: string,
                          existing: Option<Option<HmcElem>>, randomSeed: int, ensParams: map<string, string>)
    requires existing.Some? && existing.value.Some? ==> existing.value.value.Valid()
    ensures var r := Run(ensDir, base, dbFile, baseDir, id, account, modeName, xmlParams, jobParams, user,
                         existing, randomSeed, ensParams, AsWritten);
            r.code == 1 && r.script.None?
  {
    var r := Run(ensDir, base, dbFile, baseDir, id, account, modeName, xmlParams, jobParams, user,
                 existing, randomSeed, ensParams, AsWritten);
    if r.code == 0 {
      var rel := RelativeTo(ensDir.value, base).value;
      var given := StrictParse(SplitWs(jobParams), BadJobMessage).value;
      AsWrittenScriptFails(ensDir.value, rel, dbFile, baseDir, id, account, modeName, user, given, ensParams);
    }
  }

  /** The job dict, the generator's arguments and its inputs, proved
      against `Script` as written. */
  method DoScript(ensDir: string, rel: string, dbFile: string, baseDir: string, id: int, account: string,
                  modeName: string, user: string, given: Dict<string>, ensParams: map<string, string>)
    returns (r: Result<(string, ScriptInputs)>)
    requires given.Valid()
    ensures r == Script(ensDir, rel, dbFile, baseDir, id, account, modeName, user, given, ensParams, AsWritten)
  {
    var defs := DefaultJobParams(user);
    DefaultCpus(user);
    var job := FillJob(given, defs, modeName);
    var outFile := OutFile(ensDir, id, modeName);
    var args := SbatchArgs(outFile, dbFile, id, baseDir, RootPart(rel), rel, account, modeName, job);
    SbatchOutPath(outFile, dbFile, id, baseDir, RootPart(rel), rel, account, modeName, job);
    var a := KeywordCall(args, GpuParameters);
    if a.Err? {
      return Err(a.msg);
    }
    var inputs := SlurmInputs(true, Some(ensParams), Get(a.value, "exec_path"), Get(a.value, "bind_script"),
                              Get(a.value, "n_trajec"), Get(a.value, "trajL"), Get(a.value, "lvl_sizes"),
                              Get(a.value, "omp_num_threads"));
    if inputs.Err? {
      return Err(inputs.msg);
    }
    r := Ok((a.value.m["out_path"], inputs.value));
  }

  /** The steps after `HMCparameters.xml` is written, proved against
      `JobStage` as written. */
  method DoJobStage(ensDir: string, rel: string, dbFile: string, baseDir: string, id: int, account: string,
                    modeName: string, jobParams: string, user: string, xml: HmcElem,
                    ensParams: map<string, string>) returns (r: Outcome)
    ensures r == JobStage(ensDir, rel, dbFile, baseDir, id, account, modeName, jobParams, user, xml, ensParams,
                          AsWritten)
  {
    var given := ParseTokens(jobParams, BadJobMessage);
    if given.Err? {
      return Outcome(1, Some(xml), None);
    }
    if Zv.MissingFrom(RequiredJobParams, given.value.m.Keys) != [] {
      return Outcome(1, Some(xml), None);
    }
    var script := DoScript(ensDir, rel, dbFile, baseDir, id, account, modeName, user, given.value, ensParams);
    if script.Err? {
      return Outcome(1, Some(xml), None);
    }
    r := Outcome(0, Some(xml), Some(script.value));
  }

  /** The run's sequence of steps, proved against `Run` as written. */
  method DoHmcScript(ensDir: Option<string>, base: string, dbFile: string, baseDir: string, id: int,
                     account: string, modeName: string, xmlParams: string, jobParams: string, user: string,
                     existing: Option<Option<HmcElem>>, randomSeed: int, ensParams: map<string, string>)
    returns (r: Outcome)
    requires existing.Some? && existing.value.Some? ==> existing.value.value.Valid()
    ensures r == Run(ensDir, base, dbFile, baseDir, id, account, modeName, xmlParams, jobParams, user,
                     existing, randomSeed, ensParams, AsWritten)
  {
    if ensDir.None? {
      return Outcome(1, None, None);
    }
    var rel := RelativeTo(ensDir.value, base);
    if rel.None? {
      return Outcome(1, None, None);
    }
    var xd := ParseTokens(xmlParams, BadXmlMessage);
    if xd.Err? {
      return Outcome(1, None, None);
    }
    if "mode" in xd.value.m || "ensemble_dir" in xd.value.m {
      return Outcome(1, None, None);
    }
    var xml := GenerateHmcParameters(existing, modeName, xd.value, randomSeed);
    if xml.Err? {
      return Outcome(1, None, None);
    }
    r := DoJobStage(ensDir.value, rel.value, dbFile, baseDir, id, account, modeName, jobParams, user,
                    xml.value, ensParams);
  }

  /** An ensemble outside `--base-dir` stops the run before anything is
      written. */
  lemma OutsideBaseRefused(ensDir: string, base: string, dbFile: string, baseDir: string, id: int,
                           account: string, modeName: string, xmlParams: string, jobParams: string, user: string,
                           existing: Option<Option<HmcElem>>, randomSeed: int, ensParams: map<string, string>,
                           b: Binding)
    requires existing.Some? && existing.value.Some? ==> existing.value.value.Valid()
    requires RelativeTo(ensDir, base).None?
    ensures Run(Some(ensDir), base, dbFile, baseDir, id, account, modeName, xmlParams, jobParams, user,
                existing, randomSeed, ensParams, b) == Outcome(1, None, None)
  {
  }

  /** An XML parameter named `mode` or `ensemble_dir` stops the run before
      `HMCparameters.xml` is written. */
  lemma XmlNameClashRefused(ensDir: string, base: string, dbFile: string, baseDir: string, id: int,
                            account: string, modeName: string, xmlParams: string, jobParams: string, user: string,
                            existing: Option<Option<HmcElem>>, randomSeed: int, ensParams: map<string, string>,
                            b: Binding)
    requires existing.Some? && existing.value.Some? ==> existing.value.value.Valid()
    requires AllAssign(SplitWs(xmlParams))
    requires "mode" in Parsed(SplitWs(xmlParams)).m || "ensemble_dir" in Parsed(SplitWs(xmlParams)).m
    ensures Run(Some(ensDir), base, dbFile, baseDir, id, account, modeName, xmlParams, jobParams, user,
                existing, randomSeed, ensParams, b) == Outcome(1, None, None)
  {
  }

  /** A job-parameter list without `queue` or `cfg_max` stops the run after
      `HMCparameters.xml` is written and before any batch script. */
  lemma MissingRequiredRefused(ensDir: string, rel: string, dbFile: string, baseDir: string, id: int,
                               account: string, modeName: string, jobParams: string, user: string,
                               xml: HmcElem, ensParams: map<string, string>, b: Binding)
    requires AllAssign(SplitWs(jobParams))
    requires "queue" !in Parsed(SplitWs(jobParams)).m || "cfg_max" !in Parsed(SplitWs(jobParams)).m
    ensures JobStage(ensDir, rel, dbFile, baseDir, id, account, modeName, jobParams, user, xml, ensParams, b)
            == Outcome(1, Some(xml), None)
  {
    var given := Parsed(SplitWs(jobParams));
    if "queue" !in given.m {
      assert "queue" in Zv.MissingFrom(RequiredJobParams, given.m.Keys);
    } else {
      assert "cfg_max" in Zv.MissingFrom(RequiredJobParams, given.m.Keys);
    }
  }
}
