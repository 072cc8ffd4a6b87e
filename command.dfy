/** The shared command runner (`cli/command.py`): which database a command
    opens, how stored default parameters are merged with the command line,
    the typed job parameters handed to a generator, and where a generated
    script is written. */
module Command {
  import opened Wrappers
  import opened Text
  import opened PyDict
  import opened Nested
  import opened Params
  import opened Components
  import opened FileTree

  const DbUrlVar := "MDWF_DB_URL"
  const DbVar := "MDWF_DB"
  const DefaultDb := "mdwf_ensembles.db"

  /** `_load_default_backend`: a non-empty MDWF_DB_URL wins; otherwise
      MDWF_DB, even when it is set to the empty string; otherwise the local
      database file. */
  function BackendConnection(env: map<string, string>): (r: string)
    ensures DbUrlVar in env && env[DbUrlVar] != "" ==> r == env[DbUrlVar]
    ensures (DbUrlVar !in env || env[DbUrlVar] == "") && DbVar in env ==> r == env[DbVar]
    ensures r == DefaultDb <== DbVar !in env && (DbUrlVar !in env || env[DbUrlVar] == "")
  {
    if DbUrlVar in env && env[DbUrlVar] != "" then env[DbUrlVar]
    else if DbVar in env then env[DbVar]
    else DefaultDb
  }

  /** The connection string is always one of the two variables or the
      default file name. */
  lemma BackendConnectionFrom(env: map<string, string>)
    ensures BackendConnection(env) == DefaultDb
         || (DbUrlVar in env && BackendConnection(env) == env[DbUrlVar])
         || (DbVar in env && BackendConnection(env) == env[DbVar])
  {
  }

  /** The stored default text for `key` (`input_params` or `job_params`):
      with `--use-default-params` the loaded record's entry (empty when it
      has none), otherwise the empty string. */
  function DefaultText(useDefaults: bool, loaded: map<string, string>, key: string): string {
    if useDefaults && key in loaded then loaded[key] else ""
  }

  /** The stored defaults, parsed. */
  function Stored(useDefaults: bool, loaded: map<string, string>, key: string): map<string, string> {
    ParseWords(DefaultText(useDefaults, loaded, key)).m
  }

  /** The command-line parameter string, parsed (`args.x or ""`). */
  function Given(cliText: Option<string>): map<string, string> {
    ParseWords(cliText.GetOr("")).m
  }

  /** Without `--use-default-params` there are no stored defaults. */
  lemma NothingStored(loaded: map<string, string>, key: string)
    ensures Stored(false, loaded, key) == map[]
  {
    ParseNothing();
  }

  /** Merging onto nothing gives the overrides themselves. */
  lemma UnionEmpty(given: map<string, string>)
    ensures map[] + given == given
  {
  }

  /** `m` holds every key of both sides, a key of `given` with its value
      there and every other key of `stored` with its stored value. */
  ghost predicate MergedFrom(m: map<string, string>, stored: map<string, string>, given: map<string, string>) {
    && (forall k :: k in m <==> k in stored || k in given)
    && (forall k :: k in given ==> m[k] == given[k])
    && (forall k :: k in stored && k !in given ==> m[k] == stored[k])
  }

  /** A map union is such a merge. */
  lemma MergeWins(stored: map<string, string>, given: map<string, string>)
    ensures MergedFrom(stored + given, stored, given)
  {
  }

  /** One of the merged parameter sets of `execute`: the stored defaults
      parsed, then updated with the command-line string parsed. A key given
      on the command line takes that value, every other stored key is kept,
      and without `--use-default-params` only the command line counts. */
  method MergedParams(useDefaults: bool, loaded: map<string, string>, key: string, cliText: Option<string>)
    returns (r: Dict<string>)
    ensures r.Valid()
    ensures MergedFrom(r.m, Stored(useDefaults, loaded, key), Given(cliText))
    ensures !useDefaults ==> r.m == Given(cliText)
  {
    var defaults := Parse(Some(DefaultText(useDefaults, loaded, key)));
    var overrides := Parse(cliText);
    r := Merge(defaults, overrides);
    MergeWins(defaults.m, overrides.m);
    if !useDefaults {
      NothingStored(loaded, key);
      UnionEmpty(overrides.m);
    }
  }

  /** The merged string parameters seen as nested values. */
  function AsVals(d: Dict<string>): (r: Dict<Val>)
    requires d.Valid()
    ensures r.Valid() && r.keys == d.keys
    ensures forall k :: k in d.m ==> k in r.m && r.m[k] == Str(d.m[k])
  {
    Dict(d.keys, map k | k in d.m :: Str(d.m[k]))
  }

  /** `{**merged, **typed}`: the validated and cast values replace their
      text, every other merged parameter stays as text. */
  function TypedJob(merged: Dict<string>, typed: Dict<Val>): (r: Dict<Val>)
    requires merged.Valid() && typed.Valid()
    ensures r.Valid()
    ensures forall k :: k in r.m <==> k in merged.m || k in typed.m
    ensures forall k :: k in typed.m ==> r.m[k] == typed.m[k]
    ensures forall k :: k in merged.m && k !in typed.m ==> r.m[k] == Str(merged.m[k])
  {
    UpdateValues(AsVals(merged), typed);
    Update(AsVals(merged), typed)
  }

  const NoApplyDefaultsMessage := "AttributeError: 'HelpGenerator' object has no attribute 'apply_defaults_and_validate'"
  const ValidateArityMessage := "TypeError: validate_and_cast() takes 2 positional arguments but 3 were given"

  /** The typed parameters of one side, input or job, as `execute` computes
      them. A context builder's schema sends them to
      `apply_defaults_and_validate`, which the help generator does not
      define; a command schema calls the two-parameter static
      `validate_and_cast` with three arguments; only without either schema
      is the merged text used. */
  function TypedAsWritten(merged: Dict<string>, builderSchema: bool, commandSchema: bool): (r: Result<Dict<Val>>)
    requires merged.Valid()
    ensures r.Ok? <==> !builderSchema && !commandSchema
    ensures builderSchema ==> r == Err(NoApplyDefaultsMessage)
    ensures !builderSchema && commandSchema ==> r == Err(ValidateArityMessage)
    ensures r.Ok? ==> r.value.keys == merged.keys && forall k :: k in merged.m ==> k in r.value.m && r.value.m[k] == Str(merged.m[k])
  {
    if builderSchema then Err(NoApplyDefaultsMessage)
    else if commandSchema then Err(ValidateArityMessage)
    else Ok(AsVals(merged))
  }

  /** As written, a schema of either kind makes `execute` raise before the
      merge `{**merged_job, **typed_job}` is reached, while the intended
      merge keeps every merged key and lets a typed value win. */
  lemma TypedBranchesRaise(merged: Dict<string>, typed: Dict<Val>, builderSchema: bool, commandSchema: bool)
    requires merged.Valid() && typed.Valid()
    requires builderSchema || commandSchema
    ensures TypedAsWritten(merged, builderSchema, commandSchema).Err?
    ensures forall k :: k in merged.m ==> k in TypedJob(merged, typed).m
    ensures forall k :: k in typed.m ==> TypedJob(merged, typed).m[k] == typed.m[k]
  {
  }

  /** Python truthiness of a record value: the empty text, the empty dict,
      `None`, `False` and a zero are false. */
  predicate Truthy(v: Val) {
    match v
    case Str(s) => s != ""
    case Scalar(t) => t !in {"None", "False", "0", "0.0"}
    case Map(d) => d.keys != []
  }

  /** A record value inside an f-string. */
  function Shown(v: Val): string {
    match v
    case Str(s) => s
    case Scalar(t) => t
    case Map(_) => ""
  }

  /** `ensemble.get("id", ensemble.get("ensemble_id", ""))`. */
  function Identifier(ensemble: Dict<Val>): Val {
    if "id" in ensemble.m then ensemble.m["id"]
    else if "ensemble_id" in ensemble.m then ensemble.m["ensemble_id"]
    else Str("")
  }

  /** `Path(dir) / name` for a relative name: the empty directory and `.`
      add nothing, a trailing `/` is not doubled. */
  function JoinPath(dir: string, name: string): string {
    if dir == "" || dir == "." then name
    else if dir[|dir| - 1] == '/' then dir + name
    else dir + "/" + name
  }

  /** `self.job_type or "output"`. */
  function JobPrefix(jobType: Option<string>): string {
    if jobType.Some? && jobType.value != "" then jobType.value else "output"
  }

  /** Neither an output file nor a context output directory was given, so
      the script goes under the ensemble's directory. */
  predicate UsesEnsembleDir(outputFile: Option<string>, context: Option<map<string, string>>) {
    !(outputFile.Some? && outputFile.value != "")
    && !(context.Some? && context.value != map[] && "_output_dir" in context.value)
  }

  /** `<directory>/cnfg/slurm`. */
  function ScriptDir(directory: string): string {
    JoinPath(JoinPath(directory, "cnfg"), "slurm")
  }

  const MissingDirectory := "KeyError: 'directory'"
  const BadDirectory := "TypeError: directory is not a path"

  /** The file name in the ensemble's script directory: the prefix and, when
      the ensemble has a truthy identifier, `_` and that identifier. */
  function ScriptName(ensemble: Dict<Val>, jobType: Option<string>, suffix: string): string {
    if Truthy(Identifier(ensemble)) then JobPrefix(jobType) + "_" + Shown(Identifier(ensemble)) + suffix
    else JobPrefix(jobType) + suffix
  }

  /** The path `_write_file` writes to: an explicit output file as given;
      else the context's `_output_dir` with the context's prefix (or the job
      type, or `output`) and the suffix; else the ensemble directory's
      `cnfg/slurm`, which fails when the record has no directory text. */
  function OutputPath(ensemble: Dict<Val>, outputFile: Option<string>, suffix: string,
                      context: Option<map<string, string>>, jobType: Option<string>): (r: Result<string>)
    ensures r.Err? <==> UsesEnsembleDir(outputFile, context)
                         && !("directory" in ensemble.m && ensemble.m["directory"].Str?)
    ensures outputFile.Some? && outputFile.value != "" ==> r == Ok(outputFile.value)
  {
    if outputFile.Some? && outputFile.value != "" then Ok(outputFile.value)
    else if context.Some? && context.value != map[] && "_output_dir" in context.value then
      var ctx := context.value;
      var prefix := if "_output_prefix" in ctx then ctx["_output_prefix"] else JobPrefix(jobType);
      Ok(JoinPath(ctx["_output_dir"], prefix + suffix))
    else if "directory" !in ensemble.m then Err(MissingDirectory)
    else match ensemble.m["directory"]
      case Str(d) => Ok(JoinPath(ScriptDir(d), ScriptName(ensemble, jobType, suffix)))
      case _ => Err(BadDirectory)
  }

  /** The text after the last `/` of a path. */
  function BaseName(p: string): string {
    match LastSlash(p)
    case None => p
    case Some(i) => p[i + 1..]
  }

  /** A directory path that `JoinPath` extends with a `/`. */
  predicate PlainDir(dir: string) {
    dir != "" && dir != "." && dir[|dir| - 1] != '/'
  }

  /** Appending a name without `/` after a `/` puts the last `/` there. */
  lemma {:induction false} LastSlashAppend(dir: string, name: string)
    requires '/' !in name
    ensures LastSlash(dir + "/" + name) == Some(|dir|)
    decreases |name|
  {
    if name == [] {
      assert dir + "/" + name == dir + "/";
    } else {
      var p := dir + "/" + name;
      assert p[..|p| - 1] == dir + "/" + name[..|name| - 1];
      assert p[|p| - 1] == name[|name| - 1];
      LastSlashAppend(dir, name[..|name| - 1]);
    }
  }

  /** Joining a plain directory and a name without `/` gives a path whose
      parent is that directory and whose base name is that name. */
  lemma JoinSplits(dir: string, name: string)
    requires PlainDir(dir) && '/' !in name
    ensures Parent(JoinPath(dir, name)) == dir
    ensures BaseName(JoinPath(dir, name)) == name
  {
    LastSlashAppend(dir, name);
    var p := dir + "/" + name;
    assert p[..|dir|] == dir;
    assert p[|dir| + 1..] == name;
  }

  /** Joining a name that does not end in `/` gives a plain directory. */
  lemma JoinPlain(dir: string, name: string)
    requires name != [] && name != "." && name[|name| - 1] != '/'
    ensures PlainDir(JoinPath(dir, name))
  {
    var p := JoinPath(dir, name);
    assert p[|p| - |name|..] == name;
    assert p[|p| - 1] == name[|name| - 1];
  }

  /** With a context output directory the script is `<prefix><suffix>` in
      exactly that directory. */
  lemma ContextOutput(ensemble: Dict<Val>, suffix: string, ctx: map<string, string>, jobType: Option<string>)
    requires "_output_dir" in ctx && PlainDir(ctx["_output_dir"])
    requires '/' !in suffix
    requires "_output_prefix" in ctx ==> '/' !in ctx["_output_prefix"]
    requires '/' !in JobPrefix(jobType)
    ensures var r := OutputPath(ensemble, None, suffix, Some(ctx), jobType);
            r.Ok? && Parent(r.value) == ctx["_output_dir"]
            && BaseName(r.value) == (if "_output_prefix" in ctx then ctx["_output_prefix"] else JobPrefix(jobType)) + suffix
  {
    var prefix := if "_output_prefix" in ctx then ctx["_output_prefix"] else JobPrefix(jobType);
    assert '/' !in prefix + suffix;
    JoinSplits(ctx["_output_dir"], prefix + suffix);
  }

  /** Without an output file or context directory the script lands in the
      ensemble's `cnfg/slurm` directory, named after the job type and the
      ensemble's identifier when it has one. */
  lemma EnsembleOutput(ensemble: Dict<Val>, suffix: string, context: Option<map<string, string>>, jobType: Option<string>, d: string)
    requires UsesEnsembleDir(None, context)
    requires "directory" in ensemble.m && ensemble.m["directory"] == Str(d)
    requires '/' !in ScriptName(ensemble, jobType, suffix)
    ensures var r := OutputPath(ensemble, None, suffix, context, jobType);
            r.Ok? && Parent(r.value) == ScriptDir(d)
            && BaseName(r.value) == ScriptName(ensemble, jobType, suffix)
  {
    var dir := ScriptDir(d);
    JoinPlain(JoinPath(d, "cnfg"), "slurm");
    JoinSplits(dir, ScriptName(ensemble, jobType, suffix));
  }

  /** The directories `mkdir(parents=True)` creates for `p`: `p` and each
      ancestor up to the first component. */
  function Ancestry(p: string): (r: set<string>)
    ensures p != "" && p != "." && p != "/" ==> p in r
    decreases |p|
  {
    if p == "" || p == "." || p == "/" then {}
    else match LastSlash(p)
      case None => {p}
      case Some(i) => if i == 0 then {p} else {p} + Ancestry(p[..i])
  }

  /** `mkdir(parents=True)` creates only the directory itself and
      directories it lies below. */
  lemma {:induction false} AncestryAbove(p: string, a: string)
    requires a in Ancestry(p)
    ensures a == p || StartsWith(p, a + "/")
    decreases |p|
  {
    if a != p {
      var i := LastSlash(p).value;
      var q := p[..i];
      AncestryAbove(q, a);
      assert p[..|q|] == q && p[|q|] == '/';
      if a != q {
        assert q[..|a| + 1] == a + "/";
        assert p[..|a| + 1] == q[..|a| + 1];
      } else {
        assert p[..|a| + 1] == a + "/";
      }
    }
  }

  /** A file's content and whether it carries the executable bits. */
  datatype FileEntry = FileEntry(content: string, executable: bool)

  /** The file written: `chmod 0o755` only adds the executable bits, so an
      executable file stays executable when it is overwritten. */
  function Written(files: map<string, FileEntry>, path: string, content: string, executable: bool): (r: FileEntry)
    ensures r.content == content
    ensures r.executable <==> executable || (path in files && files[path].executable)
  {
    FileEntry(content, executable || (path in files && files[path].executable))
  }

  /** The part of the file system `_write_file` touches. */
  class Disk {
    var dirs: set<string>
    var files: map<string, FileEntry>

    constructor(dirs0: set<string>, files0: map<string, FileEntry>)
      ensures dirs == dirs0 && files == files0
    {
      dirs := dirs0;
      files := files0;
    }

    /** `mkdir(parents=True, exist_ok=True)`. */
    method MakeDirs(p: string)
      modifies this`dirs
      ensures dirs == old(dirs) + Ancestry(p)
    {
      dirs := dirs + Ancestry(p);
    }

    /** `_write_file`: choose the path, create the ensemble's script
        directory when it is used, create the file's parent, write the
        content and make it executable when asked. */
    method WriteFile(ensemble: Dict<Val>, content: string, outputFile: Option<string>, suffix: string,
                     context: Option<map<string, string>>, jobType: Option<string>, executable: bool)
      returns (r: Result<string>)
      modifies this
      ensures r == OutputPath(ensemble, outputFile, suffix, context, jobType)
      ensures r.Err? ==> dirs == old(dirs) && files == old(files)
      ensures r.Ok? ==> files == old(files)[r.value := Written(old(files), r.value, content, executable)]
      ensures r.Ok? ==> dirs == old(dirs)
                               + (if UsesEnsembleDir(outputFile, context) then Ancestry(ScriptDir(ensemble.m["directory"].s)) else {})
                               + Ancestry(Parent(r.value))
    {
      r := OutputPath(ensemble, outputFile, suffix, context, jobType);
      if r.Err? {
        return;
      }
      if UsesEnsembleDir(outputFile, context) {
        MakeDirs(ScriptDir(ensemble.m["directory"].s));
      }
      MakeDirs(Parent(r.value));
      files := files[r.value := Written(files, r.value, content, executable)];
    }
  }

  /** After a successful write the file holds the content and its parent
      directory exists. */
  lemma WrittenFileExists(files: map<string, FileEntry>, dirs: set<string>, path: string, content: string, executable: bool)
    requires Parent(path) != "." && Parent(path) != "/"
    ensures var f := files[path := Written(files, path, content, executable)];
            path in f && f[path].content == content
    ensures Parent(path) in dirs + Ancestry(Parent(path))
  {
    assert Parent(path) != "" by {
      var i := LastSlash(path).value;
      assert i != 0;
    }
  }
}
