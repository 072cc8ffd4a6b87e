/** The MongoDB backend (`backends/mongodb.py`). The three collections are
    held in memory: ensembles and operations by their numeric id, the
    measurements in insertion order. A document is a map from field names to
    BSON values, with sub-documents nested; `$set` and `$unset` take dotted
    paths into it. The client, the connection and the retry decorator are not
    modelled, and the clock is a parameter `now` of the methods that stamp a
    time. */
module Mongo {
  import opened Wrappers
  import opened Text
  import opened PyDict
  import Validators
  import Nested
  import Sqlite

  // The messages of the errors the backend raises.
  const DuplicateKeyword := "TypeError: got multiple values for a keyword argument"
  const EmptyPathWrite := "WriteError: the update path contains an empty field name"
  const NonDocumentWrite := "WriteError: cannot create a field in a non-document"
  const NoItems := "AttributeError: object has no attribute 'items'"
  const NoGet := "AttributeError: object has no attribute 'get'"
  const EmptyPathOrConflict := "DatabaseError: the update path contains an empty field name or a conflict"
  const NonDocument := "DatabaseError: cannot create a field in a non-document"
  const EnsembleNotFound := "EnsembleNotFoundError: ensemble not found"
  const DuplicateKey := "DatabaseError: duplicate key"
  const EmptyPath := "DatabaseError: the update path contains an empty field name"
  const NoDirectory := "KeyError: 'directory'"
  const EnsembleExists := "ValidationError: Ensemble already exists: "

  /** The values the backend stores. `Real` keeps a float as its decimal
      text and `Stamp` a datetime as a tick count. */
  datatype Value =
    | Null
    | Str(s: string)
    | Number(n: int)
    | Real(t: string)
    | Flag(b: bool)
    | Stamp(at: int)
    | List(items: seq<Value>)
    | Obj(fields: map<string, Value>)

  type Doc = map<string, Value>

  /** The value of a field, `None` (BSON null) when it is missing, as a
      query or a non-sparse index sees it. */
  function Field(d: Doc, k: string): (r: Value)
    ensures k !in d ==> r == Null
  {
    if k in d then d[k] else Null
  }

  // ---------------------------------------------------------------------------
  // Dotted paths

  /** The segments of a dotted path: `"slurm.job_id"` is `["slurm", "job_id"]`. */
  function Segments(path: string): (r: seq<string>)
    ensures r != []
  {
    Split(path, '.')
  }

  /** MongoDB refuses a path with an empty segment. */
  predicate WellFormed(path: seq<string>) {
    path != [] && forall i :: 0 <= i < |path| ==> path[i] != ""
  }

  /** The value at a path, following sub-documents; `None` when a segment
      is missing or a non-document is met on the way. */
  function GetAt(d: Doc, path: seq<string>): Option<Value>
    requires path != []
    decreases |path|
  {
    if path[0] !in d then None
    else if |path| == 1 then Some(d[path[0]])
    else match d[path[0]]
      case Obj(inner) => GetAt(inner, path[1..])
      case _ => None
  }

  /** `$set` of one path: sub-documents missing on the way are created; a
      value on the way that is not a document makes the update fail. */
  function SetAt(d: Doc, path: seq<string>, x: Value): Option<Doc>
    requires path != []
    decreases |path|
  {
    if |path| == 1 then Some(d[path[0] := x])
    else if path[0] in d && !d[path[0]].Obj? then None
    else
      var inner := if path[0] in d then d[path[0]].fields else map[];
      match SetAt(inner, path[1..], x)
      case None => None
      case Some(i) => Some(d[path[0] := Obj(i)])
  }

  /** `$unset` of one path: the field goes; a path that does not reach it
      leaves the document as it is. */
  function UnsetAt(d: Doc, path: seq<string>): Doc
    requires path != []
    decreases |path|
  {
    if path[0] !in d then d
    else if |path| == 1 then d - {path[0]}
    else match d[path[0]]
      case Obj(inner) => d[path[0] := Obj(UnsetAt(inner, path[1..]))]
      case _ => d
  }

  /** Some proper prefix of the path holds a value that is not a document. */
  predicate Blocked(d: Doc, path: seq<string>)
    requires path != []
  {
    exists i :: 1 <= i < |path| && GetAt(d, path[..i]).Some? && !GetAt(d, path[..i]).value.Obj?
  }

  /** A path that is set can be read back. */
  lemma {:induction false} SetThenGet(d: Doc, path: seq<string>, x: Value)
    requires path != [] && SetAt(d, path, x).Some?
    ensures GetAt(SetAt(d, path, x).value, path) == Some(x)
    decreases |path|
  {
    if |path| > 1 {
      var inner := if path[0] in d then d[path[0]].fields else map[];
      SetThenGet(inner, path[1..], x);
    }
  }

  lemma GetAtStep(d: Doc, path: seq<string>, i: nat)
    requires 2 <= i <= |path| && path[0] in d && d[path[0]].Obj?
    ensures GetAt(d, path[..i]) == GetAt(d[path[0]].fields, path[1..][..i - 1])
  {
    assert path[..i][1..] == path[1..][..i - 1];
  }

  /** `$set` of a path fails exactly when a proper prefix of it holds a
      value that is not a document. */
  lemma {:induction false} SetFails(d: Doc, path: seq<string>, x: Value)
    requires path != []
    ensures SetAt(d, path, x).None? <==> Blocked(d, path)
    decreases |path|
  {
    if |path| > 1 {
      assert path[..1] == [path[0]];
      if path[0] in d && !d[path[0]].Obj? {
        assert GetAt(d, path[..1]) == Some(d[path[0]]);
      } else if path[0] in d {
        var inner := d[path[0]].fields;
        SetFails(inner, path[1..], x);
        if Blocked(inner, path[1..]) {
          var j :| 1 <= j < |path[1..]| && GetAt(inner, path[1..][..j]).Some? && !GetAt(inner, path[1..][..j]).value.Obj?;
          GetAtStep(d, path, j + 1);
        }
        if Blocked(d, path) {
          var j :| 1 <= j < |path| && GetAt(d, path[..j]).Some? && !GetAt(d, path[..j]).value.Obj?;
          assert j >= 2;
          GetAtStep(d, path, j);
        }
      } else {
        SetFails(map[], path[1..], x);
        NothingBlocks(d, path);
      }
    }
  }

  /** A path whose first field is missing meets nothing on the way. */
  lemma NothingBlocks(d: Doc, path: seq<string>)
    requires path != [] && path[0] !in d
    ensures !Blocked(d, path)
  {
    forall i | 1 <= i < |path| ensures GetAt(d, path[..i]).None? {
      assert path[..i][0] == path[0];
    }
  }

  /** An unset path reads as missing. */
  lemma {:induction false} UnsetThenGet(d: Doc, path: seq<string>)
    requires path != []
    ensures GetAt(UnsetAt(d, path), path).None?
    decreases |path|
  {
    if path[0] in d && |path| > 1 && d[path[0]].Obj? {
      UnsetThenGet(d[path[0]].fields, path[1..]);
    }
  }

  /** Two paths that part ways: at some position both have a segment and
      the segments differ, the segments before it being the same. */
  predicate Apart(p: seq<string>, q: seq<string>)
    decreases |p|
  {
    p != [] && q != [] && (p[0] != q[0] || Apart(p[1..], q[1..]))
  }

  /** `$set` of one path leaves every path apart from it as it was. */
  lemma {:induction false} SetLeavesApart(d: Doc, p: seq<string>, q: seq<string>, x: Value)
    requires p != [] && q != [] && Apart(p, q) && SetAt(d, p, x).Some?
    ensures GetAt(SetAt(d, p, x).value, q) == GetAt(d, q)
    decreases |p|
  {
    if p[0] == q[0] {
      var inner := if p[0] in d then d[p[0]].fields else map[];
      SetLeavesApart(inner, p[1..], q[1..], x);
    }
  }

  // ---------------------------------------------------------------------------
  // Update documents

  /** The paths of an update document are accepted: none has an empty
      segment, and no two of them overlap (one a prefix of the other), so
      each pair parts ways. */
  predicate Acceptable(paths: seq<string>) {
    (forall i :: 0 <= i < |paths| ==> WellFormed(Segments(paths[i])))
    && forall i, j :: 0 <= i < |paths| && 0 <= j < |paths| && i != j ==> Apart(Segments(paths[i]), Segments(paths[j]))
  }

  /** The `$set` of an update document, path by path in its order; `None`
      when a path is blocked. */
  function ApplyAll(d: Doc, paths: seq<string>, vals: map<string, Value>): Option<Doc>
    requires forall k :: k in paths ==> k in vals
    decreases |paths|
  {
    if paths == [] then Some(d)
    else match SetAt(d, Segments(paths[0]), vals[paths[0]])
      case None => None
      case Some(d1) => ApplyAll(d1, paths[1..], vals)
  }

  /** A path apart from every path of the update is left as it was. */
  lemma {:induction false} ApplyAllLeaves(d: Doc, paths: seq<string>, vals: map<string, Value>, q: seq<string>)
    requires forall k :: k in paths ==> k in vals
    requires q != [] && ApplyAll(d, paths, vals).Some?
    requires forall i :: 0 <= i < |paths| ==> Apart(Segments(paths[i]), q)
    ensures GetAt(ApplyAll(d, paths, vals).value, q) == GetAt(d, q)
    decreases |paths|
  {
    if paths != [] {
      var d1 := SetAt(d, Segments(paths[0]), vals[paths[0]]).value;
      SetLeavesApart(d, Segments(paths[0]), q, vals[paths[0]]);
      forall i | 0 <= i < |paths[1..]| ensures Apart(Segments(paths[1..][i]), q) {
        assert paths[1..][i] == paths[i + 1];
      }
      ApplyAllLeaves(d1, paths[1..], vals, q);
    }
  }

  lemma {:induction false} ApartSymmetric(p: seq<string>, q: seq<string>)
    requires Apart(p, q)
    ensures Apart(q, p)
    decreases |p|
  {
    if p[0] == q[0] {
      ApartSymmetric(p[1..], q[1..]);
    }
  }

  /** After an accepted update every path reads back the value set at it. */
  lemma {:induction false} ApplyAllReadBack(d: Doc, paths: seq<string>, vals: map<string, Value>, k: nat)
    requires forall x :: x in paths ==> x in vals
    requires Acceptable(paths) && ApplyAll(d, paths, vals).Some? && k < |paths|
    ensures GetAt(ApplyAll(d, paths, vals).value, Segments(paths[k])) == Some(vals[paths[k]])
    decreases |paths|
  {
    var d1 := SetAt(d, Segments(paths[0]), vals[paths[0]]).value;
    var rest := paths[1..];
    assert Acceptable(rest) by {
      forall i | 0 <= i < |rest| ensures WellFormed(Segments(rest[i])) {
        assert rest[i] == paths[i + 1];
      }
      forall i, j | 0 <= i < |rest| && 0 <= j < |rest| && i != j ensures Apart(Segments(rest[i]), Segments(rest[j])) {
        assert rest[i] == paths[i + 1] && rest[j] == paths[j + 1];
      }
    }
    if k == 0 {
      SetThenGet(d, Segments(paths[0]), vals[paths[0]]);
      forall i | 0 <= i < |rest| ensures Apart(Segments(rest[i]), Segments(paths[0])) {
        assert rest[i] == paths[i + 1];
      }
      ApplyAllLeaves(d1, rest, vals, Segments(paths[0]));
    } else {
      assert rest[k - 1] == paths[k];
      ApplyAllReadBack(d1, rest, vals, k - 1);
    }
  }

  // ---------------------------------------------------------------------------
  // Ensemble documents

  const EnsembleIdField := "ensemble_id"
  const DirectoryField := "directory"
  const StatusField := "status"
  const DescriptionField := "description"
  const NicknameField := "nickname"
  const PhysicsField := "physics"
  const ConfigurationsField := "configurations"
  const HmcPathsField := "hmc_paths"
  const DefaultParamsField := "default_params"
  const TagsField := "tags"
  const NotesField := "notes"
  const CreatedField := "created_at"

  function StatusText(s: Validators.Status): string {
    match s
    case Tuning => "TUNING"
    case Production => "PRODUCTION"
  }

  function OptText(o: Option<string>): (r: Value)
    ensures o.None? <==> r == Null
  {
    match o
    case None => Null
    case Some(t) => Str(t)
  }

  /** `PhysicsParams.dict()`: the floats as decimals, the rest as ints. */
  function PhysicsDoc(p: Validators.Physics): Value {
    Obj(map["beta" := Real(p.beta), "b" := Real(p.b), "Ls" := Number(p.Ls), "mc" := Real(p.mc),
            "ms" := Real(p.ms), "ml" := Real(p.ml), "L" := Number(p.L), "T" := Number(p.T)])
  }

  /** The payload `EnsembleCreate(directory=..., physics=..., **kwargs)`
      validates. The two named arguments may not come again in `kwargs`;
      other keyword arguments are ignored by the model class. */
  function Validated(directory: string, physics: Dict<Nested.Val>, kwargs: Dict<Nested.Val>)
    : (r: Result<Validators.EnsembleCreate>)
    requires physics.Valid() && kwargs.Valid()
    ensures r.Ok? ==> r.value.directory == directory && Validators.ValidPhysics(r.value.physics)
    ensures r.Ok? ==> DirectoryField !in kwargs.m && PhysicsField !in kwargs.m
  {
    if DirectoryField in kwargs.m || PhysicsField in kwargs.m then
      Err(DuplicateKeyword)
    else
      Validators.ValidateEnsembleCreate(Set(Set(kwargs, DirectoryField, Nested.Str(directory)), PhysicsField, Nested.Map(physics)))
  }

  /** The document `add_ensemble` inserts, with the nickname field present
      only when there is a nickname. */
  function EnsembleDoc(id: int, v: Validators.EnsembleCreate, now: int): (d: Doc)
    ensures Field(d, EnsembleIdField) == Number(id) && Field(d, DirectoryField) == Str(v.directory)
    ensures NicknameField in d <==> v.nickname.Some?
    ensures v.nickname.Some? ==> d[NicknameField] == Str(v.nickname.value)
  {
    var base := map[
      EnsembleIdField := Number(id),
      DirectoryField := Str(v.directory),
      StatusField := Str(StatusText(v.status)),
      DescriptionField := OptText(v.description),
      PhysicsField := PhysicsDoc(v.physics),
      ConfigurationsField := Obj(map[]),
      HmcPathsField := Obj(map[]),
      DefaultParamsField := Obj(map[]),
      TagsField := List([]),
      NotesField := Null,
      CreatedField := Stamp(now)];
    match v.nickname
    case None => base
    case Some(n) => base[NicknameField := Str(n)]
  }

  /** The document as `add_ensemble` writes it: `"nickname": None` when
      there is no nickname. */
  function AsWrittenEnsembleDoc(id: int, v: Validators.EnsembleCreate, now: int): (d: Doc)
    ensures Field(d, EnsembleIdField) == Number(id) && Field(d, DirectoryField) == Str(v.directory)
    ensures NicknameField in d && d[NicknameField] == OptText(v.nickname)
  {
    EnsembleDoc(id, v, now)[NicknameField := OptText(v.nickname)]
  }

  /** Two ensemble documents that the unique indexes refuse side by side:
      the same directory (null when missing; the index is not sparse), or
      the same nickname where both documents have the field (the nickname
      index is sparse, so only a document without the field is skipped; a
      null value is indexed like any other). */
  predicate Collide(a: Doc, b: Doc) {
    Field(a, DirectoryField) == Field(b, DirectoryField)
    || (NicknameField in a && NicknameField in b && a[NicknameField] == b[NicknameField])
  }

  /** As written, two ensembles created without a nickname collide in the
      nickname index, whatever their directories: the second insert raises
      DuplicateKeyError, reported as "Ensemble already exists". */
  lemma AsWrittenUnnamedCollide(i: int, j: int, v: Validators.EnsembleCreate, w: Validators.EnsembleCreate, now: int)
    requires v.nickname.None? && w.nickname.None?
    ensures Collide(AsWrittenEnsembleDoc(i, v, now), AsWrittenEnsembleDoc(j, w, now))
  {
    assert AsWrittenEnsembleDoc(i, v, now)[NicknameField] == Null;
    assert AsWrittenEnsembleDoc(j, w, now)[NicknameField] == Null;
  }

  /** As written, once one ensemble without a nickname is stored, every
      later `add_ensemble` without a nickname is refused. */
  lemma AsWrittenSecondUnnamedRefused(ens: map<int, Doc>, j: int, v: Validators.EnsembleCreate, now: int)
    requires j in ens && NicknameField in ens[j] && ens[j][NicknameField] == Null
    requires v.nickname.None?
    ensures Clashes(ens, Sqlite.NextId(ens.Keys), AsWrittenEnsembleDoc(Sqlite.NextId(ens.Keys), v, now))
  {
    var id := Sqlite.NextId(ens.Keys);
    assert j != id;
    assert Collide(ens[j], AsWrittenEnsembleDoc(id, v, now));
  }

  /** With the field left out when there is no nickname, two ensembles
      collide only on a shared directory or a shared nickname. */
  lemma EnsembleDocsCollide(i: int, j: int, v: Validators.EnsembleCreate, w: Validators.EnsembleCreate, now: int, later: int)
    ensures Collide(EnsembleDoc(i, v, now), EnsembleDoc(j, w, later)) <==>
              v.directory == w.directory || (v.nickname.Some? && v.nickname == w.nickname)
  {
  }

  // ---------------------------------------------------------------------------
  // Operation documents

  const OperationIdField := "operation_id"
  const EnsembleDirectoryField := "ensemble_directory"
  const OperationTypeField := "operation_type"
  const TimingSection := "timing"
  const SlurmSection := "slurm"
  const ExecutionSection := "execution"
  const ChainSection := "chain"
  const ParamsSection := "params"
  const UpdateTimeField := "update_time"
  const AttemptKey := "attempt_number"
  const ChainMemberKey := "is_chain_member"

  /** The reserved keyword arguments of `add_operation`, section by
      section; `slurm_job_id` is stored as `slurm.job_id`, every other under
      its own name. */
  const SlurmJobArg := "slurm_job_id"
  const SlurmArgs: seq<string> := ["host", "batch_script", "output_log", "error_log", "exit_code", "slurm_status"]
  const ExecutionArgs: seq<string> := ["run_dir", "config_start", "config_end", "config_increment"]
  const ChainArgs: seq<string> := ["parent_operation_id", AttemptKey, ChainMemberKey]

  predicate Reserved(k: string) {
    k == SlurmJobArg || k in SlurmArgs || k in ExecutionArgs || k in ChainArgs
  }

  /** The value a reserved field takes when its argument is not given. */
  function Default(k: string): Value {
    if k == AttemptKey then Number(1) else if k == ChainMemberKey then Flag(false) else Null
  }

  /** `params.pop(k, default)`. */
  function Pop(params: map<string, Value>, k: string): Value {
    if k in params then params[k] else Default(k)
  }

  /** The fields popped for the arguments `args`. */
  function Popped(params: map<string, Value>, args: seq<string>): (r: map<string, Value>)
    ensures forall k :: k in r <==> k in args
    ensures forall k :: k in args ==> r[k] == Pop(params, k)
  {
    map k | k in args :: Pop(params, k)
  }

  /** The `slurm` section: the job id, the user and the popped fields. */
  function SlurmDoc(params: map<string, Value>, user: string): (r: map<string, Value>)
    ensures "job_id" in r && r["job_id"] == Pop(params, SlurmJobArg)
    ensures "user" in r && r["user"] == Str(user)
    ensures forall k :: k in SlurmArgs ==> k in r && r[k] == Pop(params, k)
  {
    assert "job_id" !in SlurmArgs && "user" !in SlurmArgs;
    Popped(params, SlurmArgs)["job_id" := Pop(params, SlurmJobArg)]["user" := Str(user)]
  }

  /** What is left of the keyword arguments once the reserved ones are
      popped. */
  function Rest(params: map<string, Value>): (r: map<string, Value>)
    ensures forall k :: k in r <==> k in params && !Reserved(k)
    ensures forall k :: k in r ==> r[k] == params[k]
  {
    map k | k in params && !Reserved(k) :: params[k]
  }

  /** The document `add_operation` inserts: the timing section stamped now,
      the reserved arguments in the `slurm`, `execution` and `chain`
      sections, and the rest under `params`. */
  function OperationDoc(id: int, ensembleId: int, directory: Value, opType: string, status: string,
                        user: string, params: map<string, Value>, now: int): (d: Doc)
    ensures Field(d, OperationIdField) == Number(id) && Field(d, EnsembleIdField) == Number(ensembleId)
    ensures SlurmSection in d && d[SlurmSection] == Obj(SlurmDoc(params, user))
    ensures ExecutionSection in d && d[ExecutionSection] == Obj(Popped(params, ExecutionArgs))
    ensures ChainSection in d && d[ChainSection] == Obj(Popped(params, ChainArgs))
    ensures ParamsSection in d && d[ParamsSection] == Obj(Rest(params))
  {
    map[
      OperationIdField := Number(id),
      EnsembleIdField := Number(ensembleId),
      EnsembleDirectoryField := directory,
      OperationTypeField := Str(opType),
      StatusField := Str(status),
      TimingSection := Obj(map["creation_time" := Stamp(now), "start_time" := Null, UpdateTimeField := Stamp(now),
                               "end_time" := Null, "runtime_seconds" := Null]),
      SlurmSection := Obj(SlurmDoc(params, user)),
      ExecutionSection := Obj(Popped(params, ExecutionArgs)),
      ChainSection := Obj(Popped(params, ChainArgs)),
      ParamsSection := Obj(Rest(params))]
  }

  /** Every keyword argument of `add_operation` ends up in one place: a
      reserved one in its section (when absent: attempt 1, not a chain
      member, else null), any other under `params`, and no reserved one
      under `params`. */
  lemma OperationDocRoutes(id: int, ensembleId: int, directory: Value, opType: string, status: string,
                           user: string, params: map<string, Value>, now: int, k: string)
    ensures var d := OperationDoc(id, ensembleId, directory, opType, status, user, params, now);
            GetAt(d, [SlurmSection, "job_id"]) == Some(Pop(params, SlurmJobArg))
            && (k in SlurmArgs ==> GetAt(d, [SlurmSection, k]) == Some(Pop(params, k)))
            && (k in ExecutionArgs ==> GetAt(d, [ExecutionSection, k]) == Some(Pop(params, k)))
            && (k in ChainArgs ==> GetAt(d, [ChainSection, k]) == Some(Pop(params, k)))
    ensures var d := OperationDoc(id, ensembleId, directory, opType, status, user, params, now);
            GetAt(d, [ParamsSection, k]) == if k in params && !Reserved(k) then Some(params[k]) else None
  {
    var d := OperationDoc(id, ensembleId, directory, opType, status, user, params, now);
    GetInSection(d, SlurmSection, "job_id");
    GetInSection(d, SlurmSection, k);
    GetInSection(d, ExecutionSection, k);
    GetInSection(d, ChainSection, k);
    GetInSection(d, ParamsSection, k);
  }

  /** Reading a field of a section. */
  lemma GetInSection(d: Doc, a: string, b: string)
    requires a in d && d[a].Obj?
    ensures GetAt(d, [a, b]) == if b in d[a].fields then Some(d[a].fields[b]) else None
  {
    assert [a, b][1..] == [b];
  }

  // ---------------------------------------------------------------------------
  // Default parameters

  const InputParamsField := "input_params"
  const JobParamsField := "job_params"

  /** `d.get(k, {})` ready for the next `.get`: a missing field gives an
      empty document; a value that is not a document has no `get`. */
  function Sub(d: Doc, k: string): (r: Result<Doc>)
    ensures k !in d ==> r == Ok(map[])
    ensures k in d ==> (r.Ok? <==> d[k].Obj?)
    ensures k in d && d[k].Obj? ==> r == Ok(d[k].fields)
  {
    if k !in d then Ok(map[])
    else match d[k]
      case Obj(inner) => Ok(inner)
      case _ => Err("AttributeError: '" + k + "' has no attribute 'get'")
  }

  /** `d.get(k, "")`. */
  function TextOr(d: Doc, k: string): Value {
    if k in d then d[k] else Str("")
  }

  /** The lookup of `get_default_params` in one ensemble document: the input
      and job parameters of a variant, `""` for each that is missing. */
  function DefaultsOf(doc: Doc, jobType: string, variant: string): Result<(Value, Value)> {
    var dp :- Sub(doc, DefaultParamsField);
    var jt :- Sub(dp, jobType);
    var v :- Sub(jt, variant);
    Ok((TextOr(v, InputParamsField), TextOr(v, JobParamsField)))
  }

  /** `default_params.<job type>.<variant>` and the fields below it. */
  function VariantPath(jobType: string, variant: string): string {
    Join([DefaultParamsField, jobType, variant], '.')
  }

  function LeafPath(jobType: string, variant: string, leaf: string): string {
    Join([DefaultParamsField, jobType, variant, leaf], '.')
  }

  /** The two paths `set_default_params` sets. */
  function DefaultsPaths(jobType: string, variant: string): seq<string> {
    [LeafPath(jobType, variant, InputParamsField), LeafPath(jobType, variant, JobParamsField)]
  }

  /** The `$set` of `set_default_params` on one ensemble document. */
  function SetDefaults(doc: Doc, jobType: string, variant: string, input: string, job: string): Result<Doc> {
    var paths := DefaultsPaths(jobType, variant);
    var vals := map[paths[0] := Str(input), paths[1] := Str(job)];
    if !Acceptable(paths) then Err(EmptyPathWrite)
    else match ApplyAll(doc, paths, vals)
      case None => Err(NonDocumentWrite)
      case Some(d) => Ok(d)
  }

  /** The `$unset` of `delete_default_params` on one ensemble document. */
  function DeleteDefaults(doc: Doc, jobType: string, variant: string): Result<Doc> {
    var path := Segments(VariantPath(jobType, variant));
    if !WellFormed(path) then Err(EmptyPathWrite)
    else Ok(UnsetAt(doc, path))
  }

  lemma DotFree()
    ensures '.' !in DefaultParamsField && '.' !in InputParamsField && '.' !in JobParamsField
  {
  }

  lemma LeafSegments(jobType: string, variant: string, leaf: string)
    requires '.' !in jobType && '.' !in variant && '.' !in leaf
    ensures Segments(LeafPath(jobType, variant, leaf)) == [DefaultParamsField, jobType, variant, leaf]
  {
    DotFree();
    var parts := [DefaultParamsField, jobType, variant, leaf];
    assert forall k :: 0 <= k < |parts| ==> '.' !in parts[k];
    SplitJoin(parts, '.');
  }

  /** A value at `a.b.c.e` is what the chain of `.get` calls finds. */
  lemma GetAtChain(d: Doc, a: string, b: string, c: string, e: string, x: Value)
    requires GetAt(d, [a, b, c, e]) == Some(x)
    ensures Sub(d, a).Ok? && Sub(Sub(d, a).value, b).Ok? && Sub(Sub(Sub(d, a).value, b).value, c).Ok?
    ensures var v := Sub(Sub(Sub(d, a).value, b).value, c).value; e in v && v[e] == x
  {
    assert [a, b, c, e][1..] == [b, c, e];
    assert [b, c, e][1..] == [c, e];
    assert [c, e][1..] == [e];
    assert a in d && d[a].Obj?;
    var da := d[a].fields;
    assert GetAt(da, [b, c, e]) == Some(x);
    assert b in da && da[b].Obj?;
    var db := da[b].fields;
    assert GetAt(db, [c, e]) == Some(x);
    assert c in db && db[c].Obj?;
    assert GetAt(db[c].fields, [e]) == Some(x);
  }

  /** What `set_default_params` stores, `get_default_params` reads back, for
      a job type and a variant without dots. */
  lemma SetThenGetDefaults(doc: Doc, jobType: string, variant: string, input: string, job: string)
    requires '.' !in jobType && '.' !in variant
    requires SetDefaults(doc, jobType, variant, input, job).Ok?
    ensures DefaultsOf(SetDefaults(doc, jobType, variant, input, job).value, jobType, variant) == Ok((Str(input), Str(job)))
  {
    DotFree();
    var paths := DefaultsPaths(jobType, variant);
    var vals := map[paths[0] := Str(input), paths[1] := Str(job)];
    var d := ApplyAll(doc, paths, vals).value;
    ApplyAllReadBack(doc, paths, vals, 0);
    ApplyAllReadBack(doc, paths, vals, 1);
    LeafSegments(jobType, variant, InputParamsField);
    LeafSegments(jobType, variant, JobParamsField);
    GetAtChain(d, DefaultParamsField, jobType, variant, InputParamsField, Str(input));
    GetAtChain(d, DefaultParamsField, jobType, variant, JobParamsField, Str(job));
  }

  /** A variant path without dots splits into its three fields. */
  lemma VariantSegments(jobType: string, variant: string)
    requires '.' !in jobType && '.' !in variant
    ensures Segments(VariantPath(jobType, variant)) == [DefaultParamsField, jobType, variant]
  {
    DotFree();
    var parts := [DefaultParamsField, jobType, variant];
    assert forall k :: 0 <= k < |parts| ==> '.' !in parts[k];
    SplitJoin(parts, '.');
  }

  /** After `delete_default_params`, a variant whose lookup succeeded reads
      as empty parameters. */
  lemma DeleteThenGetDefaults(doc: Doc, jobType: string, variant: string)
    requires '.' !in jobType && '.' !in variant
    requires DefaultsOf(doc, jobType, variant).Ok? && DeleteDefaults(doc, jobType, variant).Ok?
    ensures DefaultsOf(DeleteDefaults(doc, jobType, variant).value, jobType, variant) == Ok((Str(""), Str("")))
  {
    VariantSegments(jobType, variant);
    UnsetDefaultsClears(doc, jobType, variant);
  }

  lemma UnsetDefaultsClears(doc: Doc, jobType: string, variant: string)
    requires DefaultsOf(doc, jobType, variant).Ok?
    ensures DefaultsOf(UnsetAt(doc, [DefaultParamsField, jobType, variant]), jobType, variant) == Ok((Str(""), Str("")))
  {
    var parts := [DefaultParamsField, jobType, variant];
    assert parts[1..] == [jobType, variant];
    var d := UnsetAt(doc, parts);
    if DefaultParamsField in doc {
      var dp := doc[DefaultParamsField].fields;
      var dp' := UnsetAt(dp, [jobType, variant]);
      assert d == doc[DefaultParamsField := Obj(dp')];
      UnsetVariant(dp, jobType, variant);
      var v := Sub(dp, jobType).value - {variant};
      assert Sub(v, variant) == Ok(map[]);
    } else {
      assert d == doc;
    }
  }

  lemma UnsetVariant(dp: Doc, jobType: string, variant: string)
    requires Sub(dp, jobType).Ok?
    ensures Sub(UnsetAt(dp, [jobType, variant]), jobType) == Ok(Sub(dp, jobType).value - {variant})
  {
    assert [jobType, variant][1..] == [variant];
    if jobType in dp {
      var jt := dp[jobType].fields;
      var u := UnsetAt(jt, [variant]);
      assert u == jt - {variant};
    } else {
      var empty: Doc := map[];
      assert empty - {variant} == empty;
    }
  }

  /** One entry of `list_default_params`. */
  datatype DefaultsEntry = DefaultsEntry(jobType: string, variant: string, input: Value, job: Value)

  /** The job types the listing looks at: all of them, or the one asked for
      when it is not empty. */
  predicate Considered(jobType: Option<string>, jt: string) {
    jobType.None? || jobType.value == "" || jt == jobType.value
  }

  /** The variant `jt.vn` exists as a document under `default_params`. */
  predicate HasVariant(doc: Doc, jt: string, vn: string) {
    DefaultParamsField in doc && doc[DefaultParamsField].Obj?
    && jt in doc[DefaultParamsField].fields && doc[DefaultParamsField].fields[jt].Obj?
    && vn in doc[DefaultParamsField].fields[jt].fields
    && doc[DefaultParamsField].fields[jt].fields[vn].Obj?
  }

  /** The entries `list_default_params` collects from one ensemble document,
      as a set (the order of the listing is left out); the error stands for
      an `.items()` or `.get` on a value that is not a document. */
  function ListDefaults(doc: Doc, jobType: Option<string>): Result<set<DefaultsEntry>> {
    var dp :- Sub(doc, DefaultParamsField);
    if exists jt :: jt in dp && Considered(jobType, jt) && !dp[jt].Obj? then
      Err(NoItems)
    else if exists jt, vn :: jt in dp && Considered(jobType, jt) && dp[jt].Obj? && vn in dp[jt].fields && !dp[jt].fields[vn].Obj? then
      Err(NoGet)
    else
      Ok(set jt, vn | jt in dp && Considered(jobType, jt) && dp[jt].Obj? && vn in dp[jt].fields && dp[jt].fields[vn].Obj?
                   :: DefaultsEntry(jt, vn, TextOr(dp[jt].fields[vn].fields, InputParamsField),
                                    TextOr(dp[jt].fields[vn].fields, JobParamsField)))
  }

  /** Every listed entry is a considered variant whose parameters are those
      `get_default_params` returns, and every considered variant is listed. */
  lemma ListedDefaults(doc: Doc, jobType: Option<string>, jt: string, vn: string)
    requires ListDefaults(doc, jobType).Ok?
    ensures forall e :: e in ListDefaults(doc, jobType).value ==>
              Considered(jobType, e.jobType) && HasVariant(doc, e.jobType, e.variant)
              && DefaultsOf(doc, e.jobType, e.variant) == Ok((e.input, e.job))
    ensures Considered(jobType, jt) && HasVariant(doc, jt, vn) ==>
              var p := DefaultsOf(doc, jt, vn).value;
              DefaultsEntry(jt, vn, p.0, p.1) in ListDefaults(doc, jobType).value
  {
  }

  // ---------------------------------------------------------------------------
  // Operation updates, listings and measurements

  /** `"timing.update_time"`. */
  const TimingUpdatePath := TimingSection + "." + UpdateTimeField

  /** The `$set` document of the operation updates: the status and the
      update time, then the keyword arguments, which may override either. */
  function OperationSet(status: string, updates: Dict<Value>, now: int): (r: Dict<Value>)
    requires updates.Valid()
    ensures r.Valid()
  {
    Update(StatusAndTime(status, now), updates)
  }

  function StatusAndTime(status: string, now: int): (r: Dict<Value>)
    ensures r.Valid()
  {
    assert |TimingUpdatePath| > |StatusField|;
    Dict([StatusField, TimingUpdatePath], map[StatusField := Str(status), TimingUpdatePath := Stamp(now)])
  }

  lemma StatusNotTiming()
    ensures StatusField != TimingUpdatePath
  {
    assert |TimingUpdatePath| > |StatusField|;
  }

  /** The `$set` document holds the keyword arguments, and the status and
      the update time unless an argument overrides them. */
  lemma OperationSetContents(status: string, updates: Dict<Value>, now: int)
    requires updates.Valid()
    ensures var r := OperationSet(status, updates, now);
            (forall k :: k in updates.m ==> k in r.m && r.m[k] == updates.m[k])
            && (StatusField !in updates.m ==> StatusField in r.m && r.m[StatusField] == Str(status))
            && (TimingUpdatePath !in updates.m ==> TimingUpdatePath in r.m && r.m[TimingUpdatePath] == Stamp(now))
  {
    StatusNotTiming();
    UpdateValues(StatusAndTime(status, now), updates);
  }

  /** The `$set` document sets the status, the update time and the keyword
      arguments, and nothing else. */
  lemma OperationSetKeys(status: string, updates: Dict<Value>, now: int, k: string)
    requires updates.Valid()
    ensures k in OperationSet(status, updates, now).m <==> k in updates.m || k == StatusField || k == TimingUpdatePath
  {
    var st := StatusAndTime(status, now);
    UpdateValues(st, updates);
    assert k in st.m <==> k == StatusField || k == TimingUpdatePath;
  }

  /** The operation `update_operation_by_slurm_id` looks for. */
  predicate SlurmMatch(d: Doc, job: string, ensembleId: int, opType: string) {
    GetAt(d, [SlurmSection, "job_id"]) == Some(Str(job))
    && Field(d, EnsembleIdField) == Number(ensembleId) && Field(d, OperationTypeField) == Str(opType)
  }

  /** The operations of an ensemble. */
  function OpsOf(ops: map<int, Doc>, e: int): (r: set<int>)
    ensures forall o :: o in r <==> o in ops && Field(ops[o], EnsembleIdField) == Number(e)
  {
    set o | o in ops && Field(ops[o], EnsembleIdField) == Number(e)
  }

  /** The operations of the other ensembles. */
  function WithoutOps(ops: map<int, Doc>, e: int): (r: map<int, Doc>)
    ensures r.Keys == ops.Keys - OpsOf(ops, e)
    ensures forall o :: o in r ==> r[o] == ops[o]
  {
    map o | o in ops && Field(ops[o], EnsembleIdField) != Number(e) :: ops[o]
  }

  /** Clearing one ensemble's history leaves it with none and leaves every
      other ensemble's operations as they were. */
  lemma ClearKeepsOthers(ops: map<int, Doc>, e: int, f: int)
    ensures OpsOf(WithoutOps(ops, e), e) == {}
    ensures f != e ==> OpsOf(WithoutOps(ops, e), f) == OpsOf(ops, f)
    ensures |WithoutOps(ops, e)| + |OpsOf(ops, e)| == |ops|
  {
    assert WithoutOps(ops, e).Keys !! OpsOf(ops, e);
    assert WithoutOps(ops, e).Keys + OpsOf(ops, e) == ops.Keys;
  }

  predicate Increasing(r: seq<int>) {
    forall i, j :: 0 <= i < j < |r| ==> r[i] < r[j]
  }

  lemma IncreasingSnoc(rest: seq<int>, m: int)
    requires Increasing(rest) && forall i :: 0 <= i < |rest| ==> rest[i] < m
    ensures Increasing(rest + [m])
  {
    var r := rest + [m];
    forall i, j | 0 <= i < j < |r| ensures r[i] < r[j] {
      assert r[i] == rest[i];
      if j < |rest| {
        assert r[j] == rest[j];
      }
    }
  }

  /** The ids of a set in ascending order. */
  ghost function Ascending(s: set<int>): (r: seq<int>)
    ensures |r| == |s| && Increasing(r)
    ensures forall x :: x in r <==> x in s
    decreases |s|
  {
    if s == {} then []
    else
      var m := Sqlite.Max(s);
      var rest := Ascending(s - {m});
      AscendingStep(s, m, rest);
      rest + [m]
  }

  /** The largest id appended to the others in ascending order. */
  lemma AscendingStep(s: set<int>, m: int, rest: seq<int>)
    requires m in s && forall x :: x in s ==> x <= m
    requires |rest| == |s - {m}| && Increasing(rest)
    requires forall x :: x in rest <==> x in s - {m}
    ensures |rest + [m]| == |s| && Increasing(rest + [m])
    ensures forall x :: x in rest + [m] <==> x in s
  {
    assert forall i :: 0 <= i < |rest| ==> rest[i] in rest;
    IncreasingSnoc(rest, m);
  }

  /** The numeric id a document carries in a field, 0 when it has none. */
  function IdIn(d: Doc, k: string): int {
    match Field(d, k)
    case Number(n) => n
    case _ => 0
  }

  /** A summary (or, when `detailed`, a fuller) entry of `list_ensembles`. */
  function EnsembleEntry(d: Doc, detailed: bool): (r: Doc)
    ensures EnsembleIdField in r && r[EnsembleIdField] == Field(d, EnsembleIdField)
    ensures DirectoryField in r && r[DirectoryField] == Field(d, DirectoryField)
    ensures NicknameField in r && r[NicknameField] == Field(d, NicknameField)
    ensures detailed ==> PhysicsField in r && TagsField in r && DefaultParamsField in r
  {
    var summary := map[EnsembleIdField := Field(d, EnsembleIdField), DirectoryField := Field(d, DirectoryField),
                       StatusField := Field(d, StatusField), DescriptionField := Field(d, DescriptionField),
                       NicknameField := Field(d, NicknameField)];
    if !detailed then summary
    else summary + map[PhysicsField := FieldOr(d, PhysicsField, Obj(map[])),
                       ConfigurationsField := FieldOr(d, ConfigurationsField, Obj(map[])),
                       HmcPathsField := FieldOr(d, HmcPathsField, Obj(map[])),
                       TagsField := FieldOr(d, TagsField, List([])),
                       DefaultParamsField := FieldOr(d, DefaultParamsField, Obj(map[]))]
  }

  /** `d.get(k, default)`. */
  function FieldOr(d: Doc, k: string, default: Value): Value {
    if k in d then d[k] else default
  }

  const ConfigNumberField := "config_number"
  const MeasurementTypeField := "measurement_type"

  /** The document `add_measurement` inserts; `metadata or {}` makes a
      missing metadata an empty document. */
  function MeasurementDoc(ensembleId: int, config: int, mtype: string, data: map<string, Value>,
                          metadata: Option<map<string, Value>>, now: int): (d: Doc)
    ensures Field(d, EnsembleIdField) == Number(ensembleId) && Field(d, ConfigNumberField) == Number(config)
    ensures Field(d, MeasurementTypeField) == Str(mtype)
    ensures "metadata" in d && (metadata.None? ==> d["metadata"] == Obj(map[]))
  {
    map[EnsembleIdField := Number(ensembleId), ConfigNumberField := Number(config),
        MeasurementTypeField := Str(mtype), "measurement_time" := Stamp(now),
        "data" := Obj(data), "metadata" := Obj(metadata.GetOr(map[]))]
  }

  /** The query of `query_measurements`: the ensemble and the type, and,
      when either bound is given, a configuration number within the bounds
      given. */
  predicate Wanted(d: Doc, e: int, mtype: string, start: Option<int>, end: Option<int>) {
    Field(d, EnsembleIdField) == Number(e) && Field(d, MeasurementTypeField) == Str(mtype)
    && ((start.None? && end.None?)
        || (Field(d, ConfigNumberField).Number?
            && (start.None? || start.value <= IdIn(d, ConfigNumberField))
            && (end.None? || IdIn(d, ConfigNumberField) <= end.value)))
  }

  function Select(ms: seq<Doc>, e: int, mtype: string, start: Option<int>, end: Option<int>): (r: seq<Doc>)
    ensures forall d :: d in r ==> Wanted(d, e, mtype, start, end)
    ensures forall i :: 0 <= i < |ms| && Wanted(ms[i], e, mtype, start, end) ==> ms[i] in r
    ensures multiset(r) <= multiset(ms)
  {
    if ms == [] then []
    else
      var rest := Select(ms[1..], e, mtype, start, end);
      assert ms == [ms[0]] + ms[1..];
      assert forall i :: 1 <= i < |ms| ==> ms[i] == ms[1..][i - 1];
      if Wanted(ms[0], e, mtype, start, end) then [ms[0]] + rest else rest
  }

  /** Ordered by configuration number. */
  predicate ByConfig(s: seq<Doc>) {
    forall i, j :: 0 <= i < j < |s| ==> IdIn(s[i], ConfigNumberField) <= IdIn(s[j], ConfigNumberField)
  }

  lemma ByConfigCons(x: Doc, rest: seq<Doc>)
    requires ByConfig(rest)
    requires forall i :: 0 <= i < |rest| ==> IdIn(x, ConfigNumberField) <= IdIn(rest[i], ConfigNumberField)
    ensures ByConfig([x] + rest)
  {
    var r := [x] + rest;
    forall i, j | 0 <= i < j < |r| ensures IdIn(r[i], ConfigNumberField) <= IdIn(r[j], ConfigNumberField) {
      assert r[j] == rest[j - 1];
      if i > 0 {
        assert r[i] == rest[i - 1];
      }
    }
  }

  function InsertByConfig(d: Doc, s: seq<Doc>): (r: seq<Doc>)
    requires ByConfig(s)
    ensures ByConfig(r)
    ensures forall x :: x in r ==> x == d || x in s
  {
    if s == [] || IdIn(d, ConfigNumberField) < IdIn(s[0], ConfigNumberField) then [d] + s
    else
      var rest := InsertByConfig(d, s[1..]);
      assert forall x :: x in s[1..] ==> x in s;
      assert forall i :: 0 <= i < |rest| ==> rest[i] in rest;
      ByConfigCons(s[0], rest);
      [s[0]] + rest
  }

  /** Inserting adds exactly the one document. */
  lemma {:induction false} InsertByConfigAdds(d: Doc, s: seq<Doc>)
    requires ByConfig(s)
    ensures multiset(InsertByConfig(d, s)) == multiset(s) + multiset{d}
  {
    if s == [] || IdIn(d, ConfigNumberField) < IdIn(s[0], ConfigNumberField) {
    } else {
      InsertByConfigAdds(d, s[1..]);
      assert s == [s[0]] + s[1..];
    }
  }

  /** `.sort("config_number", ASCENDING)`; ties keep their insertion order. */
  function SortByConfig(s: seq<Doc>): (r: seq<Doc>)
    ensures ByConfig(r) && multiset(r) == multiset(s)
  {
    if s == [] then []
    else
      var init := SortByConfig(s[..|s| - 1]);
      InsertByConfigAdds(s[|s| - 1], init);
      assert s == s[..|s| - 1] + [s[|s| - 1]];
      InsertByConfig(s[|s| - 1], init)
  }

  /** The top-level field `head` of a dotted path whose first segment is
      `head`. */
  lemma FirstSegment(head: string, rest: string)
    requires '.' !in head
    ensures Segments(head + "." + rest)[0] == head
  {
    var s := head + "." + rest;
    assert s[|head|] == '.';
    assert forall k :: 0 <= k < |head| ==> s[k] == head[k];
    IndexOfFirst(s, '.', |head|);
    assert s[..|head|] == head;
  }

  /** An update whose every path starts elsewhere leaves the top-level
      field `k` as it was. */
  lemma {:induction false} ApplyAllKeeps(d: Doc, paths: seq<string>, vals: map<string, Value>, k: string)
    requires forall x :: x in paths ==> x in vals
    requires ApplyAll(d, paths, vals).Some?
    requires Avoids(paths, k)
    ensures var d' := ApplyAll(d, paths, vals).value; (k in d' <==> k in d) && (k in d ==> d'[k] == d[k])
  {
    forall i | 0 <= i < |paths| ensures Apart(Segments(paths[i]), [k]) {
      assert Segments(paths[i])[0] != [k][0];
    }
    ApplyAllLeaves(d, paths, vals, [k]);
  }

  /** `$unset` of a path leaves the top-level fields it does not start at. */
  lemma UnsetKeeps(d: Doc, path: seq<string>, k: string)
    requires path != [] && path[0] != k
    ensures var d' := UnsetAt(d, path); (k in d' <==> k in d) && (k in d ==> d'[k] == d[k])
  {
  }

  /** The ensemble documents of an id map satisfy the unique indexes on
      `ensemble_id`, `directory` and `nickname`. */
  predicate Indexed(ens: map<int, Doc>) {
    (forall i :: i in ens ==> Field(ens[i], EnsembleIdField) == Number(i))
    && (forall i, j :: i in ens && j in ens && i != j ==> !Collide(ens[i], ens[j]))
  }

  /** Replacing one ensemble document by one that keeps its id and clashes
      with no other keeps the indexes. */
  lemma IndexedReplace(ens: map<int, Doc>, id: int, doc: Doc)
    requires Indexed(ens) && Field(doc, EnsembleIdField) == Number(id)
    requires forall j :: j in ens && j != id ==> !Collide(ens[j], doc)
    ensures Indexed(ens[id := doc])
  {
  }

  /** An update that changes none of `ensemble_id`, `directory` and
      `nickname` keeps the indexes. */
  lemma IndexedKeep(ens: map<int, Doc>, id: int, doc: Doc)
    requires Indexed(ens) && id in ens
    requires Field(doc, EnsembleIdField) == Field(ens[id], EnsembleIdField)
    requires Field(doc, DirectoryField) == Field(ens[id], DirectoryField)
    requires (NicknameField in doc <==> NicknameField in ens[id])
    requires NicknameField in doc ==> doc[NicknameField] == ens[id][NicknameField]
    ensures Indexed(ens[id := doc])
  {
  }

  /** Some other ensemble clashes with `doc` in a unique index. */
  predicate Clashes(ens: map<int, Doc>, id: int, doc: Doc) {
    exists j :: j in ens && j != id && Collide(ens[j], doc)
  }

  predicate DirectoryIs(d: Doc, path: string) {
    Field(d, DirectoryField) == Str(path)
  }

  predicate NicknameIs(d: Doc, name: string) {
    Field(d, NicknameField) == Str(name)
  }

  /** What `int(identifier)` gives, if anything. */
  function IntOf(identifier: Sqlite.Identifier): Option<int> {
    match identifier
    case IdNumber(n) => Some(n)
    case IdText(s) => ParseInt(s)
  }

  /** `update_one` of the `$set` document `sd` on the operation `target`
      (none when the filter matches nothing): the result and the collection
      after it. A refused update leaves the collection as it was. */
  function SetOperation(ops: map<int, Doc>, target: Option<int>, sd: Dict<Value>): (Result<bool>, map<int, Doc>)
    requires sd.Valid()
  {
    if !Acceptable(sd.keys) then (Err(EmptyPathOrConflict), ops)
    else if target.None? || target.value !in ops then (Ok(false), ops)
    else match ApplyAll(ops[target.value], sd.keys, sd.m)
      case None => (Err(NonDocument), ops)
      case Some(d) => (Ok(d != ops[target.value]), ops[target.value := d])
  }

  /** The operation `update_operation_by_slurm_id` changes: the first of
      the matching ones in the collection's natural order, which is the
      order of their ids since each new id is one past the largest. */
  predicate FirstSlurmMatch(ops: map<int, Doc>, t: int, job: string, ensembleId: int, opType: string) {
    t in ops && SlurmMatch(ops[t], job, ensembleId, opType)
    && forall o :: o in ops && SlurmMatch(ops[o], job, ensembleId, opType) ==> t <= o
  }

  /** The measurements of the other ensembles, in order. */
  function OtherMeasurements(ms: seq<Doc>, e: int): (r: seq<Doc>)
    ensures forall i :: 0 <= i < |r| ==> Field(r[i], EnsembleIdField) != Number(e)
    ensures forall i :: 0 <= i < |ms| && Field(ms[i], EnsembleIdField) != Number(e) ==> ms[i] in r
    ensures multiset(r) <= multiset(ms)
  {
    if ms == [] then []
    else
      var rest := OtherMeasurements(ms[1..], e);
      assert ms == [ms[0]] + ms[1..];
      assert forall i :: 1 <= i < |ms| ==> ms[i] == ms[1..][i - 1];
      if Field(ms[0], EnsembleIdField) != Number(e) then [ms[0]] + rest else rest
  }

  /** Every path of the default parameters starts at `default_params`. */
  lemma DefaultsFirstSegment(jobType: string, variant: string)
    ensures Segments(VariantPath(jobType, variant))[0] == DefaultParamsField
    ensures forall i :: 0 <= i < |DefaultsPaths(jobType, variant)| ==> Segments(DefaultsPaths(jobType, variant)[i])[0] == DefaultParamsField
  {
    DotFree();
    FirstSegment(DefaultParamsField, Join([jobType, variant], '.'));
    FirstSegment(DefaultParamsField, Join([jobType, variant, InputParamsField], '.'));
    FirstSegment(DefaultParamsField, Join([jobType, variant, JobParamsField], '.'));
  }

  /** `set_default_params` touches neither the id, nor the directory, nor
      the nickname. */
  lemma SetDefaultsKeeps(doc: Doc, jobType: string, variant: string, input: string, job: string)
    requires SetDefaults(doc, jobType, variant, input, job).Ok?
    ensures var d := SetDefaults(doc, jobType, variant, input, job).value;
            Field(d, EnsembleIdField) == Field(doc, EnsembleIdField) && Field(d, DirectoryField) == Field(doc, DirectoryField)
            && (NicknameField in d <==> NicknameField in doc) && (NicknameField in doc ==> d[NicknameField] == doc[NicknameField])
  {
    var paths := DefaultsPaths(jobType, variant);
    var vals := map[paths[0] := Str(input), paths[1] := Str(job)];
    DefaultsFirstSegment(jobType, variant);
    ApplyAllKeeps(doc, paths, vals, EnsembleIdField);
    ApplyAllKeeps(doc, paths, vals, DirectoryField);
    ApplyAllKeeps(doc, paths, vals, NicknameField);
  }

  /** `status` and `timing.update_time` start elsewhere than at the id. */
  lemma OperationSetPaths(status: string, updates: Dict<Value>, now: int)
    requires updates.Valid()
    requires forall k :: k in updates.m ==> Segments(k)[0] != OperationIdField
    ensures Avoids(OperationSet(status, updates, now).keys, OperationIdField)
  {
    var sd := OperationSet(status, updates, now);
    FirstSegment(TimingSection, UpdateTimeField);
    StatusNotTiming();
    assert Segments(StatusField) == [StatusField] by {
      assert IndexOf(StatusField, '.').None?;
    }
    forall i | 0 <= i < |sd.keys| ensures Segments(sd.keys[i])[0] != OperationIdField {
      assert sd.keys[i] in sd.m;
      OperationSetKeys(status, updates, now, sd.keys[i]);
    }
  }

  /** No path of an update document starts at the top-level field `f`. */
  predicate Avoids(paths: seq<string>, f: string) {
    forall i :: 0 <= i < |paths| ==> Segments(paths[i])[0] != f
  }

  /** Every operation is stored under the id it carries. */
  predicate OpsIndexed(ops: map<int, Doc>) {
    forall o :: o in ops ==> Field(ops[o], OperationIdField) == Number(o)
  }

  /** An update whose paths avoid `operation_id` keeps every operation
      under its own id. */
  lemma SetOperationKeepsId(ops: map<int, Doc>, target: Option<int>, sd: Dict<Value>)
    requires sd.Valid() && Avoids(sd.keys, OperationIdField) && OpsIndexed(ops)
    ensures OpsIndexed(SetOperation(ops, target, sd).1)
  {
    if Acceptable(sd.keys) && target.Some? && target.value in ops {
      var t := target.value;
      var applied := ApplyAll(ops[t], sd.keys, sd.m);
      if applied.Some? {
        ApplyAllKeeps(ops[t], sd.keys, sd.m, OperationIdField);
        IndexedOpsReplace(ops, t, applied.value);
      }
    }
  }

  /** An operation update whose keyword arguments leave `operation_id`
      alone keeps every operation under the id it carries. */
  lemma OperationUpdateKeepsIds(ops: map<int, Doc>, target: Option<int>, status: string, updates: Dict<Value>, now: int)
    requires updates.Valid() && OpsIndexed(ops)
    requires forall k :: k in updates.m ==> Segments(k)[0] != OperationIdField
    ensures OpsIndexed(SetOperation(ops, target, OperationSet(status, updates, now)).1)
  {
    OperationSetPaths(status, updates, now);
    SetOperationKeepsId(ops, target, OperationSet(status, updates, now));
  }

  lemma IndexedOpsReplace(ops: map<int, Doc>, t: int, d: Doc)
    requires OpsIndexed(ops) && t in ops && Field(d, OperationIdField) == Field(ops[t], OperationIdField)
    ensures OpsIndexed(ops[t := d])
  {
  }

  /** The smallest element of a nonempty set of ids. */
  ghost function Least(s: set<int>): (m: int)
    requires s != {}
    ensures m in s && forall x :: x in s ==> m <= x
  {
    Sqlite.Inhabited(s);
    var x :| x in s;
    var rest := s - {x};
    if |rest| == 0 then
      assert forall y :: y in s ==> y in rest || y == x;
      x
    else
      var y := Least(rest);
      if y < x then y else x
  }

  /** The operation `update_operation_by_slurm_id` changes, if any. */
  ghost function SlurmTarget(ops: map<int, Doc>, job: string, ensembleId: int, opType: string): (t: Option<int>)
    ensures t.Some? ==> FirstSlurmMatch(ops, t.value, job, ensembleId, opType)
    ensures t.None? ==> forall o :: o in ops ==> !SlurmMatch(ops[o], job, ensembleId, opType)
  {
    var matches := set o | o in ops && SlurmMatch(ops[o], job, ensembleId, opType);
    assert forall o :: o in ops && SlurmMatch(ops[o], job, ensembleId, opType) ==> o in matches;
    if matches == {} then None else Some(Least(matches))
  }

  /** At most one operation is the first match. */
  lemma FirstSlurmMatchUnique(ops: map<int, Doc>, job: string, ensembleId: int, opType: string, t: int)
    requires FirstSlurmMatch(ops, t, job, ensembleId, opType)
    ensures SlurmTarget(ops, job, ensembleId, opType) == Some(t)
  {
  }

  /** After an accepted update of an operation, every path of the `$set`
      document reads back its value: the keyword arguments, and the status
      and the update time unless an argument overrides them. */
  lemma SetOperationReadBack(ops: map<int, Doc>, t: int, status: string, updates: Dict<Value>, now: int, i: nat)
    requires updates.Valid() && t in ops
    requires SetOperation(ops, Some(t), OperationSet(status, updates, now)).0.Ok?
    requires i < |OperationSet(status, updates, now).keys|
    ensures var sd := OperationSet(status, updates, now);
            var ops' := SetOperation(ops, Some(t), sd).1;
            t in ops' && GetAt(ops'[t], Segments(sd.keys[i])) == Some(sd.m[sd.keys[i]])
  {
    var sd := OperationSet(status, updates, now);
    ApplyAllReadBack(ops[t], sd.keys, sd.m, i);
  }

  /** The documents stored under a sequence of ids, in its order. */
  function DocsAt(m: map<int, Doc>, ids: seq<int>): (r: seq<Doc>)
    requires forall i :: 0 <= i < |ids| ==> ids[i] in m
    ensures |r| == |ids| && forall i :: 0 <= i < |ids| ==> r[i] == m[ids[i]]
  {
    seq(|ids|, i requires 0 <= i < |ids| => m[ids[i]])
  }

  /** Documents listed by ascending ids carry ascending ids. */
  lemma ListedInOrder(m: map<int, Doc>, ids: seq<int>, f: string)
    requires Increasing(ids) && forall i :: 0 <= i < |ids| ==> ids[i] in m && Field(m[ids[i]], f) == Number(ids[i])
    ensures var r := DocsAt(m, ids); forall i, j :: 0 <= i < j < |r| ==> IdIn(r[i], f) < IdIn(r[j], f)
  {
  }

  /** Every document whose id is listed is in the listing. */
  lemma ListedAll(m: map<int, Doc>, ids: seq<int>, o: int)
    requires forall i :: 0 <= i < |ids| ==> ids[i] in m
    requires o in ids
    ensures m[o] in DocsAt(m, ids)
  {
    var i :| 0 <= i < |ids| && ids[i] == o;
    assert DocsAt(m, ids)[i] == m[o];
  }

  /** The operations of an ensemble in id order, as `list_operations`
      returns them: one per operation of the ensemble, each carrying its
      id. */
  ghost function OperationsListing(ops: map<int, Doc>, e: int): (r: seq<Doc>)
    requires OpsIndexed(ops)
    ensures |r| == |OpsOf(ops, e)|
    ensures forall i :: 0 <= i < |r| ==> Field(r[i], EnsembleIdField) == Number(e)
  {
    var ids := Ascending(OpsOf(ops, e));
    assert forall i :: 0 <= i < |ids| ==> ids[i] in ids;
    DocsAt(ops, ids)
  }

  /** `list_operations` sorts by operation id. */
  lemma OperationsListingOrdered(ops: map<int, Doc>, e: int)
    requires OpsIndexed(ops)
    ensures var r := OperationsListing(ops, e);
            forall i, j :: 0 <= i < j < |r| ==> IdIn(r[i], OperationIdField) < IdIn(r[j], OperationIdField)
  {
    var ids := Ascending(OpsOf(ops, e));
    assert forall i :: 0 <= i < |ids| ==> ids[i] in ids;
    ListedInOrder(ops, ids, OperationIdField);
  }

  /** `list_operations` leaves none of the ensemble's operations out. */
  lemma OperationsListingComplete(ops: map<int, Doc>, e: int, o: int)
    requires OpsIndexed(ops) && o in OpsOf(ops, e)
    ensures ops[o] in OperationsListing(ops, e)
  {
    var ids := Ascending(OpsOf(ops, e));
    assert forall i :: 0 <= i < |ids| ==> ids[i] in ids;
    ListedAll(ops, ids, o);
  }

  lemma OperationsListingAll(ops: map<int, Doc>, e: int)
    requires OpsIndexed(ops)
    ensures forall o :: o in OpsOf(ops, e) ==> ops[o] in OperationsListing(ops, e)
  {
    forall o | o in OpsOf(ops, e) ensures ops[o] in OperationsListing(ops, e) {
      OperationsListingComplete(ops, e, o);
    }
  }

  /** The entries of `list_ensembles`, keyed by ensemble id. */
  function Entries(ens: map<int, Doc>, detailed: bool): (r: map<int, Doc>)
    ensures r.Keys == ens.Keys
    ensures forall i :: i in r ==> Field(r[i], EnsembleIdField) == Field(ens[i], EnsembleIdField)
  {
    map i | i in ens :: EnsembleEntry(ens[i], detailed)
  }

  /** One entry per ensemble in id order, as `list_ensembles` returns
      them. */
  ghost function EnsemblesListing(ens: map<int, Doc>, detailed: bool): (r: seq<Doc>)
    ensures |r| == |ens|
  {
    var ids := Ascending(ens.Keys);
    assert forall i :: 0 <= i < |ids| ==> ids[i] in ids;
    DocsAt(Entries(ens, detailed), ids)
  }

  /** `list_ensembles` sorts by ensemble id. */
  lemma EnsemblesListingOrdered(ens: map<int, Doc>, detailed: bool)
    requires Indexed(ens)
    ensures var r := EnsemblesListing(ens, detailed);
            forall i, j :: 0 <= i < j < |r| ==> IdIn(r[i], EnsembleIdField) < IdIn(r[j], EnsembleIdField)
  {
    var ids := Ascending(ens.Keys);
    var entries := Entries(ens, detailed);
    forall i | 0 <= i < |ids| ensures ids[i] in entries && Field(entries[ids[i]], EnsembleIdField) == Number(ids[i]) {
      assert ids[i] in ids;
    }
    ListedInOrder(entries, ids, EnsembleIdField);
  }

  /** `list_ensembles` has an entry for every ensemble. */
  lemma EnsemblesListingComplete(ens: map<int, Doc>, detailed: bool, o: int)
    requires o in ens
    ensures EnsembleEntry(ens[o], detailed) in EnsemblesListing(ens, detailed)
  {
    var ids := Ascending(ens.Keys);
    assert forall i :: 0 <= i < |ids| ==> ids[i] in ids;
    ListedAll(Entries(ens, detailed), ids, o);
  }

  lemma EnsemblesListingAll(ens: map<int, Doc>, detailed: bool)
    ensures forall o :: o in ens ==> EnsembleEntry(ens[o], detailed) in EnsemblesListing(ens, detailed)
  {
    forall o | o in ens ensures EnsembleEntry(ens[o], detailed) in EnsemblesListing(ens, detailed) {
      EnsemblesListingComplete(ens, detailed, o);
    }
  }

  /** The three collections, each with its unique indexes. */
  class Backend {
    var ensembles: map<int, Doc>
    var operations: map<int, Doc>
    var measurements: seq<Doc>

    /** Each ensemble and operation is stored under the id it carries, and
        no two ensembles clash in a unique index. */
    predicate Valid()
      reads this
    {
      Indexed(ensembles) && OpsIndexed(operations)
    }

    /** A new backend over empty collections, with the indexes created. */
    constructor ()
      ensures Valid() && ensembles == map[] && operations == map[] && measurements == []
    {
      ensembles, operations, measurements := map[], map[], [];
    }

    // -------------------------------------------------------------------------
    // Ensembles

    /** `add_ensemble`: the payload is validated, the new id is one past the
        largest (1 for the first ensemble), and the document, with a null
        nickname when there is none, is inserted; a clash in a unique index
        is reported as an existing ensemble and nothing is stored. */
    method AddEnsemble(directory: string, physics: Dict<Nested.Val>, kwargs: Dict<Nested.Val>, now: int)
      returns (r: Result<int>)
      requires Valid() && physics.Valid() && kwargs.Valid()
      modifies this`ensembles
      ensures Valid()
      ensures Validated(directory, physics, kwargs).Err? ==>
                r == Err(Validated(directory, physics, kwargs).msg) && unchanged(this)
      ensures Validated(directory, physics, kwargs).Ok? ==>
                var id := Sqlite.NextId(old(ensembles).Keys);
                var doc := AsWrittenEnsembleDoc(id, Validated(directory, physics, kwargs).value, now);
                if Clashes(old(ensembles), id, doc) then
                  r == Err(EnsembleExists + directory) && unchanged(this)
                else
                  r == Ok(id) && ensembles == old(ensembles)[id := doc]
    {
      var v := Validated(directory, physics, kwargs);
      if v.Err? {
        return Err(v.msg);
      }
      r := InsertEnsemble(v.value, directory, now);
    }

    /** The insertion step of `add_ensemble`. */
    method InsertEnsemble(v: Validators.EnsembleCreate, directory: string, now: int) returns (r: Result<int>)
      requires Valid()
      modifies this`ensembles
      ensures Valid()
      ensures var id := Sqlite.NextId(old(ensembles).Keys);
              var doc := AsWrittenEnsembleDoc(id, v, now);
              if Clashes(old(ensembles), id, doc) then
                r == Err(EnsembleExists + directory) && unchanged(this)
              else
                r == Ok(id) && ensembles == old(ensembles)[id := doc]
    {
      var id := Sqlite.NewId(ensembles.Keys);
      var doc := AsWrittenEnsembleDoc(id, v, now);
      if Clashes(ensembles, id, doc) {
        return Err(EnsembleExists + directory);
      }
      IndexedReplace(ensembles, id, doc);
      ensembles := ensembles[id := doc];
      r := Ok(id);
    }

    /** `get_ensemble`. */
    function GetEnsemble(id: int): (r: Option<Doc>)
      reads this
      ensures r.Some? <==> id in ensembles
      ensures r.Some? ==> r.value == ensembles[id]
    {
      if id in ensembles then Some(ensembles[id]) else None
    }

    /** The identifier is an integer (or text `int()` accepts) naming a
        stored ensemble. */
    predicate ById(identifier: Sqlite.Identifier)
      reads this
    {
      IntOf(identifier).Some? && IntOf(identifier).value in ensembles
    }

    /** `resolve_ensemble_identifier`: the integer id first; then, for text,
        the ensemble whose directory is the resolved absolute path, then the
        one with that nickname. `resolved` is what the path resolution gives
        for the text. */
    method ResolveEnsembleIdentifier(identifier: Sqlite.Identifier, resolved: string) returns (r: Result<(int, Doc)>)
      requires Valid()
      ensures r.Ok? ==> r.value.0 in ensembles && r.value.1 == ensembles[r.value.0]
      ensures r.Ok? && !ById(identifier) ==>
                identifier.IdText? && (DirectoryIs(r.value.1, resolved) || NicknameIs(r.value.1, identifier.s))
      ensures ById(identifier) ==> r == Ok((IntOf(identifier).value, ensembles[IntOf(identifier).value]))
      ensures !ById(identifier) && identifier.IdText? && (exists i :: i in ensembles && DirectoryIs(ensembles[i], resolved)) ==>
                r.Ok? && DirectoryIs(r.value.1, resolved)
      ensures !ById(identifier) && identifier.IdText? && !(exists i :: i in ensembles && DirectoryIs(ensembles[i], resolved))
              && (exists i :: i in ensembles && NicknameIs(ensembles[i], identifier.s)) ==>
                r.Ok? && NicknameIs(r.value.1, identifier.s)
      ensures r.Err? <==>
                !ById(identifier)
                && (identifier.IdNumber?
                    || !(exists i :: i in ensembles && (DirectoryIs(ensembles[i], resolved) || NicknameIs(ensembles[i], identifier.s))))
    {
      var n := IntOf(identifier);
      if n.Some? && n.value in ensembles {
        return Ok((n.value, ensembles[n.value]));
      }
      if identifier.IdText? {
        if exists i :: i in ensembles && DirectoryIs(ensembles[i], resolved) {
          var i :| i in ensembles && DirectoryIs(ensembles[i], resolved);
          return Ok((i, ensembles[i]));
        }
        if exists i :: i in ensembles && NicknameIs(ensembles[i], identifier.s) {
          var i :| i in ensembles && NicknameIs(ensembles[i], identifier.s);
          return Ok((i, ensembles[i]));
        }
      }
      return Err(EnsembleNotFound);
    }

    /** `update_ensemble`: a `$set` of the keyword arguments on the ensemble;
        true when the document changed. An update the server refuses (an
        empty segment, overlapping paths, a path through a non-document, a
        clash in a unique index) raises and changes nothing. */
    method UpdateEnsemble(id: int, updates: Dict<Value>) returns (r: Result<bool>)
      requires Valid() && updates.Valid()
      requires forall k :: k in updates.m ==> Segments(k)[0] != EnsembleIdField
      modifies this`ensembles
      ensures Valid()
      ensures !Acceptable(updates.keys) ==> r.Err? && unchanged(this)
      ensures Acceptable(updates.keys) && id !in old(ensembles) ==> r == Ok(false) && unchanged(this)
      ensures Acceptable(updates.keys) && id in old(ensembles) ==>
                var applied := ApplyAll(old(ensembles)[id], updates.keys, updates.m);
                if applied.None? || Clashes(old(ensembles), id, applied.value) then
                  r.Err? && unchanged(this)
                else
                  r == Ok(applied.value != old(ensembles)[id]) && ensembles == old(ensembles)[id := applied.value]
    {
      if !Acceptable(updates.keys) {
        return Err(EmptyPathOrConflict);
      }
      if id !in ensembles {
        return Ok(false);
      }
      var doc := ensembles[id];
      var applied := ApplyAll(doc, updates.keys, updates.m);
      if applied.None? {
        return Err(NonDocument);
      }
      if exists j :: j in ensembles && j != id && Collide(ensembles[j], applied.value) {
        return Err(DuplicateKey);
      }
      ApplyAllKeeps(doc, updates.keys, updates.m, EnsembleIdField);
      IndexedReplace(ensembles, id, applied.value);
      ensembles := ensembles[id := applied.value];
      r := Ok(applied.value != doc);
    }

    /** `delete_ensemble`: the ensemble, its operations and its measurements
        go; true when the ensemble was there. */
    method DeleteEnsemble(id: int) returns (deleted: bool)
      requires Valid()
      modifies this
      ensures Valid()
      ensures deleted <==> id in old(ensembles)
      ensures ensembles == old(ensembles) - {id}
      ensures operations == WithoutOps(old(operations), id)
      ensures measurements == OtherMeasurements(old(measurements), id)
    {
      deleted := id in ensembles;
      ensembles := ensembles - {id};
      operations := WithoutOps(operations, id);
      measurements := OtherMeasurements(measurements, id);
    }

    // -------------------------------------------------------------------------
    // Default parameters

    /** `get_default_params`. */
    function GetDefaultParams(id: int, jobType: string, variant: string): (r: Result<(Value, Value)>)
      reads this
      ensures id !in ensembles ==> r.Err?
      ensures id in ensembles ==> r == DefaultsOf(ensembles[id], jobType, variant)
    {
      if id !in ensembles then Err(EnsembleNotFound)
      else DefaultsOf(ensembles[id], jobType, variant)
    }

    /** `set_default_params`: a `$set` of the variant's two fields; true
        when the document changed. */
    method SetDefaultParams(id: int, jobType: string, variant: string, input: string, job: string) returns (r: Result<bool>)
      requires Valid()
      modifies this`ensembles
      ensures Valid()
      ensures !Acceptable(DefaultsPaths(jobType, variant)) ==> r.Err? && unchanged(this)
      ensures Acceptable(DefaultsPaths(jobType, variant)) && id !in old(ensembles) ==> r == Ok(false) && unchanged(this)
      ensures Acceptable(DefaultsPaths(jobType, variant)) && id in old(ensembles) ==>
                var stored := SetDefaults(old(ensembles)[id], jobType, variant, input, job);
                if stored.Err? then r.Err? && unchanged(this)
                else r == Ok(stored.value != old(ensembles)[id]) && ensembles == old(ensembles)[id := stored.value]
    {
      var paths := DefaultsPaths(jobType, variant);
      if !Acceptable(paths) {
        return Err(EmptyPath);
      }
      if id !in ensembles {
        return Ok(false);
      }
      var doc := ensembles[id];
      var stored := SetDefaults(doc, jobType, variant, input, job);
      if stored.Err? {
        return Err("DatabaseError: " + stored.msg);
      }
      SetDefaultsKeeps(doc, jobType, variant, input, job);
      IndexedKeep(ensembles, id, stored.value);
      ensembles := ensembles[id := stored.value];
      r := Ok(stored.value != doc);
    }

    /** `delete_default_params`: an `$unset` of the variant; true when the
        document changed. */
    method DeleteDefaultParams(id: int, jobType: string, variant: string) returns (r: Result<bool>)
      requires Valid()
      modifies this`ensembles
      ensures Valid()
      ensures !WellFormed(Segments(VariantPath(jobType, variant))) ==> r.Err? && unchanged(this)
      ensures WellFormed(Segments(VariantPath(jobType, variant))) && id !in old(ensembles) ==>
                r == Ok(false) && unchanged(this)
      ensures WellFormed(Segments(VariantPath(jobType, variant))) && id in old(ensembles) ==>
                var d := DeleteDefaults(old(ensembles)[id], jobType, variant).value;
                r == Ok(d != old(ensembles)[id]) && ensembles == old(ensembles)[id := d]
    {
      var path := Segments(VariantPath(jobType, variant));
      if !WellFormed(path) {
        return Err(EmptyPath);
      }
      if id !in ensembles {
        return Ok(false);
      }
      var doc := ensembles[id];
      var d := DeleteDefaults(doc, jobType, variant).value;
      DefaultsFirstSegment(jobType, variant);
      UnsetKeeps(doc, path, EnsembleIdField);
      UnsetKeeps(doc, path, DirectoryField);
      UnsetKeeps(doc, path, NicknameField);
      IndexedKeep(ensembles, id, d);
      ensembles := ensembles[id := d];
      r := Ok(d != doc);
    }

    /** `list_default_params`. */
    function ListDefaultParams(id: int, jobType: Option<string>): (r: Result<set<DefaultsEntry>>)
      reads this
      ensures id !in ensembles ==> r.Err?
      ensures id in ensembles ==> r == ListDefaults(ensembles[id], jobType)
    {
      if id !in ensembles then Err(EnsembleNotFound)
      else ListDefaults(ensembles[id], jobType)
    }

    // -------------------------------------------------------------------------
    // Operations

    /** `add_operation`: the ensemble must exist; the new id is one past the
        largest (1 for the first operation) and the document carries the
        ensemble's directory. */
    method AddOperation(ensembleId: int, opType: string, status: string, user: string,
                        params: map<string, Value>, now: int) returns (r: Result<int>)
      requires Valid()
      modifies this`operations
      ensures Valid()
      ensures ensembleId !in old(ensembles) ==> r.Err? && unchanged(this)
      ensures ensembleId in old(ensembles) && DirectoryField !in old(ensembles)[ensembleId] ==>
                r.Err? && unchanged(this)
      ensures ensembleId in old(ensembles) && DirectoryField in old(ensembles)[ensembleId] ==>
                var id := Sqlite.NextId(old(operations).Keys);
                r == Ok(id)
                && operations == old(operations)[id := OperationDoc(id, ensembleId, old(ensembles)[ensembleId][DirectoryField],
                                                                    opType, status, user, params, now)]
    {
      if ensembleId !in ensembles {
        return Err(EnsembleNotFound);
      }
      var doc := ensembles[ensembleId];
      if DirectoryField !in doc {
        return Err(NoDirectory);
      }
      var id := Sqlite.NewId(operations.Keys);
      operations := operations[id := OperationDoc(id, ensembleId, doc[DirectoryField], opType, status, user, params, now)];
      r := Ok(id);
    }

    /** `update_operation_by_id`: a `$set` of the status, the update time
        and the keyword arguments on the operation. */
    method UpdateOperationById(opId: int, status: string, updates: Dict<Value>, now: int) returns (r: Result<bool>)
      requires Valid() && updates.Valid()
      requires forall k :: k in updates.m ==> Segments(k)[0] != OperationIdField
      modifies this`operations
      ensures Valid()
      ensures (r, operations) == SetOperation(old(operations), Some(opId), OperationSet(status, updates, now))
    {
      r := UpdateOperationAt(Some(opId), status, updates, now);
    }

    /** The update on the operation `t`, when there is one. */
    method UpdateOperationAt(t: Option<int>, status: string, updates: Dict<Value>, now: int) returns (r: Result<bool>)
      requires Valid() && updates.Valid()
      requires forall k :: k in updates.m ==> Segments(k)[0] != OperationIdField
      modifies this`operations
      ensures Valid()
      ensures (r, operations) == SetOperation(old(operations), t, OperationSet(status, updates, now))
    {
      OperationUpdateKeepsIds(operations, t, status, updates, now);
      var outcome := SetOperation(operations, t, OperationSet(status, updates, now));
      r, operations := outcome.0, outcome.1;
    }

    /** The first operation, in id order, that matches the job, the
        ensemble and the type. */
    method FindSlurmMatch(job: string, ensembleId: int, opType: string) returns (t: Option<int>)
      ensures t == SlurmTarget(operations, job, ensembleId, opType)
    {
      t := None;
      var rest := operations.Keys;
      while rest != {}
        invariant rest <= operations.Keys
        invariant t.Some? ==> t.value in operations && SlurmMatch(operations[t.value], job, ensembleId, opType)
        invariant forall o :: o in operations && o !in rest && SlurmMatch(operations[o], job, ensembleId, opType) ==>
                    t.Some? && t.value <= o
        decreases |rest|
      {
        Sqlite.Inhabited(rest);
        var o :| o in rest;
        if SlurmMatch(operations[o], job, ensembleId, opType) && (t.None? || o < t.value) {
          t := Some(o);
        }
        rest := rest - {o};
      }
      if t.Some? {
        FirstSlurmMatchUnique(operations, job, ensembleId, opType, t.value);
      }
    }

    /** `update_operation_by_slurm_id`: the same update on the first
        operation with that SLURM job id, ensemble and type. */
    method UpdateOperationBySlurmId(job: string, status: string, ensembleId: int, opType: string,
                                    updates: Dict<Value>, now: int) returns (r: Result<bool>)
      requires Valid() && updates.Valid()
      requires forall k :: k in updates.m ==> Segments(k)[0] != OperationIdField
      modifies this`operations
      ensures Valid()
      ensures (r, operations) == SetOperation(old(operations), SlurmTarget(old(operations), job, ensembleId, opType),
                                              OperationSet(status, updates, now))
    {
      var t := FindSlurmMatch(job, ensembleId, opType);
      r := UpdateOperationAt(t, status, updates, now);
    }

    /** `clear_ensemble_history`: the ensemble's operations go; the count is
        how many. */
    method ClearEnsembleHistory(ensembleId: int) returns (count: nat)
      requires Valid()
      modifies this`operations
      ensures Valid()
      ensures count == |OpsOf(old(operations), ensembleId)|
      ensures operations == WithoutOps(old(operations), ensembleId)
    {
      count := |OpsOf(operations, ensembleId)|;
      operations := WithoutOps(operations, ensembleId);
    }

    /** `get_operation`. */
    function GetOperation(ensembleId: int, opId: int): (r: Option<Doc>)
      reads this
      ensures r.Some? <==> opId in operations && Field(operations[opId], EnsembleIdField) == Number(ensembleId)
      ensures r.Some? ==> r.value == operations[opId]
    {
      if opId in operations && Field(operations[opId], EnsembleIdField) == Number(ensembleId) then Some(operations[opId]) else None
    }

    /** `list_operations`: every operation of the ensemble, in ascending
        operation id. */
    ghost function ListOperations(ensembleId: int): (r: seq<Doc>)
      reads this
      requires Valid()
      ensures forall i, j :: 0 <= i < j < |r| ==> IdIn(r[i], OperationIdField) < IdIn(r[j], OperationIdField)
      ensures forall o :: o in OpsOf(operations, ensembleId) ==> operations[o] in r
    {
      OperationsListingOrdered(operations, ensembleId);
      OperationsListingAll(operations, ensembleId);
      OperationsListing(operations, ensembleId)
    }

    /** `list_ensembles`: an entry for every ensemble. */
    ghost function ListEnsembles(detailed: bool): (r: seq<Doc>)
      reads this
      ensures forall o :: o in ensembles ==> EnsembleEntry(ensembles[o], detailed) in r
    {
      EnsemblesListingAll(ensembles, detailed);
      EnsemblesListing(ensembles, detailed)
    }

    // -------------------------------------------------------------------------
    // Measurements

    /** `add_measurement`: the document is appended; the ensemble is not
        checked. The position of the new measurement stands for the
        ObjectId returned. */
    method AddMeasurement(ensembleId: int, config: int, mtype: string, data: map<string, Value>,
                          metadata: Option<map<string, Value>>, now: int) returns (position: nat)
      requires Valid()
      modifies this`measurements
      ensures Valid()
      ensures measurements == old(measurements) + [MeasurementDoc(ensembleId, config, mtype, data, metadata, now)]
      ensures position == |old(measurements)|
    {
      position := |measurements|;
      measurements := measurements + [MeasurementDoc(ensembleId, config, mtype, data, metadata, now)];
    }

    /** `query_measurements`: the wanted measurements ordered by
        configuration number. */
    function QueryMeasurements(ensembleId: int, mtype: string, start: Option<int>, end: Option<int>): (r: seq<Doc>)
      reads this
      ensures ByConfig(r)
      ensures multiset(r) == multiset(Select(measurements, ensembleId, mtype, start, end))
    {
      SortByConfig(Select(measurements, ensembleId, mtype, start, end))
    }
  }
}
