/** The one-time migration from the legacy SQLite database to MongoDB
    (`scripts/migrate_sqlite_to_mongo.py`). The rows of the four legacy
    tables are given as values: each ensemble and operation row carries its
    parameters as a name → text map. The documents built from them are
    upserted by id into a `Mongo.Backend`. Parsing an ISO timestamp is a
    parameter `iso` (the tick count, or `None` for the ValueError). */
module Migrate {
  import opened Wrappers
  import opened Text
  import opened Mongo
  import Schema

  type Params = map<string, string>

  datatype EnsembleRow = EnsembleRow(id: int, directory: Option<string>, creationTime: Option<string>,
                                     description: Option<string>, status: string, params: Params)

  datatype OperationRow = OperationRow(id: int, ensembleId: int, operationType: string, status: string,
                                       creationTime: string, updateTime: string, user: Option<string>,
                                       params: Params)

  const InvalidIsoFormat := "ValueError: Invalid isoformat string"

  // ---------------------------------------------------------------------------
  // Casts

  /** `_maybe_int`: a missing value stays null, text `int()` accepts becomes
      that integer, and any other text is kept as it is. */
  function MaybeInt(v: Option<string>): (r: Value)
    ensures r == Null <==> v.None?
    ensures r.Number? ==> v.Some? && ParseInt(v.value) == Some(r.n)
    ensures r.Str? ==> v == Some(r.s) && ParseInt(r.s).None?
    ensures r.Null? || r.Number? || r.Str?
  {
    match v
    case None => Null
    case Some(t) =>
      match ParseInt(t)
      case Some(n) => Number(n)
      case None => Str(t)
  }

  /** The text of an integer comes back as that integer. */
  lemma MaybeIntNumeral(n: int)
    ensures MaybeInt(Some(IntToString(n))) == Number(n)
  {
    ParseIntToString(n);
  }

  /** The casters of `PHYSICS_FIELDS`: `true` for `float`, `false` for
      `int`. */
  const PhysicsKinds: map<string, bool> :=
    map["beta" := true, "b" := true, "Ls" := false, "ml" := true,
        "ms" := true, "mc" := true, "L" := false, "T" := false]

  /** `caster(value)`, falling back to the text itself when the cast
      raises. */
  function CastOr(isFloat: bool, t: string): (r: Value)
    ensures r.Str? ==> r.s == t
    ensures isFloat ==> r.Str? || (r.Real? && Schema.Decimal(r.t))
    ensures !isFloat ==> r.Str? || (r.Number? && ParseInt(t) == Some(r.n))
  {
    if isFloat then
      var s := Strip(t);
      if Schema.Decimal(s) then Real(s) else Str(t)
    else
      match ParseInt(t)
      case Some(n) => Number(n)
      case None => Str(t)
  }

  /** The physics sub-document: every parameter named in `PHYSICS_FIELDS`,
      cast or kept as text. */
  function Physics(params: Params): (r: map<string, Value>)
    ensures forall k :: k in r <==> k in params && k in PhysicsKinds
    ensures forall k :: k in r ==> r[k] == CastOr(PhysicsKinds[k], params[k])
  {
    map k | k in params && k in PhysicsKinds :: CastOr(PhysicsKinds[k], params[k])
  }

  /** A physics parameter that does not parse is carried over as text. */
  lemma PhysicsFallback(params: Params, k: string)
    requires k in params && k in PhysicsKinds
    requires ParseInt(params[k]).None? && !Schema.Decimal(Strip(params[k]))
    ensures k in Physics(params) && Physics(params)[k] == Str(params[k])
  {
  }

  /** The new names of `CONFIG_FIELDS`; each old name is `cfg_` followed by
      the new one. */
  const ConfigNames: set<string> := {"first", "last", "increment", "total"}
  const ConfigPrefix := "cfg_"

  /** The configurations sub-document: `cfg_first`, `cfg_last`,
      `cfg_increment` and `cfg_total` renamed, through `_maybe_int`. */
  function Configurations(params: Params): (r: map<string, Value>)
    ensures forall k :: k in r <==> k in ConfigNames && ConfigPrefix + k in params
    ensures forall k :: k in r ==> r[k] == MaybeInt(Some(params[ConfigPrefix + k]))
  {
    map k | k in ConfigNames && ConfigPrefix + k in params :: MaybeInt(Some(params[ConfigPrefix + k]))
  }

  /** `cfg_first` with an integer's text is migrated to `first` as that
      integer. */
  lemma ConfigurationsFirst(params: Params, n: int)
    requires ConfigPrefix + "first" in params && params[ConfigPrefix + "first"] == IntToString(n)
    ensures "first" in Configurations(params) && Configurations(params)["first"] == Number(n)
  {
    MaybeIntNumeral(n);
  }

  // ---------------------------------------------------------------------------
  // Ensemble documents

  /** A nickname parameter that Python reads as true: present and not
      empty. */
  predicate HasNickname(params: Params) {
    NicknameField in params && params[NicknameField] != ""
  }

  /** `created_at`: null for a missing or empty time; a time `fromisoformat`
      rejects makes the whole migration fail. */
  function CreatedAt(creationTime: Option<string>, iso: string -> Option<int>): (r: Result<Value>)
    ensures r.Err? <==> creationTime.Some? && creationTime.value != "" && iso(creationTime.value).None?
    ensures r.Ok? && r.value != Null ==>
              creationTime.Some? && r.value.Stamp? && iso(creationTime.value) == Some(r.value.at)
  {
    match creationTime
    case None => Ok(Null)
    case Some(t) =>
      if t == "" then Ok(Null)
      else match iso(t)
        case None => Err(InvalidIsoFormat)
        case Some(at) => Ok(Stamp(at))
  }

  /** The document of one ensemble row before the nickname is added, with
      its creation time, physics and configurations sub-documents. */
  function BaseEnsembleDoc(row: EnsembleRow, created: Value, physics: Value, configurations: Value): (d: Doc)
    ensures Field(d, EnsembleIdField) == Number(row.id)
    ensures Field(d, DirectoryField) == OptText(row.directory)
    ensures NicknameField !in d
  {
    map[EnsembleIdField := Number(row.id), DirectoryField := OptText(row.directory),
        StatusField := Str(row.status), DescriptionField := OptText(row.description),
        CreatedField := created, PhysicsField := physics,
        ConfigurationsField := configurations, DefaultParamsField := Obj(map[]),
        TagsField := List([]), NotesField := Null]
  }

  /** The document `build_ensemble_docs` makes of one row: the nickname
      parameter is copied only when it is not empty. */
  function EnsembleDocOf(row: EnsembleRow, iso: string -> Option<int>): (r: Result<Doc>)
    ensures r.Ok? <==> CreatedAt(row.creationTime, iso).Ok?
    ensures r.Ok? ==> Field(r.value, EnsembleIdField) == Number(row.id)
    ensures r.Ok? ==> Field(r.value, DirectoryField) == OptText(row.directory)
    ensures r.Ok? ==> (NicknameField in r.value <==> HasNickname(row.params))
    ensures r.Ok? && HasNickname(row.params) ==> r.value[NicknameField] == Str(row.params[NicknameField])
  {
    var created :- CreatedAt(row.creationTime, iso);
    var d := BaseEnsembleDoc(row, created, Obj(Physics(row.params)), Obj(Configurations(row.params)));
    Ok(if HasNickname(row.params) then d[NicknameField := Str(row.params[NicknameField])] else d)
  }

  /** What a loop over rows that appends the document of each collects,
      stopping at the first row whose document is an error. */
  function EachOk<R>(rows: seq<R>, f: R -> Result<Doc>): (r: Result<seq<Doc>>)
    ensures r.Ok? ==> |r.value| == |rows|
  {
    if rows == [] then Ok([])
    else
      var init :- EachOk(rows[..|rows| - 1], f);
      var d :- f(rows[|rows| - 1]);
      Ok(init + [d])
  }

  /** Once a prefix of the rows fails, so do all the rows. */
  lemma {:induction false} EachOkPrefix<R>(rows: seq<R>, f: R -> Result<Doc>, n: nat)
    requires n <= |rows| && EachOk(rows[..n], f).Err?
    ensures EachOk(rows, f) == EachOk(rows[..n], f)
    decreases |rows| - n
  {
    if n < |rows| {
      assert rows[..n + 1][..n] == rows[..n];
      EachOkPrefix(rows, f, n + 1);
    } else {
      assert rows[..n] == rows;
    }
  }

  /** Each row gives its own document, in order. */
  lemma {:induction false} EachOkAt<R>(rows: seq<R>, f: R -> Result<Doc>, i: nat)
    requires EachOk(rows, f).Ok? && i < |rows|
    ensures f(rows[i]).Ok? && EachOk(rows, f).value[i] == f(rows[i]).value
  {
    var init := rows[..|rows| - 1];
    if i < |rows| - 1 {
      assert init[i] == rows[i];
      EachOkAt(init, f, i);
    }
  }

  /** The loop fails exactly when some row's document is an error, and
      then with the error of the first such row. */
  lemma {:induction false} EachOkFail<R>(rows: seq<R>, f: R -> Result<Doc>)
    ensures EachOk(rows, f).Err? <==> exists i :: 0 <= i < |rows| && f(rows[i]).Err?
    ensures EachOk(rows, f).Err? ==>
              exists i :: 0 <= i < |rows| && f(rows[i]).Err? && EachOk(rows, f) == Err(f(rows[i]).msg)
  {
    if rows != [] {
      var init := rows[..|rows| - 1];
      EachOkFail(init, f);
      assert forall i :: 0 <= i < |init| ==> init[i] == rows[i];
    }
  }

  /** The documents of the ensemble rows, in order. */
  function EnsembleDocs(rows: seq<EnsembleRow>, iso: string -> Option<int>): (r: Result<seq<Doc>>) {
    EachOk(rows, row => EnsembleDocOf(row, iso))
  }

  /** The building fails exactly when some row's creation time does not
      parse, and then with the ValueError. */
  lemma EnsembleDocsFail(rows: seq<EnsembleRow>, iso: string -> Option<int>)
    ensures EnsembleDocs(rows, iso).Ok? <==>
              forall i :: 0 <= i < |rows| ==> CreatedAt(rows[i].creationTime, iso).Ok?
    ensures EnsembleDocs(rows, iso).Err? ==> EnsembleDocs(rows, iso).msg == InvalidIsoFormat
  {
    var f := row => EnsembleDocOf(row, iso);
    EachOkFail(rows, f);
    assert forall i :: 0 <= i < |rows| ==> (f(rows[i]).Ok? <==> CreatedAt(rows[i].creationTime, iso).Ok?);
  }

  /** Otherwise each row gives its own document, in order. */
  lemma EnsembleDocsAt(rows: seq<EnsembleRow>, iso: string -> Option<int>, i: nat)
    requires EnsembleDocs(rows, iso).Ok? && i < |rows|
    ensures EnsembleDocOf(rows[i], iso).Ok? && EnsembleDocs(rows, iso).value[i] == EnsembleDocOf(rows[i], iso).value
  {
    EachOkAt(rows, row => EnsembleDocOf(row, iso), i);
  }

  /** A loop over the rows that appends the document of each, stopping at
      the first error. */
  method CollectOk<R>(rows: seq<R>, f: R -> Result<Doc>) returns (r: Result<seq<Doc>>)
    ensures r == EachOk(rows, f)
  {
    var docs: seq<Doc> := [];
    var i := 0;
    while i < |rows|
      invariant 0 <= i <= |rows|
      invariant EachOk(rows[..i], f) == Ok(docs)
    {
      assert rows[..i + 1][..i] == rows[..i];
      var d := f(rows[i]);
      if d.Err? {
        assert EachOk(rows[..i + 1], f) == Err(d.msg);
        EachOkPrefix(rows, f, i + 1);
        return Err(d.msg);
      }
      docs := docs + [d.value];
      i := i + 1;
    }
    assert rows[..i] == rows;
    r := Ok(docs);
  }

  /** `build_ensemble_docs`. */
  method BuildEnsembleDocs(rows: seq<EnsembleRow>, iso: string -> Option<int>) returns (r: Result<seq<Doc>>)
    ensures r == EnsembleDocs(rows, iso)
  {
    r := CollectOk(rows, row => EnsembleDocOf(row, iso));
  }

  /** `{doc["ensemble_id"]: doc for doc in ensembles}`: a later document
      with the same id replaces an earlier one. */
  function ById(docs: seq<Doc>): (r: map<int, Doc>)
    ensures forall i :: 0 <= i < |docs| ==> IdIn(docs[i], EnsembleIdField) in r
    ensures forall k :: k in r ==> exists i :: 0 <= i < |docs| && IdIn(docs[i], EnsembleIdField) == k && r[k] == docs[i]
  {
    if docs == [] then map[]
    else
      var init := docs[..|docs| - 1];
      var last := docs[|docs| - 1];
      var m := ById(init);
      assert forall i :: 0 <= i < |init| ==> init[i] == docs[i];
      m[IdIn(last, EnsembleIdField) := last]
  }

  /** The last document with an id is the one kept. */
  lemma {:induction false} ByIdLast(docs: seq<Doc>, i: nat)
    requires i < |docs|
    requires forall j :: i < j < |docs| ==> IdIn(docs[j], EnsembleIdField) != IdIn(docs[i], EnsembleIdField)
    ensures ById(docs)[IdIn(docs[i], EnsembleIdField)] == docs[i]
  {
    if i < |docs| - 1 {
      var init := docs[..|docs| - 1];
      assert init[i] == docs[i];
      ByIdLast(init, i);
    }
  }

  // ---------------------------------------------------------------------------
  // Operation documents

  /** `_maybe_datetime`: null for a missing, empty or unparsable time. */
  function MaybeDatetime(t: string, iso: string -> Option<int>): (r: Value)
    ensures r != Null ==> t != "" && iso(t).Some? && r == Stamp(iso(t).value)
    ensures t != "" && iso(t).Some? ==> r != Null
  {
    if t == "" then Null
    else match iso(t)
      case None => Null
      case Some(at) => Stamp(at)
  }

  /** `params.get(k)`. */
  function Get(params: Params, k: string): (r: Option<string>)
    ensures r.Some? <==> k in params
    ensures r.Some? ==> r.value == params[k]
  {
    if k in params then Some(params[k]) else None
  }

  /** `params.get(k)` stored as it is: the text or null. */
  function TextOf(params: Params, k: string): Value {
    OptText(Get(params, k))
  }

  function TimingDoc(row: OperationRow, iso: string -> Option<int>): Doc {
    map["creation_time" := MaybeDatetime(row.creationTime, iso), "start_time" := Null,
        UpdateTimeField := MaybeDatetime(row.updateTime, iso), "end_time" := Null,
        "runtime_seconds" := MaybeInt(Get(row.params, "runtime"))]
  }

  function SlurmDocOf(row: OperationRow): Doc {
    map["job_id" := TextOf(row.params, "slurm_job"), "user" := OptText(row.user),
        "host" := TextOf(row.params, "host"), "batch_script" := TextOf(row.params, "batch_script"),
        "output_log" := TextOf(row.params, "output_log"), "error_log" := TextOf(row.params, "error_log"),
        "exit_code" := MaybeInt(Get(row.params, "exit_code")), "slurm_status" := TextOf(row.params, "slurm_status")]
  }

  function ExecutionDoc(params: Params): Doc {
    map["run_dir" := TextOf(params, "run_dir"), "config_start" := MaybeInt(Get(params, "config_start")),
        "config_end" := MaybeInt(Get(params, "config_end")),
        "config_increment" := MaybeInt(Get(params, "config_increment"))]
  }

  /** Python's truth value of what `_maybe_int` returns. */
  predicate Truthy(v: Value) {
    v != Null && v != Number(0) && v != Str("")
  }

  /** `_maybe_int(params.get("attempt_number")) or 1`. */
  function Attempt(params: Params): (r: Value)
    ensures r == Number(1) || r == MaybeInt(Get(params, AttemptKey))
    ensures Truthy(r)
  {
    var v := MaybeInt(Get(params, AttemptKey));
    if Truthy(v) then v else Number(1)
  }

  /** An attempt number that is missing or zero becomes 1; any other number
      is kept. */
  lemma AttemptDefault(params: Params, n: int)
    requires AttemptKey in params ==> params[AttemptKey] == IntToString(n)
    ensures Attempt(params) == if AttemptKey in params && n != 0 then Number(n) else Number(1)
  {
    if AttemptKey in params {
      MaybeIntNumeral(n);
    }
  }

  /** `params.get("is_chain_member", "false").lower() == "true"`. */
  predicate ChainMember(params: Params) {
    LowerText(if ChainMemberKey in params then params[ChainMemberKey] else "false") == "true"
  }

  /** A chain member exactly when the parameter is `true` in any mix of
      cases; a missing parameter reads as `false`. */
  lemma ChainMemberMeaning(params: Params)
    ensures ChainMember(params) <==>
              (ChainMemberKey in params && |params[ChainMemberKey]| == 4
               && forall i :: 0 <= i < 4 ==> Lower(params[ChainMemberKey][i]) == "true"[i])
  {
    var v := if ChainMemberKey in params then params[ChainMemberKey] else "false";
    var lv := LowerText(v);
    if ChainMemberKey !in params {
      assert lv[0] == 'f';
    }
    if ChainMemberKey in params && |v| == 4 && forall i :: 0 <= i < 4 ==> Lower(v[i]) == "true"[i] {
      assert lv == "true";
    }
  }

  function ChainDoc(params: Params): Doc {
    map["parent_operation_id" := MaybeInt(Get(params, "parent_operation_id")),
        AttemptKey := Attempt(params), ChainMemberKey := Flag(ChainMember(params))]
  }

  /** The parameters that the timing, slurm, execution and chain
      sub-documents take. */
  const Reserved: set<string> :=
    {"runtime", "slurm_job", "host", "batch_script", "output_log", "error_log", "exit_code",
     "slurm_status", "run_dir", "config_start", "config_end", "config_increment",
     "parent_operation_id", AttemptKey, ChainMemberKey}

  /** The `params` sub-document: every other parameter, as text. */
  function ParamsDoc(params: Params): (r: Doc)
    ensures r.Keys == params.Keys - Reserved
    ensures forall k :: k in r ==> r[k] == Str(params[k])
  {
    map k | k in params && k !in Reserved :: Str(params[k])
  }

  /** The directory of the operation's ensemble, null when the ensemble is
      not among the migrated ones. */
  function EnsembleDirectory(byId: map<int, Doc>, e: int): (r: Value)
    ensures e in byId ==> r == Field(byId[e], DirectoryField)
    ensures e !in byId ==> r == Null
  {
    if e in byId then Field(byId[e], DirectoryField) else Null
  }

  /** The document `build_operation_docs` makes of one row. */
  function OperationDocOf(row: OperationRow, byId: map<int, Doc>, iso: string -> Option<int>): (d: Doc)
    ensures Field(d, OperationIdField) == Number(row.id)
    ensures Field(d, EnsembleIdField) == Number(row.ensembleId)
  {
    map[OperationTypeField := Str(row.operationType), StatusField := Str(row.status),
        TimingSection := Obj(TimingDoc(row, iso)), SlurmSection := Obj(SlurmDocOf(row)),
        ExecutionSection := Obj(ExecutionDoc(row.params)), ChainSection := Obj(ChainDoc(row.params)),
        ParamsSection := Obj(ParamsDoc(row.params)),
        EnsembleDirectoryField := EnsembleDirectory(byId, row.ensembleId),
        EnsembleIdField := Number(row.ensembleId), OperationIdField := Number(row.id)]
  }

  /** What a loop over rows that appends the document of each collects. */
  function Each<R>(rows: seq<R>, f: R -> Doc): (r: seq<Doc>)
    ensures |r| == |rows|
  {
    if rows == [] then []
    else Each(rows[..|rows| - 1], f) + [f(rows[|rows| - 1])]
  }

  /** Each row gives its own document, in order. */
  lemma {:induction false} EachAt<R>(rows: seq<R>, f: R -> Doc, i: nat)
    requires i < |rows|
    ensures Each(rows, f)[i] == f(rows[i])
  {
    var init := rows[..|rows| - 1];
    if i < |rows| - 1 {
      assert init[i] == rows[i];
      EachAt(init, f, i);
    }
  }

  /** The documents of the operation rows, in order. */
  function OperationDocs(rows: seq<OperationRow>, byId: map<int, Doc>, iso: string -> Option<int>): (r: seq<Doc>) {
    Each(rows, row => OperationDocOf(row, byId, iso))
  }

  /** A loop over the rows that appends the document of each. */
  method Collect<R>(rows: seq<R>, f: R -> Doc) returns (docs: seq<Doc>)
    ensures docs == Each(rows, f)
  {
    docs := [];
    var i := 0;
    while i < |rows|
      invariant 0 <= i <= |rows|
      invariant docs == Each(rows[..i], f)
    {
      assert rows[..i + 1][..i] == rows[..i];
      docs := docs + [f(rows[i])];
      i := i + 1;
    }
    assert rows[..i] == rows;
  }

  /** `build_operation_docs`. */
  method BuildOperationDocs(rows: seq<OperationRow>, byId: map<int, Doc>, iso: string -> Option<int>)
    returns (docs: seq<Doc>)
    ensures docs == OperationDocs(rows, byId, iso)
  {
    docs := Collect(rows, row => OperationDocOf(row, byId, iso));
  }

  /** An operation document names the directory of its ensemble. */
  lemma OperationDocDirectory(row: OperationRow, byId: map<int, Doc>, iso: string -> Option<int>)
    ensures Field(OperationDocOf(row, byId, iso), EnsembleDirectoryField) == EnsembleDirectory(byId, row.ensembleId)
  {
  }

  /** An operation document's chain sub-document. */
  lemma OperationDocChain(row: OperationRow, byId: map<int, Doc>, iso: string -> Option<int>)
    ensures Field(OperationDocOf(row, byId, iso), ChainSection) == Obj(ChainDoc(row.params))
  {
  }

  /** An operation document's params sub-document. */
  lemma OperationDocParams(row: OperationRow, byId: map<int, Doc>, iso: string -> Option<int>)
    ensures Field(OperationDocOf(row, byId, iso), ParamsSection) == Obj(ParamsDoc(row.params))
  {
  }

  /** Each operation row gives its own document, in order. */
  lemma OperationDocsAt(rows: seq<OperationRow>, byId: map<int, Doc>, iso: string -> Option<int>, i: nat)
    requires i < |rows|
    ensures |OperationDocs(rows, byId, iso)| == |rows|
    ensures OperationDocs(rows, byId, iso)[i] == OperationDocOf(rows[i], byId, iso)
  {
    EachAt(rows, row => OperationDocOf(row, byId, iso), i);
  }

  // ---------------------------------------------------------------------------
  // Writing

  const DuplicateKeyError := "DuplicateKeyError: E11000 duplicate key error"

  /** Every document carries a numeric id in field `f`. */
  predicate Keyed(docs: seq<Doc>, f: string) {
    forall i :: 0 <= i < |docs| ==> Field(docs[i], f).Number?
  }

  /** No later document carries the id of document `i`. */
  predicate LastWith(docs: seq<Doc>, f: string, i: nat)
    requires i < |docs|
  {
    forall j :: i < j < |docs| ==> IdIn(docs[j], f) != IdIn(docs[i], f)
  }

  /** `replace_one({"ensemble_id": id}, doc, upsert=True)` for each document
      in turn: the document is stored under its id, replacing the one there.
      A document that clashes with another ensemble in the unique directory
      or nickname index raises DuplicateKeyError, and the documents written
      before it stay written. */
  function UpsertEnsembles(ens: map<int, Doc>, docs: seq<Doc>): (r: (Result<nat>, map<int, Doc>))
    requires Keyed(docs, EnsembleIdField)
    ensures r.0.Ok? ==> r.0.value == |docs|
    decreases |docs|
  {
    if docs == [] then (Ok(0), ens)
    else
      var id := IdIn(docs[0], EnsembleIdField);
      if Clashes(ens, id, docs[0]) then (Err(DuplicateKeyError), ens)
      else
        var rest := UpsertEnsembles(ens[id := docs[0]], docs[1..]);
        (if rest.0.Ok? then Ok(rest.0.value + 1) else rest.0, rest.1)
  }

  /** The upserts keep the unique indexes. */
  lemma {:induction false} UpsertEnsemblesIndexed(ens: map<int, Doc>, docs: seq<Doc>)
    requires Indexed(ens) && Keyed(docs, EnsembleIdField)
    ensures Indexed(UpsertEnsembles(ens, docs).1)
    decreases |docs|
  {
    if docs != [] {
      var id := IdIn(docs[0], EnsembleIdField);
      if !Clashes(ens, id, docs[0]) {
        IndexedReplace(ens, id, docs[0]);
        UpsertEnsemblesIndexed(ens[id := docs[0]], docs[1..]);
      }
    }
  }

  /** After upserts that all succeed, each id holds the last document with
      that id, and an ensemble whose id no document carries is untouched. */
  lemma {:induction false} UpsertEnsemblesStores(ens: map<int, Doc>, docs: seq<Doc>, k: int)
    requires Keyed(docs, EnsembleIdField) && UpsertEnsembles(ens, docs).0.Ok?
    ensures var ens' := UpsertEnsembles(ens, docs).1;
            (k in ens' <==> k in ens || exists i :: 0 <= i < |docs| && IdIn(docs[i], EnsembleIdField) == k)
            && (forall i :: 0 <= i < |docs| && IdIn(docs[i], EnsembleIdField) == k && LastWith(docs, EnsembleIdField, i) ==> ens'[k] == docs[i])
            && ((forall i :: 0 <= i < |docs| ==> IdIn(docs[i], EnsembleIdField) != k) && k in ens ==> ens'[k] == ens[k])
    decreases |docs|
  {
    if docs != [] {
      var id := IdIn(docs[0], EnsembleIdField);
      var rest := docs[1..];
      assert forall i :: 1 <= i < |docs| ==> docs[i] == rest[i - 1];
      UpsertEnsemblesStores(ens[id := docs[0]], rest, k);
    }
  }

  /** The same for operations: `replace_one({"operation_id": id}, doc,
      upsert=True)`; the operations collection has no unique index to
      violate. */
  function UpsertOperations(ops: map<int, Doc>, docs: seq<Doc>): (r: map<int, Doc>)
    requires Keyed(docs, OperationIdField)
    decreases |docs|
  {
    if docs == [] then ops
    else UpsertOperations(ops[IdIn(docs[0], OperationIdField) := docs[0]], docs[1..])
  }

  /** The upserts keep every operation under the id it carries. */
  lemma {:induction false} UpsertOperationsIndexed(ops: map<int, Doc>, docs: seq<Doc>)
    requires OpsIndexed(ops) && Keyed(docs, OperationIdField)
    ensures OpsIndexed(UpsertOperations(ops, docs))
    decreases |docs|
  {
    if docs != [] {
      UpsertOperationsIndexed(ops[IdIn(docs[0], OperationIdField) := docs[0]], docs[1..]);
    }
  }

  /** Each id holds the last document with that id; an operation whose id no
      document carries is untouched. */
  lemma {:induction false} UpsertOperationsStores(ops: map<int, Doc>, docs: seq<Doc>, k: int)
    requires Keyed(docs, OperationIdField)
    ensures var ops' := UpsertOperations(ops, docs);
            (k in ops' <==> k in ops || exists i :: 0 <= i < |docs| && IdIn(docs[i], OperationIdField) == k)
            && (forall i :: 0 <= i < |docs| && IdIn(docs[i], OperationIdField) == k && LastWith(docs, OperationIdField, i) ==> ops'[k] == docs[i])
            && ((forall i :: 0 <= i < |docs| ==> IdIn(docs[i], OperationIdField) != k) && k in ops ==> ops'[k] == ops[k])
    decreases |docs|
  {
    if docs != [] {
      var rest := docs[1..];
      assert forall i :: 1 <= i < |docs| ==> docs[i] == rest[i - 1];
      UpsertOperationsStores(ops[IdIn(docs[0], OperationIdField) := docs[0]], rest, k);
    }
  }

  /** The loop over the ensemble documents. */
  method WriteEnsembles(b: Backend, docs: seq<Doc>) returns (r: Result<nat>)
    requires b.Valid() && Keyed(docs, EnsembleIdField)
    modifies b`ensembles
    ensures b.Valid()
    ensures (r, b.ensembles) == UpsertEnsembles(old(b.ensembles), docs)
  {
    UpsertEnsemblesIndexed(b.ensembles, docs);
    var i := 0;
    while i < |docs|
      invariant 0 <= i <= |docs| && b.Valid()
      invariant UpsertEnsembles(old(b.ensembles), docs) ==
                  (var rest := UpsertEnsembles(b.ensembles, docs[i..]);
                   (if rest.0.Ok? then Ok(rest.0.value + i) else rest.0, rest.1))
    {
      var id := IdIn(docs[i], EnsembleIdField);
      if Clashes(b.ensembles, id, docs[i]) {
        return Err(DuplicateKeyError);
      }
      IndexedReplace(b.ensembles, id, docs[i]);
      assert docs[i..][1..] == docs[i + 1..];
      b.ensembles := b.ensembles[id := docs[i]];
      i := i + 1;
    }
    r := Ok(i);
  }

  /** The loop over the operation documents. */
  method WriteOperations(b: Backend, docs: seq<Doc>)
    requires b.Valid() && Keyed(docs, OperationIdField)
    modifies b`operations
    ensures b.Valid()
    ensures b.operations == UpsertOperations(old(b.operations), docs)
  {
    var i := 0;
    while i < |docs|
      invariant 0 <= i <= |docs| && b.Valid()
      invariant UpsertOperations(old(b.operations), docs) == UpsertOperations(b.operations, docs[i..])
    {
      assert docs[i..][1..] == docs[i + 1..];
      b.operations := b.operations[IdIn(docs[i], OperationIdField) := docs[i]];
      i := i + 1;
    }
  }

  // ---------------------------------------------------------------------------
  // migrate

  /** The built ensemble documents carry their numeric ids. */
  lemma EnsembleDocsKeyed(rows: seq<EnsembleRow>, iso: string -> Option<int>)
    requires EnsembleDocs(rows, iso).Ok?
    ensures Keyed(EnsembleDocs(rows, iso).value, EnsembleIdField)
  {
    forall i | 0 <= i < |rows| ensures Field(EnsembleDocs(rows, iso).value[i], EnsembleIdField).Number? {
      EnsembleDocsAt(rows, iso, i);
    }
  }

  /** The built operation documents carry their numeric ids. */
  lemma OperationDocsKeyed(rows: seq<OperationRow>, byId: map<int, Doc>, iso: string -> Option<int>)
    ensures Keyed(OperationDocs(rows, byId, iso), OperationIdField)
  {
    forall i | 0 <= i < |rows| ensures Field(OperationDocs(rows, byId, iso)[i], OperationIdField).Number? {
      OperationDocsAt(rows, byId, iso, i);
    }
  }

  /** What `migrate` does to the two collections, and the counts it
      reports: nothing is written when building a document fails or on a
      dry run; otherwise the ensembles are upserted, then (unless one of
      them raised) the operations. */
  ghost function Migration(ens: map<int, Doc>, ops: map<int, Doc>, ensembleRows: seq<EnsembleRow>,
                           operationRows: seq<OperationRow>, iso: string -> Option<int>, dryRun: bool)
    : (r: (Result<(nat, nat)>, map<int, Doc>, map<int, Doc>))
  {
    match EnsembleDocs(ensembleRows, iso)
    case Err(m) => (Err(m), ens, ops)
    case Ok(eds) =>
      var ods := OperationDocs(operationRows, ById(eds), iso);
      var counts := (|eds|, |ods|);
      if dryRun then (Ok(counts), ens, ops)
      else
        EnsembleDocsKeyed(ensembleRows, iso);
        OperationDocsKeyed(operationRows, ById(eds), iso);
        var written := UpsertEnsembles(ens, eds);
        if written.0.Err? then (Err(written.0.msg), written.1, ops)
        else (Ok(counts), written.1, UpsertOperations(ops, ods))
  }

  /** A dry run, or a row whose creation time does not parse, writes
      nothing. */
  lemma MigrationWritesNothing(ens: map<int, Doc>, ops: map<int, Doc>, ensembleRows: seq<EnsembleRow>,
                               operationRows: seq<OperationRow>, iso: string -> Option<int>, dryRun: bool)
    requires dryRun || exists i :: 0 <= i < |ensembleRows| && CreatedAt(ensembleRows[i].creationTime, iso).Err?
    ensures var r := Migration(ens, ops, ensembleRows, operationRows, iso, dryRun);
            r.1 == ens && r.2 == ops
            && (!dryRun ==> r.0 == Err(InvalidIsoFormat))
  {
    EnsembleDocsFail(ensembleRows, iso);
  }

  /** A migration keeps the unique indexes of the ensembles and every
      operation under the id it carries. */
  lemma MigrationKeepsIndexes(ens: map<int, Doc>, ops: map<int, Doc>, ensembleRows: seq<EnsembleRow>,
                              operationRows: seq<OperationRow>, iso: string -> Option<int>, dryRun: bool)
    requires Indexed(ens) && OpsIndexed(ops)
    ensures var r := Migration(ens, ops, ensembleRows, operationRows, iso, dryRun);
            Indexed(r.1) && OpsIndexed(r.2)
  {
    if EnsembleDocs(ensembleRows, iso).Ok? && !dryRun {
      var eds := EnsembleDocs(ensembleRows, iso).value;
      EnsembleDocsKeyed(ensembleRows, iso);
      OperationDocsKeyed(operationRows, ById(eds), iso);
      UpsertEnsemblesIndexed(ens, eds);
      UpsertOperationsIndexed(ops, OperationDocs(operationRows, ById(eds), iso));
    }
  }

  /** `migrate(sqlite_path, mongo_uri, dry_run)` on rows already read: the
      counts of ensembles and operations it reports, or the error it
      raises. */
  method Migrate(b: Backend, ensembleRows: seq<EnsembleRow>, operationRows: seq<OperationRow>,
                 iso: string -> Option<int>, dryRun: bool) returns (r: Result<(nat, nat)>)
    requires b.Valid()
    modifies b`ensembles, b`operations
    ensures b.Valid()
    ensures (r, b.ensembles, b.operations) ==
              Migration(old(b.ensembles), old(b.operations), ensembleRows, operationRows, iso, dryRun)
  {
    var built := BuildEnsembleDocs(ensembleRows, iso);
    if built.Err? {
      return Err(built.msg);
    }
    var eds := built.value;
    var byId := ById(eds);
    var ods := BuildOperationDocs(operationRows, byId, iso);
    if dryRun {
      return Ok((|eds|, |ods|));
    }
    EnsembleDocsKeyed(ensembleRows, iso);
    OperationDocsKeyed(operationRows, byId, iso);
    var written := WriteEnsembles(b, eds);
    if written.Err? {
      return Err(written.msg);
    }
    WriteOperations(b, ods);
    r := Ok((|eds|, |ods|));
  }
}
