/** The SQLite ensemble/operation store (`backends/sqlite.py`), with the
    four tables held as maps:

      ensembles            id -> directory, description, status
      ensemble_parameters  (ensemble id, name) -> value
      operations           id -> ensemble id, type, status, user
      operation_parameters (operation id, name) -> value

    Each function of the file is a method of `Store`; the connection, the
    transaction and the retry loop are not modelled, and timestamps are left
    out of the rows. A statement that raises inside a transaction leaves the
    tables as they were, so every `Err` result comes with unchanged tables. */
module Sqlite {
  import opened Wrappers
  import opened Text
  import opened PyDict
  import opened Validators

  /** A row of `ensembles` (creation time left out). */
  datatype Ensemble = Ensemble(directory: string, description: Option<string>, status: Status)

  /** A row of `operations` (creation and update times left out). `user` is
      `None` in the legacy schema of `db.py`, which has no such column. */
  datatype Operation = Operation(ensembleId: int, opType: string, status: string, user: Option<string>)

  /** The dict `get_ensemble_details` returns. */
  datatype Details = Details(id: int, directory: string, description: Option<string>, status: Status,
                             parameters: map<string, string>, operationCount: nat)

  /** The result of `get_configuration_range`: each key present only when
      the matching `cfg_*` row is. */
  datatype ConfigRange = ConfigRange(first: Option<string>, last: Option<string>,
                                     increment: Option<string>, total: Option<string>)

  /** An identifier as the command line hands it over: an `int` or a `str`. */
  datatype Identifier = IdNumber(n: int) | IdText(s: string)

  const SlurmJob := "slurm_job"
  const ProductionText := "PRODUCTION"
  const NicknameKey := "nickname"
  const CfgFirst := "cfg_first"
  const CfgLast := "cfg_last"
  const CfgIncrement := "cfg_increment"
  const CfgTotal := "cfg_total"
  const EnsembleNotFound := "Ensemble not found"
  const UpdatedMsg := "Updated"
  const CreatedMsg := "Created"
  const DuplicateParameter := "IntegrityError: UNIQUE constraint failed: ensemble_parameters.ensemble_id, ensemble_parameters.name"
  const BadStatus := "IntegrityError: CHECK constraint failed: status IN ('TUNING','PRODUCTION')"
  const DuplicateDirectory := "IntegrityError: UNIQUE constraint failed: ensembles.directory"
  const EmptySet := "OperationalError: near \"WHERE\": syntax error"

  lemma Inhabited(s: set<int>)
    requires s != {}
    ensures exists x :: x in s
  {
    var none: set<int> := {};
    assert (forall x :: x !in s) ==> s == none;
  }

  /** The largest element of a nonempty set of ids. */
  ghost function Max(s: set<int>): (m: int)
    requires s != {}
    ensures m in s && forall x :: x in s ==> x <= m
  {
    Inhabited(s);
    var x :| x in s;
    var rest := s - {x};
    if |rest| == 0 then
      assert forall y :: y in s ==> y in rest || y == x;
      x
    else
      var y := Max(rest);
      if x < y then y else x
  }

  /** The id SQLite gives a row inserted into an `INTEGER PRIMARY KEY`
      table without an explicit id: one past the largest id in use, or 1
      for an empty table. */
  ghost function NextId(ids: set<int>): (r: int)
    ensures r !in ids
    ensures forall i :: i in ids ==> i < r
    ensures ids == {} ==> r == 1
    ensures ids != {} ==> r - 1 in ids
  {
    if ids == {} then 1 else Max(ids) + 1
  }

  /** Picking the next id by scanning the ids in use. */
  method NewId(ids: set<int>) returns (r: int)
    ensures r == NextId(ids)
  {
    if ids == {} {
      return 1;
    }
    Inhabited(ids);
    var x :| x in ids;
    var best := x;
    var rest := ids - {x};
    while rest != {}
      invariant rest <= ids && best in ids
      invariant forall i :: i in ids && i !in rest ==> i <= best
      decreases rest
    {
      Inhabited(rest);
      var y :| y in rest;
      if y > best {
        best := y;
      }
      rest := rest - {y};
    }
    assert best == Max(ids);
    r := best + 1;
  }

  /** The parameter rows `(id, k) -> v` for every entry of a dict. */
  function Rows(id: int, d: map<string, string>): (r: map<(int, string), string>)
    ensures forall p :: p in r <==> p.0 == id && p.1 in d
    ensures forall k :: k in d ==> r[(id, k)] == d[k]
  {
    map k | k in d :: (id, k) := d[k]
  }

  /** The entries of an optional parameter dict (none when absent). */
  function ParamEntries(params: Option<Dict<string>>): map<string, string> {
    if params.Some? then params.value.m else map[]
  }

  /** The parameter rows left after deleting those whose owner is in `ids`. */
  function DropOwners(rows: map<(int, string), string>, ids: set<int>): (r: map<(int, string), string>)
    ensures forall p :: p in r <==> p in rows && p.0 !in ids
    ensures forall p :: p in r ==> r[p] == rows[p]
  {
    map p | p in rows && p.0 !in ids :: rows[p]
  }

  /** The ids of the operations recorded for one ensemble. */
  function OpsOf(ops: map<int, Operation>, ensembleId: int): (r: set<int>)
    ensures forall o :: o in r <==> o in ops && ops[o].ensembleId == ensembleId
  {
    set o | o in ops && ops[o].ensembleId == ensembleId
  }

  /** The operations of every other ensemble. */
  function OtherOps(ops: map<int, Operation>, ensembleId: int): (r: map<int, Operation>)
    ensures forall o :: o in r <==> o in ops && ops[o].ensembleId != ensembleId
    ensures forall o :: o in r ==> r[o] == ops[o]
  {
    map o | o in ops && ops[o].ensembleId != ensembleId :: ops[o]
  }

  /** The columns an `update_ensemble` call assigns. */
  datatype Field = StatusField(text: string) | DirectoryField(path: string)

  /** What `update_ensemble` does with its two keyword arguments. */
  datatype Plan = NoUpdate | EmptySetClause | Assign(fields: seq<Field>)

  /** The `SET` clause: one assignment per truthy argument, status first. */
  function Assignments(status: Option<string>, directory: Option<string>): (r: seq<Field>)
    ensures StatusField(status.GetOr("")) in r <==> status.Some? && status.value != ""
    ensures DirectoryField(directory.GetOr("")) in r <==> directory.Some? && directory.value != ""
    ensures r == [] <==> status.GetOr("") == "" && directory.GetOr("") == ""
  {
    (if status.Some? && status.value != "" then [StatusField(status.value)] else [])
    + (if directory.Some? && directory.value != "" then [DirectoryField(directory.value)] else [])
  }

  /** `update_ensemble` as written: the early return tests for `None`, the
      clause builder for truthiness, so an empty string with nothing else
      produces the statement `UPDATE ensembles SET  WHERE id=?`. */
  function PlanAsWritten(status: Option<string>, directory: Option<string>): (r: Plan)
    ensures r == NoUpdate <==> status.None? && directory.None?
    ensures r == EmptySetClause <==> (status.Some? || directory.Some?) && Assignments(status, directory) == []
  {
    if status.None? && directory.None? then NoUpdate
    else if Assignments(status, directory) == [] then EmptySetClause
    else Assign(Assignments(status, directory))
  }

  /** `update_ensemble` as intended: with nothing to assign it reports
      `False` and runs no statement. */
  function UpdatePlan(status: Option<string>, directory: Option<string>): (r: Plan)
    ensures r != EmptySetClause
    ensures r == NoUpdate <==> status.GetOr("") == "" && directory.GetOr("") == ""
  {
    var fields := Assignments(status, directory);
    if fields == [] then NoUpdate else Assign(fields)
  }

  /** An empty status string and no directory reach the malformed statement,
      where the intended plan does nothing. */
  lemma EmptyStatusPlan()
    ensures PlanAsWritten(Some(""), None) == EmptySetClause
    ensures UpdatePlan(Some(""), None) == NoUpdate
  {
    assert Assignments(Some(""), None) == [];
  }

  /** Wherever the code as written produces a well-formed statement, the
      intended plan is the same. */
  lemma PlansAgree(status: Option<string>, directory: Option<string>)
    ensures PlanAsWritten(status, directory) != EmptySetClause ==>
              PlanAsWritten(status, directory) == UpdatePlan(status, directory)
  {
  }

  /** The row after the assignments, or `None` when a status text breaks
      the `CHECK(status IN ('TUNING','PRODUCTION'))` constraint. */
  function Revise(e: Ensemble, fields: seq<Field>): (r: Option<Ensemble>)
    ensures r.None? <==> exists i :: 0 <= i < |fields| && fields[i].StatusField? && ParseStatus(fields[i].text).None?
    ensures r.Some? ==> r.value.description == e.description
    decreases fields
  {
    if fields == [] then Some(e)
    else
      match fields[0]
      case StatusField(t) =>
        (match ParseStatus(t)
         case None => None
         case Some(s) => Revise(e.(status := s), fields[1..]))
      case DirectoryField(d) => Revise(e.(directory := d), fields[1..])
  }


  /** One row of a parameter table, if present. */
  function RowOf(rows: map<(int, string), string>, id: int, name: string): (r: Option<string>)
    ensures r.Some? <==> (id, name) in rows
    ensures r.Some? ==> r.value == rows[(id, name)]
  {
    if (id, name) in rows then Some(rows[(id, name)]) else None
  }

  /** The four `cfg_*` rows of an ensemble, renamed. */
  function RangeOf(rows: map<(int, string), string>, id: int): ConfigRange {
    ConfigRange(RowOf(rows, id, CfgFirst), RowOf(rows, id, CfgLast),
                RowOf(rows, id, CfgIncrement), RowOf(rows, id, CfgTotal))
  }

  /** A given integer written as the text of row `(id, name)`. */
  function SetRow(rows: map<(int, string), string>, id: int, name: string, v: Option<int>): (r: map<(int, string), string>)
    ensures forall p :: p in r <==> p in rows || (p == (id, name) && v.Some?)
    ensures forall p :: p in rows && p != (id, name) ==> r[p] == rows[p]
    ensures v.Some? ==> r[(id, name)] == IntToString(v.value)
    ensures v.None? ==> r == rows
  {
    if v.Some? then rows[(id, name) := IntToString(v.value)] else rows
  }

  /** The rows after `set_configuration_range`: each given bound is
      written, every other row stays. */
  function WithRange(rows: map<(int, string), string>, id: int, first: Option<int>, last: Option<int>,
                     increment: Option<int>, total: Option<int>): (r: map<(int, string), string>)
    ensures forall p :: p in r <==>
              p in rows
              || (p == (id, CfgFirst) && first.Some?) || (p == (id, CfgLast) && last.Some?)
              || (p == (id, CfgIncrement) && increment.Some?) || (p == (id, CfgTotal) && total.Some?)
    ensures forall p :: p in rows && p.0 != id ==> r[p] == rows[p]
  {
    SetRow(SetRow(SetRow(SetRow(rows, id, CfgFirst, first), id, CfgLast, last), id, CfgIncrement, increment),
           id, CfgTotal, total)
  }

  /** Reading the range back after setting it gives each given bound as
      text and keeps each bound not given. */
  lemma RangeReadBack(rows: map<(int, string), string>, id: int, first: Option<int>, last: Option<int>,
                      increment: Option<int>, total: Option<int>)
    ensures var got, was := RangeOf(WithRange(rows, id, first, last, increment, total), id), RangeOf(rows, id);
            got.first == (if first.Some? then Some(IntToString(first.value)) else was.first)
            && got.last == (if last.Some? then Some(IntToString(last.value)) else was.last)
            && got.increment == (if increment.Some? then Some(IntToString(increment.value)) else was.increment)
            && got.total == (if total.Some? then Some(IntToString(total.value)) else was.total)
  {
    var r1 := SetRow(rows, id, CfgFirst, first);
    var r2 := SetRow(r1, id, CfgLast, last);
    var r3 := SetRow(r2, id, CfgIncrement, increment);
  }

  /** `update_ensemble(status='PRODUCTION', directory=d)` with a non-empty
      `d`: one statement assigning both columns, whose row then holds the
      new status and directory and keeps its description. */
  lemma {:induction false} PromotionPlan(e: Ensemble, d: string)
    requires d != ""
    ensures PlanAsWritten(Some(ProductionText), Some(d)) == Assign([StatusField(ProductionText), DirectoryField(d)])
    ensures Revise(e, [StatusField(ProductionText), DirectoryField(d)]) == Some(Ensemble(d, e.description, Production))
  {
    var fields := [StatusField(ProductionText), DirectoryField(d)];
    assert Assignments(Some(ProductionText), Some(d)) == fields;
    assert ParseStatus(ProductionText) == Some(Production);
    var e1 := e.(status := Production);
    assert fields[1..] == [DirectoryField(d)] && fields[1..][1..] == [];
    assert Revise(e1.(directory := d), []) == Some(e1.(directory := d));
    assert Revise(e1, fields[1..]) == Some(e1.(directory := d));
    assert Revise(e, fields) == Revise(e1, fields[1..]);
  }

  class Store {
    var ensembles: map<int, Ensemble>
    var ensembleParams: map<(int, string), string>
    var operations: map<int, Operation>
    var operationParams: map<(int, string), string>

    /** The `UNIQUE` constraint on `ensembles.directory`. */
    ghost predicate Valid()
      reads this
    {
      forall i, j :: i in ensembles && j in ensembles && ensembles[i].directory == ensembles[j].directory ==> i == j
    }

    predicate HasDirectory(directory: string)
      reads this
    {
      exists i :: i in ensembles && ensembles[i].directory == directory
    }

    /** An operation of the given ensemble and type whose `slurm_job`
        parameter is `job`: a row of the join in `update_operation`. */
    predicate JobMatch(o: int, ensembleId: int, opType: string, job: string)
      reads this
    {
      o in operations && operations[o].ensembleId == ensembleId && operations[o].opType == opType
      && (o, SlurmJob) in operationParams && operationParams[(o, SlurmJob)] == job
    }

    /** `init_database`: the four empty tables. */
    constructor ()
      ensures Valid()
      ensures ensembles == map[] && ensembleParams == map[]
      ensures operations == map[] && operationParams == map[]
    {
      ensembles := map[];
      ensembleParams := map[];
      operations := map[];
      operationParams := map[];
    }

    /** `get_ensemble_id_by_directory` (and `find_ensemble_by_directory`):
        the id of the ensemble whose directory is exactly `directory`. */
    method FindByDirectory(directory: string) returns (r: Option<int>)
      ensures r.Some? <==> HasDirectory(directory)
      ensures r.Some? ==> r.value in ensembles && ensembles[r.value].directory == directory
    {
      if exists i :: i in ensembles && ensembles[i].directory == directory {
        var i :| i in ensembles && ensembles[i].directory == directory;
        r := Some(i);
      } else {
        r := None;
      }
    }

    /** `add_ensemble`. A directory already recorded gives its id and
        `False` and writes nothing. Otherwise a TUNING row is inserted under
        the next id with one parameter row per entry; a stale parameter row
        already holding that id and name makes the insert fail, and the
        transaction leaves no trace. */
    method AddEnsemble(directory: string, params: Dict<string>, description: Option<string>)
      returns (r: Result<(int, bool)>)
      requires Valid() && params.Valid()
      modifies this
      ensures Valid()
      ensures old(HasDirectory(directory)) ==>
                unchanged(this) && r.Ok? && !r.value.1
                && r.value.0 in ensembles && ensembles[r.value.0].directory == directory
      ensures !old(HasDirectory(directory)) ==>
                var id := NextId(old(ensembles).Keys);
                if exists k :: k in params.m && (id, k) in old(ensembleParams) then
                  r == Err(DuplicateParameter) && unchanged(this)
                else
                  r == Ok((id, true))
                  && ensembles == old(ensembles)[id := Ensemble(directory, description, Tuning)]
                  && ensembleParams == old(ensembleParams) + Rows(id, params.m)
                  && operations == old(operations) && operationParams == old(operationParams)
    {
      var found := FindByDirectory(directory);
      if found.Some? {
        return Ok((found.value, false));
      }
      var id := NewId(ensembles.Keys);
      var i := 0;
      while i < |params.keys|
        invariant 0 <= i <= |params.keys|
        invariant forall j :: 0 <= j < i ==> (id, params.keys[j]) !in ensembleParams
      {
        if (id, params.keys[i]) in ensembleParams {
          return Err(DuplicateParameter);
        }
        i := i + 1;
      }
      ensembles := ensembles[id := Ensemble(directory, description, Tuning)];
      ensembleParams := ensembleParams + Rows(id, params.m);
      r := Ok((id, true));
    }

    /** `update_operation`. An unknown ensemble writes nothing. A truthy
        `operation_id` updates that row's status and user (if the row
        exists). Otherwise, when the params carry `slurm_job`, an operation
        of the same ensemble and type with that job is updated; failing
        that a new operation is inserted under the next id. The params are
        then upserted one row per key, so they merge into what the
        operation already had. */
    method UpdateOperation(ensembleId: int, opType: string, status: string, operationId: Option<int>,
                           params: Option<Dict<string>>, user: string)
      returns (oid: Option<int>, created: bool, msg: string)
      requires Valid()
      modifies this
      ensures Valid()
      ensures ensembles == old(ensembles) && ensembleParams == old(ensembleParams)
      ensures ensembleId !in old(ensembles) ==>
                oid == None && !created && msg == EnsembleNotFound && unchanged(this)
      ensures ensembleId in old(ensembles) ==>
                oid.Some?
                && operationParams == old(operationParams) + Rows(oid.value, ParamEntries(params))
      ensures ensembleId in old(ensembles) && operationId.Some? && operationId.value != 0 ==>
                oid == operationId && !created && msg == UpdatedMsg
                && operations == (if oid.value in old(operations)
                                  then old(operations)[oid.value := old(operations)[oid.value].(status := status, user := Some(user))]
                                  else old(operations))
      ensures ensembleId in old(ensembles) && (operationId.None? || operationId.value == 0) ==>
                var job := if params.Some? && SlurmJob in params.value.m then Some(params.value.m[SlurmJob]) else None;
                if job.Some? && exists o :: o in old(operations) && old(JobMatch(o, ensembleId, opType, job.value)) then
                  !created && msg == UpdatedMsg && old(JobMatch(oid.value, ensembleId, opType, job.value))
                  && operations == old(operations)[oid.value := old(operations)[oid.value].(status := status, user := Some(user))]
                else
                  created && msg == CreatedMsg && oid.value == NextId(old(operations).Keys)
                  && operations == old(operations)[oid.value := Operation(ensembleId, opType, status, Some(user))]
    {
      if ensembleId !in ensembles {
        return None, false, EnsembleNotFound;
      }
      var id: int;
      if operationId.Some? && operationId.value != 0 {
        id := operationId.value;
        if id in operations {
          operations := operations[id := operations[id].(status := status, user := Some(user))];
        }
        created, msg := false, UpdatedMsg;
      } else if params.Some? && SlurmJob in params.value.m
                && exists o :: o in operations && JobMatch(o, ensembleId, opType, params.value.m[SlurmJob]) {
        var job := params.value.m[SlurmJob];
        id :| id in operations && JobMatch(id, ensembleId, opType, job);
        operations := operations[id := operations[id].(status := status, user := Some(user))];
        created, msg := false, UpdatedMsg;
      } else {
        id := NewId(operations.Keys);
        operations := operations[id := Operation(ensembleId, opType, status, Some(user))];
        created, msg := true, CreatedMsg;
      }
      operationParams := operationParams + Rows(id, ParamEntries(params));
      oid := Some(id);
    }

    /** `remove_ensemble`: the parameters of the ensemble's operations, its
        operations, its parameters and its row are deleted; nothing else. */
    method RemoveEnsemble(ensembleId: int) returns (r: bool)
      requires Valid()
      modifies this
      ensures Valid() && r
      ensures ensembles == old(ensembles) - {ensembleId}
      ensures ensembleParams == DropOwners(old(ensembleParams), {ensembleId})
      ensures operations == OtherOps(old(operations), ensembleId)
      ensures operationParams == DropOwners(old(operationParams), OpsOf(old(operations), ensembleId))
    {
      operationParams := DropOwners(operationParams, OpsOf(operations, ensembleId));
      operations := OtherOps(operations, ensembleId);
      ensembleParams := DropOwners(ensembleParams, {ensembleId});
      ensembles := ensembles - {ensembleId};
      r := true;
    }

    /** `clear_ensemble_history`: `(0, False)` for an unknown ensemble;
        otherwise the ensemble's operations and their parameters are
        deleted and their number is returned. The ensemble, its parameters
        and every other ensemble's operations are kept. */
    method ClearEnsembleHistory(ensembleId: int) returns (count: nat, ok: bool)
      requires Valid()
      modifies this
      ensures Valid()
      ensures ensembleId !in old(ensembles) ==> count == 0 && !ok && unchanged(this)
      ensures ensembleId in old(ensembles) ==>
                ok && count == |OpsOf(old(operations), ensembleId)|
                && ensembles == old(ensembles) && ensembleParams == old(ensembleParams)
                && operations == OtherOps(old(operations), ensembleId)
                && operationParams == DropOwners(old(operationParams), OpsOf(old(operations), ensembleId))
    {
      if ensembleId !in ensembles {
        return 0, false;
      }
      var gone := OpsOf(operations, ensembleId);
      count := |gone|;
      operationParams := DropOwners(operationParams, gone);
      operations := OtherOps(operations, ensembleId);
      ok := true;
    }

    /** `update_ensemble` as written (see `PlanAsWritten`): with nothing
        truthy to assign but an argument given it runs the malformed
        statement, which fails. The `CHECK` constraint on the status and the `UNIQUE` constraint on
        the directory are enforced only on the row being updated; a missing
        row is no error and changes nothing. */
    method UpdateEnsemble(ensembleId: int, status: Option<string>, directory: Option<string>)
      returns (r: Result<bool>)
      requires Valid()
      modifies this
      ensures Valid()
      ensures ensembleParams == old(ensembleParams)
      ensures operations == old(operations) && operationParams == old(operationParams)
      ensures PlanAsWritten(status, directory) == NoUpdate ==> r == Ok(false) && ensembles == old(ensembles)
      ensures PlanAsWritten(status, directory) == EmptySetClause ==> r == Err(EmptySet) && ensembles == old(ensembles)
      ensures PlanAsWritten(status, directory).Assign? && ensembleId !in old(ensembles) ==>
                r == Ok(true) && ensembles == old(ensembles)
      ensures PlanAsWritten(status, directory).Assign? && ensembleId in old(ensembles) ==>
                var revised := Revise(old(ensembles)[ensembleId], PlanAsWritten(status, directory).fields);
                if revised.None? then
                  r == Err(BadStatus) && ensembles == old(ensembles)
                else if exists j :: j in old(ensembles) && j != ensembleId
                                    && old(ensembles)[j].directory == revised.value.directory then
                  r == Err(DuplicateDirectory) && ensembles == old(ensembles)
                else
                  r == Ok(true) && ensembles == old(ensembles)[ensembleId := revised.value]
    {
      var plan := PlanAsWritten(status, directory);
      if plan == NoUpdate {
        return Ok(false);
      }
      if plan == EmptySetClause {
        return Err(EmptySet);
      }
      if ensembleId !in ensembles {
        return Ok(true);
      }
      var revised := Revise(ensembles[ensembleId], plan.fields);
      if revised.None? {
        return Err(BadStatus);
      }
      var e := revised.value;
      if exists j :: j in ensembles && j != ensembleId && ensembles[j].directory == e.directory {
        return Err(DuplicateDirectory);
      }
      ensembles := ensembles[ensembleId := e];
      r := Ok(true);
    }

    /** `set_ensemble_parameter`: INSERT OR REPLACE of one row. The
        ensemble's existence is not checked. */
    method SetEnsembleParameter(ensembleId: int, name: string, value: string) returns (r: bool)
      requires Valid()
      modifies this
      ensures Valid() && r
      ensures ensembleParams == old(ensembleParams)[(ensembleId, name) := value]
      ensures ensembles == old(ensembles)
      ensures operations == old(operations) && operationParams == old(operationParams)
    {
      ensembleParams := ensembleParams[(ensembleId, name) := value];
      r := true;
    }

    /** `delete_ensemble_parameter`: removes the row if there is one. */
    method DeleteEnsembleParameter(ensembleId: int, name: string) returns (r: bool)
      requires Valid()
      modifies this
      ensures Valid() && r
      ensures ensembleParams == old(ensembleParams) - {(ensembleId, name)}
      ensures ensembles == old(ensembles)
      ensures operations == old(operations) && operationParams == old(operationParams)
    {
      ensembleParams := ensembleParams - {(ensembleId, name)};
      r := true;
    }

    /** `set_configuration_range`: `False` and no write when all four are
        `None`; otherwise each given bound is stored as `str(n)` under its
        `cfg_*` name, and what was stored is what `get_configuration_range`
        reads back. */
    method SetConfigurationRange(ensembleId: int, first: Option<int>, last: Option<int>,
                                 increment: Option<int>, total: Option<int>) returns (r: bool)
      requires Valid()
      modifies this`ensembleParams
      ensures r <==> first.Some? || last.Some? || increment.Some? || total.Some?
      ensures ensembleParams == WithRange(old(ensembleParams), ensembleId, first, last, increment, total)
    {
      if first.None? && last.None? && increment.None? && total.None? {
        return false;
      }
      ensembleParams := WithRange(ensembleParams, ensembleId, first, last, increment, total);
      r := true;
    }

    /** `get_configuration_range`: the four `cfg_*` rows, renamed. */
    function GetConfigurationRange(ensembleId: int): (r: ConfigRange)
      reads this
      ensures r.first.Some? <==> (ensembleId, CfgFirst) in ensembleParams
      ensures r.last.Some? <==> (ensembleId, CfgLast) in ensembleParams
      ensures r.increment.Some? <==> (ensembleId, CfgIncrement) in ensembleParams
      ensures r.total.Some? <==> (ensembleId, CfgTotal) in ensembleParams
    {
      RangeOf(ensembleParams, ensembleId)
    }

    /** `get_ensemble_id_by_nickname`: some ensemble id whose `nickname`
        row holds exactly `nickname` (`LIMIT 1` without `ORDER BY` picks
        any), or `None`. The id need not belong to a recorded ensemble. */
    method GetEnsembleIdByNickname(nickname: string) returns (r: Option<int>)
      ensures r.Some? <==> exists p :: p in ensembleParams && p.1 == NicknameKey && ensembleParams[p] == nickname
      ensures r.Some? ==> (r.value, NicknameKey) in ensembleParams && ensembleParams[(r.value, NicknameKey)] == nickname
    {
      if exists p :: p in ensembleParams && p.1 == NicknameKey && ensembleParams[p] == nickname {
        var p :| p in ensembleParams && p.1 == NicknameKey && ensembleParams[p] == nickname;
        r := Some(p.0);
      } else {
        r := None;
      }
    }

    /** The parameters of one ensemble, by name. */
    function ParamsOf(ensembleId: int): (r: map<string, string>)
      reads this
      ensures forall k :: k in r <==> (ensembleId, k) in ensembleParams
      ensures forall k :: k in r ==> r[k] == ensembleParams[(ensembleId, k)]
    {
      map p | p in ensembleParams && p.0 == ensembleId :: p.1 := ensembleParams[p]
    }

    /** `get_ensemble_details`: `None` for an unknown id; otherwise the row,
        the ensemble's parameters and the number of its operations. */
    function GetEnsembleDetails(ensembleId: int): (r: Option<Details>)
      reads this
      ensures r.Some? <==> ensembleId in ensembles
      ensures r.Some? ==>
                r.value.id == ensembleId
                && r.value.directory == ensembles[ensembleId].directory
                && r.value.status == ensembles[ensembleId].status
                && r.value.parameters == ParamsOf(ensembleId)
                && r.value.operationCount == |OpsOf(operations, ensembleId)|
    {
      if ensembleId !in ensembles then None
      else
        var e := ensembles[ensembleId];
        Some(Details(ensembleId, e.directory, e.description, e.status, ParamsOf(ensembleId),
                     |OpsOf(operations, ensembleId)|))
    }

    /** `resolve_ensemble_identifier`. An int, or a string `int()` accepts,
        is taken as the id. Any other string is looked up as a directory,
        first in the resolved absolute form (`resolved`, `None` when
        `Path.resolve` raises), then as given; failing both, as a nickname.
        The id counts only when its ensemble row exists; otherwise the
        answer is `(None, None)`. */
    method ResolveEnsembleIdentifier(identifier: Identifier, resolved: Option<string>)
      returns (id: Option<int>, details: Option<Details>)
      requires Valid()
      ensures id.Some? <==> details.Some?
      ensures id.Some? ==> id.value in ensembles && details == GetEnsembleDetails(id.value)
      ensures identifier.IdNumber? ==> (id.Some? <==> identifier.n in ensembles) && (id.Some? ==> id.value == identifier.n)
      ensures identifier.IdText? && ParseInt(identifier.s).Some? ==>
                var n := ParseInt(identifier.s).value;
                (id.Some? <==> n in ensembles) && (id.Some? ==> id.value == n)
      ensures identifier.IdText? && ParseInt(identifier.s).None? && resolved.Some? && HasDirectory(resolved.value) ==>
                id.Some? && ensembles[id.value].directory == resolved.value
      ensures identifier.IdText? && ParseInt(identifier.s).None?
              && resolved.Some? && !HasDirectory(resolved.value) && HasDirectory(identifier.s) ==>
                id.Some? && ensembles[id.value].directory == identifier.s
      ensures identifier.IdText? && ParseInt(identifier.s).None? && id.Some?
              && !(resolved.Some? && (HasDirectory(resolved.value) || HasDirectory(identifier.s))) ==>
                (id.value, NicknameKey) in ensembleParams && ensembleParams[(id.value, NicknameKey)] == identifier.s
    {
      var candidate: Option<int>;
      match identifier {
        case IdNumber(n) =>
          candidate := Some(n);
        case IdText(s) =>
          var asInt := ParseInt(s);
          if asInt.Some? {
            candidate := asInt;
          } else {
            candidate := None;
            if resolved.Some? {
              candidate := FindByDirectory(resolved.value);
              if candidate.None? {
                candidate := FindByDirectory(s);
              }
            }
            if candidate.None? {
              candidate := GetEnsembleIdByNickname(s);
            }
          }
      }
      if candidate.None? {
        return None, None;
      }
      details := GetEnsembleDetails(candidate.value);
      if details.None? {
        return None, None;
      }
      id := candidate;
    }
  }
}
