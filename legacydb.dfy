/** The older store functions of `db.py`. Its `add_ensemble`,
    `remove_ensemble`, `update_ensemble` and `get_ensemble_details` are the
    same statements as those of `backends/sqlite.py` and are the members of
    `Sqlite.Store`; its `update_operation` differs: it has no `user` column
    and no lookup by SLURM job, so without an operation id it always inserts. */
module LegacyDb {
  import opened Wrappers
  import opened PyDict
  import opened Sqlite

  /** `update_operation` of `db.py`. An unknown ensemble writes nothing; a
      truthy `operation_id` updates that row's status (if the row exists);
      anything else inserts a new operation under the next id. The params
      are upserted one row per key. */
  method UpdateOperation(s: Store, ensembleId: int, opType: string, status: string,
                         operationId: Option<int>, params: Option<Dict<string>>)
    returns (oid: Option<int>, created: bool, msg: string)
    requires s.Valid()
    modifies s
    ensures s.Valid()
    ensures s.ensembles == old(s.ensembles) && s.ensembleParams == old(s.ensembleParams)
    ensures ensembleId !in old(s.ensembles) ==>
              oid == None && !created && msg == EnsembleNotFound && unchanged(s)
    ensures ensembleId in old(s.ensembles) ==>
              oid.Some?
              && s.operationParams == old(s.operationParams) + Rows(oid.value, if params.Some? then params.value.m else map[])
    ensures ensembleId in old(s.ensembles) && operationId.Some? && operationId.value != 0 ==>
              oid == operationId && !created && msg == UpdatedMsg
              && s.operations == (if oid.value in old(s.operations)
                                  then old(s.operations)[oid.value := old(s.operations)[oid.value].(status := status)]
                                  else old(s.operations))
    ensures ensembleId in old(s.ensembles) && (operationId.None? || operationId.value == 0) ==>
              created && msg == CreatedMsg && oid.value == NextId(old(s.operations).Keys)
              && oid.value !in old(s.operations)
              && s.operations == old(s.operations)[oid.value := Operation(ensembleId, opType, status, None)]
  {
    if ensembleId !in s.ensembles {
      return None, false, EnsembleNotFound;
    }
    var id: int;
    if operationId.Some? && operationId.value != 0 {
      id := operationId.value;
      if id in s.operations {
        s.operations := s.operations[id := s.operations[id].(status := status)];
      }
      created, msg := false, UpdatedMsg;
    } else {
      id := NewId(s.operations.Keys);
      s.operations := s.operations[id := Operation(ensembleId, opType, status, None)];
      created, msg := true, CreatedMsg;
    }
    if params.Some? {
      s.operationParams := s.operationParams + Rows(id, params.value.m);
    }
    oid := Some(id);
  }
}
