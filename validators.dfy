/** The document validators (`schemas/validators.py`): the physics
    parameters of an ensemble and the payload that creates one. Field values
    arrive as strings or scalars; a float field accepts a decimal literal, an
    int field an integer literal, and both must be strictly positive. */
module Validators {
  import opened Wrappers
  import opened Text
  import opened PyDict
  import opened Nested
  import Schema

  /** A decimal literal with a nonzero digit and no minus sign: a float
      strictly greater than zero. */
  predicate PositiveDecimal(t: string) {
    Schema.Decimal(t) && t[0] != '-' && exists i :: 0 <= i < |t| && '1' <= t[i] <= '9'
  }

  /** A float field: the stripped literal, when it is a positive decimal. */
  function PosFloat(v: Val): (r: Option<string>)
    ensures r.Some? ==> PositiveDecimal(r.value)
  {
    match Schema.NumberText(v)
    case None => None
    case Some(t) => if PositiveDecimal(Strip(t)) then Some(Strip(t)) else None
  }

  /** An int field: the integer, when it is strictly positive. */
  function PosInt(v: Val): (r: Option<nat>)
    ensures r.Some? ==> r.value > 0
  {
    match Schema.NumberText(v)
    case None => None
    case Some(t) =>
      match ParseInt(t)
      case None => None
      case Some(n) => if n > 0 then Some(n) else None
  }

  /** `PhysicsParams`. The floats keep their decimal text. */
  datatype Physics = Physics(beta: string, b: string, Ls: nat, mc: string, ms: string, ml: string,
                             L: nat, T: nat)

  predicate ValidPhysics(p: Physics) {
    PositiveDecimal(p.beta) && PositiveDecimal(p.b) && PositiveDecimal(p.mc)
    && PositiveDecimal(p.ms) && PositiveDecimal(p.ml) && p.Ls > 0 && p.L > 0 && p.T > 0
  }

  datatype Kind = FloatField | IntField

  const PhysicsFields: seq<(string, Kind)> :=
    [("beta", FloatField), ("b", FloatField), ("Ls", IntField), ("mc", FloatField),
     ("ms", FloatField), ("ml", FloatField), ("L", IntField), ("T", IntField)]

  /** A field is present and holds a valid value of its kind. */
  predicate FieldOk(d: Dict<Val>, f: (string, Kind)) {
    f.0 in d.m && (if f.1 == FloatField then PosFloat(d.m[f.0]).Some? else PosInt(d.m[f.0]).Some?)
  }

  /** The names of the fields that fail, in declaration order: every failing
      field is reported, not just the first. */
  function Failed(d: Dict<Val>, fs: seq<(string, Kind)>): (r: seq<string>)
    ensures (r == []) <==> forall i :: 0 <= i < |fs| ==> FieldOk(d, fs[i])
  {
    if fs == [] then []
    else (if FieldOk(d, fs[0]) then [] else [fs[0].0]) + Failed(d, fs[1..])
  }

  /** Validating a physics document: all eight fields are required and
      strictly positive, and `Ls`, `L` and `T` are integers. */
  function ValidatePhysics(d: Dict<Val>): (r: Result<Physics>)
    ensures r.Ok? <==> forall i :: 0 <= i < |PhysicsFields| ==> FieldOk(d, PhysicsFields[i])
    ensures r.Ok? ==> ValidPhysics(r.value)
  {
    var failed := Failed(d, PhysicsFields);
    if failed != [] then Err("ValidationError: " + JoinWith(failed, ", "))
    else
      assert FieldOk(d, PhysicsFields[0]) && FieldOk(d, PhysicsFields[1]) && FieldOk(d, PhysicsFields[2])
          && FieldOk(d, PhysicsFields[3]) && FieldOk(d, PhysicsFields[4]) && FieldOk(d, PhysicsFields[5])
          && FieldOk(d, PhysicsFields[6]) && FieldOk(d, PhysicsFields[7]);
      Ok(Physics(PosFloat(d.m["beta"]).value, PosFloat(d.m["b"]).value, PosInt(d.m["Ls"]).value,
                 PosFloat(d.m["mc"]).value, PosFloat(d.m["ms"]).value, PosFloat(d.m["ml"]).value,
                 PosInt(d.m["L"]).value, PosInt(d.m["T"]).value))
  }

  datatype Status = Tuning | Production

  /** The pattern `^(TUNING|PRODUCTION)$`, matched against the whole text. */
  function ParseStatus(s: string): (r: Option<Status>)
    ensures r.Some? <==> s == "TUNING" || s == "PRODUCTION"
    ensures r == Some(Tuning) <==> s == "TUNING"
  {
    if s == "TUNING" then Some(Tuning) else if s == "PRODUCTION" then Some(Production) else None
  }

  /** `EnsembleCreate`. */
  datatype EnsembleCreate = EnsembleCreate(directory: string, physics: Physics, status: Status,
                                           description: Option<string>, nickname: Option<string>)

  /** An optional string field: absent or None gives `None`; a string gives
      itself; anything else is invalid (the outer `None`). */
  function OptStr(d: Dict<Val>, f: string): (r: Option<Option<string>>)
    ensures r == Some(None) <==> f !in d.m || d.m[f] == NoneVal
  {
    if f !in d.m || d.m[f] == NoneVal then Some(None)
    else if d.m[f].Str? then Some(Some(d.m[f].s))
    else None
  }

  /** Validating a creation payload: a string directory, valid physics, a
      status of TUNING or PRODUCTION, and optional string description and
      nickname that default to None. */
  function ValidateEnsembleCreate(doc: Dict<Val>): (r: Result<EnsembleCreate>)
    ensures r.Ok? <==>
              "directory" in doc.m && doc.m["directory"].Str?
              && "physics" in doc.m && doc.m["physics"].Map? && ValidatePhysics(doc.m["physics"].d).Ok?
              && "status" in doc.m && doc.m["status"].Str? && ParseStatus(doc.m["status"].s).Some?
              && OptStr(doc, "description").Some? && OptStr(doc, "nickname").Some?
    ensures r.Ok? ==> r.value.directory == doc.m["directory"].s && ValidPhysics(r.value.physics)
    ensures r.Ok? && ("nickname" !in doc.m || doc.m["nickname"] == NoneVal) ==> r.value.nickname.None?
    ensures r.Ok? && ("description" !in doc.m || doc.m["description"] == NoneVal) ==> r.value.description.None?
  {
    if "directory" !in doc.m || !doc.m["directory"].Str? then Err("ValidationError: directory")
    else if "physics" !in doc.m || !doc.m["physics"].Map? then Err("ValidationError: physics")
    else
      match ValidatePhysics(doc.m["physics"].d)
      case Err(e) => Err(e)
      case Ok(physics) =>
        if "status" !in doc.m || !doc.m["status"].Str? || ParseStatus(doc.m["status"].s).None? then
          Err("ValidationError: status")
        else if OptStr(doc, "description").None? then Err("ValidationError: description")
        else if OptStr(doc, "nickname").None? then Err("ValidationError: nickname")
        else
          Ok(EnsembleCreate(doc.m["directory"].s, physics, ParseStatus(doc.m["status"].s).value,
                            OptStr(doc, "description").value, OptStr(doc, "nickname").value))
  }
}
