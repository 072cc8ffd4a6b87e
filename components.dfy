/** The composable command-line components (`cli/components.py`): the
    ensemble resolver and the parameter-string manager. */
module Components {
  import opened Wrappers
  import opened Text
  import opened PyDict
  import opened Nested
  import opened Params
  import Mongo
  import Sqlite

  /** The stored ensemble `id` is one `identifier` names: by its integer
      id, or, for text, by its directory (the resolved absolute path) or
      its nickname. */
  predicate Names(ens: map<int, Mongo.Doc>, identifier: Sqlite.Identifier, resolved: string, id: int) {
    id in ens
    && (Mongo.IntOf(identifier) == Some(id)
        || (identifier.IdText? && (Mongo.DirectoryIs(ens[id], resolved) || Mongo.NicknameIs(ens[id], identifier.s))))
  }

  /** `EnsembleResolver`, over the document backend. */
  class EnsembleResolver {
    const backend: Mongo.Backend

    constructor (backend: Mongo.Backend)
      ensures this.backend == backend
    {
      this.backend := backend;
    }

    /** `resolve`: the backend's answer, unless it found no (or an empty)
        ensemble, which raises EnsembleNotFoundError. The result is a
        stored ensemble the identifier names, and there is one exactly when
        some stored ensemble is so named; an integer id is tried first. */
    method Resolve(identifier: Sqlite.Identifier, resolved: string) returns (r: Result<(int, Mongo.Doc)>)
      requires backend.Valid()
      ensures r.Ok? ==> Names(backend.ensembles, identifier, resolved, r.value.0)
                        && r.value.1 == backend.ensembles[r.value.0]
      ensures r.Ok? <==> exists id :: Names(backend.ensembles, identifier, resolved, id)
      ensures backend.ById(identifier) ==> r.Ok? && r.value.0 == Mongo.IntOf(identifier).value
      ensures r.Err? ==> r.msg == NotFound + IdentifierText(identifier)
    {
      var found := backend.ResolveEnsembleIdentifier(identifier, resolved);
      if found.Ok? {
        StoredNonEmpty(backend.ensembles, found.value.0);
      }
      if found.Err? || found.value.1 == map[] {
        NoneNamed(backend.ensembles, identifier, resolved);
        return Err(NotFound + IdentifierText(identifier));
      }
      assert Names(backend.ensembles, identifier, resolved, found.value.0);
      r := Ok(found.value);
    }
  }

  /** When no id, directory or nickname matches, no stored ensemble is named. */
  lemma NoneNamed(ens: map<int, Mongo.Doc>, identifier: Sqlite.Identifier, resolved: string)
    requires !(Mongo.IntOf(identifier).Some? && Mongo.IntOf(identifier).value in ens)
    requires identifier.IdNumber?
             || !(exists i :: i in ens && (Mongo.DirectoryIs(ens[i], resolved) || Mongo.NicknameIs(ens[i], identifier.s)))
    ensures !exists id :: Names(ens, identifier, resolved, id)
  {
  }

  /** A stored ensemble document is never empty: it holds its id. */
  lemma StoredNonEmpty(ens: map<int, Mongo.Doc>, id: int)
    requires Mongo.Indexed(ens) && id in ens
    ensures ens[id] != map[]
  {
    assert Mongo.Field(ens[id], Mongo.EnsembleIdField) == Mongo.Number(id);
  }

  const NotFound := "EnsembleNotFoundError: "

  /** The identifier as `str` prints it. */
  function IdentifierText(identifier: Sqlite.Identifier): string {
    match identifier
    case IdNumber(n) => IntToString(n)
    case IdText(s) => s
  }

  /** `ParameterManager.parse`: every whitespace-separated token holding `=`
      is split at its first `=`; a later duplicate key overrides an earlier
      one; `None` parses like the empty string. */
  method Parse(paramString: Option<string>) returns (result: Dict<string>)
    ensures result == ParseWords(paramString.GetOr(""))
  {
    var tokens := SplitWs(paramString.GetOr(""));
    result := Empty();
    var i := 0;
    while i < |tokens|
      invariant 0 <= i <= |tokens|
      invariant result == Parsed(tokens[..i])
    {
      var token := tokens[i];
      ParsedSnoc(tokens, i);
      if '=' in token {
        var kv := Kv(token).value;
        result := Set(result, kv.0, kv.1);
      }
      i := i + 1;
    }
    assert tokens[..i] == tokens;
  }

  /** `None` and the empty string parse to the empty dict. */
  lemma ParseNothing()
    ensures ParseWords("") == Empty()
  {
    assert SplitWs("") == [];
  }

  /** `ParameterManager.merge`: a copy of the defaults updated with the
      overrides. An override wins on a shared key, every other default is
      kept, and the new keys follow the defaults' keys in the overrides'
      order. */
  function Merge(defaults: Dict<string>, overrides: Dict<string>): (r: Dict<string>)
    requires defaults.Valid() && overrides.Valid()
    ensures r.Valid()
    ensures r.m == defaults.m + overrides.m
    ensures r.keys == defaults.keys + Fresh(overrides.keys, defaults.m.Keys)
  {
    UpdateValues(defaults, overrides);
    UpdateKeys(defaults, overrides);
    Update(defaults, overrides)
  }
}
