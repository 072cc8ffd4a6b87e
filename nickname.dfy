/** The `nickname` command: sets or clears the `nickname` parameter of an
    ensemble, refusing (unless forced) a nickname another ensemble holds. */
module Nickname {
  import opened Wrappers
  import opened Text
  import opened Sqlite

  /** Some ensemble parameter row other than `id`'s holds the nickname `n`. */
  predicate HeldByOther(params: map<(int, string), string>, id: int, n: string) {
    exists p :: p in params && p.1 == NicknameKey && params[p] == n && p.0 != id
  }

  /** No two ensembles share a nickname, so that `-e <nickname>` names one
      ensemble. */
  ghost predicate UniqueNicknames(params: map<(int, string), string>) {
    forall p, q ::
      (p in params && q in params && p.1 == NicknameKey && q.1 == NicknameKey && params[p] == params[q]) ==> p.0 == q.0
  }

  /** Giving `id` a nickname that no other ensemble holds keeps nicknames
      unique, and afterwards only `id` holds it. */
  lemma SetKeepsUnique(params: map<(int, string), string>, id: int, n: string)
    requires UniqueNicknames(params) && !HeldByOther(params, id, n)
    ensures UniqueNicknames(params[(id, NicknameKey) := n])
    ensures !HeldByOther(params[(id, NicknameKey) := n], id, n)
  {
    var after := params[(id, NicknameKey) := n];
    forall p, q | p in after && q in after && p.1 == NicknameKey && q.1 == NicknameKey && after[p] == after[q]
      ensures p.0 == q.0
    {
      if p == (id, NicknameKey) && q != p {
        assert params[q] == n;
      } else if q == (id, NicknameKey) && p != q {
        assert params[p] == n;
      }
    }
  }

  /** `do_nickname`. `resolved` is the identifier as `Path.resolve` gives
      it; `nickname` the `--set` value. With `--clear` the row goes; a
      nickname that strips to nothing is refused; one held by another
      ensemble is refused without `--force`. The lookup returns any one
      holder, so when both `id` and another ensemble hold the nickname the
      command may go either way; with unique nicknames it sets exactly when
      forced or when no other ensemble holds the nickname, and keeps them
      unique. */
  method DoNickname(s: Store, identifier: Identifier, resolved: Option<string>, clear: bool,
                    nickname: Option<string>, force: bool)
    returns (code: int, id: Option<int>)
    requires s.Valid()
    modifies s
    ensures s.Valid()
    ensures s.ensembles == old(s.ensembles)
    ensures s.operations == old(s.operations) && s.operationParams == old(s.operationParams)
    ensures id.Some? ==> id.value in old(s.ensembles)
    ensures identifier.IdNumber? ==> (id.Some? <==> identifier.n in old(s.ensembles))
    ensures id.None? ==> code == 1 && unchanged(s)
    ensures id.Some? && clear ==>
              code == 0 && s.ensembleParams == old(s.ensembleParams) - {(id.value, NicknameKey)}
    ensures id.Some? && !clear && Strip(nickname.GetOr("")) == "" ==> code == 1 && unchanged(s)
    ensures id.Some? && !clear && Strip(nickname.GetOr("")) != "" ==>
              var n := Strip(nickname.GetOr(""));
              (code == 0 || code == 1)
              && (code == 0 ==> s.ensembleParams == old(s.ensembleParams)[(id.value, NicknameKey) := n])
              && (code == 1 ==> unchanged(s) && !force && HeldByOther(old(s.ensembleParams), id.value, n))
              && (force || !HeldByOther(old(s.ensembleParams), id.value, n) ==> code == 0)
              && (UniqueNicknames(old(s.ensembleParams)) ==>
                    (code == 0 <==> force || !HeldByOther(old(s.ensembleParams), id.value, n)))
    ensures !force && UniqueNicknames(old(s.ensembleParams)) ==> UniqueNicknames(s.ensembleParams)
  {
    var details;
    id, details := s.ResolveEnsembleIdentifier(identifier, resolved);
    if id.None? {
      return 1, id;
    }
    if clear {
      var _ := s.DeleteEnsembleParameter(id.value, NicknameKey);
      return 0, id;
    }
    var n := Strip(nickname.GetOr(""));
    if n == "" {
      return 1, id;
    }
    var other := s.GetEnsembleIdByNickname(n);
    if other.Some? && other.value != id.value && !force {
      return 1, id;
    }
    if !force && UniqueNicknames(s.ensembleParams) {
      SetKeepsUnique(s.ensembleParams, id.value, n);
    }
    var _ := s.SetEnsembleParameter(id.value, NicknameKey, n);
    code := 0;
  }
}
