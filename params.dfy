/** Parameter strings: whitespace-separated `key=value` tokens, read into an
    ordered dict and written back. Shared by `merge_params` (`config.py`),
    `ParameterManager.parse` (`cli/components.py`) and the command-line
    parsers of the job commands. */
module Params {
  import opened Wrappers
  import opened Text
  import opened PyDict

  /** `token.split('=', 1)` for a token holding `=`; `None` for a token
      without one, which is skipped. */
  function Kv(token: string): (r: Option<(string, string)>)
    ensures r.None? <==> '=' !in token
    ensures r.Some? ==> '=' !in r.value.0 && token == r.value.0 + "=" + r.value.1
  {
    SplitOnce(token, '=')
  }

  predicate HasKey(token: string, k: string) {
    Kv(token).Some? && Kv(token).value.0 == k
  }

  /** One step of the parsing loop: `result[key] = value` for a token with
      `=`. */
  function AddToken(d: Dict<string>, token: string): (r: Dict<string>)
    requires d.Valid()
    ensures r.Valid()
  {
    match Kv(token)
    case None => d
    case Some((k, v)) => Set(d, k, v)
  }

  /** The dict the parsing loop builds from `tokens`, in order. */
  function Parsed(tokens: seq<string>): (r: Dict<string>)
    ensures r.Valid()
  {
    if tokens == [] then Empty() else AddToken(Parsed(tokens[..|tokens| - 1]), tokens[|tokens| - 1])
  }

  lemma AddTokenAt(d: Dict<string>, token: string, k: string)
    requires d.Valid()
    ensures k in AddToken(d, token).m <==> k in d.m || HasKey(token, k)
    ensures HasKey(token, k) ==> AddToken(d, token).m[k] == Kv(token).value.1
    ensures !HasKey(token, k) && k in d.m ==> AddToken(d, token).m[k] == d.m[k]
  {
  }

  lemma ParsedSnoc(tokens: seq<string>, n: nat)
    requires n < |tokens|
    ensures Parsed(tokens[..n + 1]) == AddToken(Parsed(tokens[..n]), tokens[n])
  {
    assert tokens[..n + 1][..n] == tokens[..n];
  }

  /** A key is present exactly when some token has it. */
  lemma {:induction false} ParsedHas(tokens: seq<string>, k: string)
    ensures k in Parsed(tokens).m <==> exists i :: 0 <= i < |tokens| && HasKey(tokens[i], k)
  {
    if tokens != [] {
      var n := |tokens| - 1;
      var init := tokens[..n];
      ParsedHas(init, k);
      ParsedSnoc(tokens, n);
      assert tokens[..n + 1] == tokens;
      AddTokenAt(Parsed(init), tokens[n], k);
      if k in Parsed(tokens).m {
        if HasKey(tokens[n], k) {
        } else {
          var i :| 0 <= i < |init| && HasKey(init[i], k);
          assert tokens[i] == init[i];
        }
      } else {
        forall i | 0 <= i < |tokens| ensures !HasKey(tokens[i], k) {
          if i < n { assert tokens[i] == init[i]; }
        }
      }
    }
  }

  /** The last token with a key decides its value: later duplicates win. */
  lemma {:induction false} ParsedLast(tokens: seq<string>, k: string, i: nat)
    requires i < |tokens| && HasKey(tokens[i], k)
    requires forall j :: i < j < |tokens| ==> !HasKey(tokens[j], k)
    ensures k in Parsed(tokens).m && Parsed(tokens).m[k] == Kv(tokens[i]).value.1
  {
    var n := |tokens| - 1;
    var init := tokens[..n];
    ParsedSnoc(tokens, n);
    assert tokens[..n + 1] == tokens;
    AddTokenAt(Parsed(init), tokens[n], k);
    if i < n {
      ParsedHas(init, k);
      assert HasKey(init[i], k);
      forall j | i < j < |init| ensures !HasKey(init[j], k) {
        assert init[j] == tokens[j];
      }
      ParsedLast(init, k, i);
    }
  }

  /** `s.split()` followed by the parsing loop: a well-formed dict whose
      keys and values hold no whitespace and whose keys hold no `=`. */
  function ParseWords(s: string): (r: Dict<string>)
    ensures r.Valid() && Clean(r)
  {
    SplitWsWords(s);
    ParsedClean(SplitWs(s));
    Parsed(SplitWs(s))
  }

  /** Keys and values read from tokens hold no whitespace, and keys hold no
      `=`: the form in which they can be written back. */
  predicate Clean(d: Dict<string>) {
    forall k :: k in d.m ==> NoSpace(k) && '=' !in k && NoSpace(d.m[k])
  }

  lemma {:induction false} ParsedClean(tokens: seq<string>)
    requires forall i :: 0 <= i < |tokens| ==> NoSpace(tokens[i])
    ensures Clean(Parsed(tokens))
  {
    if tokens != [] {
      var init := tokens[..|tokens| - 1];
      var t := tokens[|tokens| - 1];
      assert forall i :: 0 <= i < |init| ==> init[i] == tokens[i];
      ParsedClean(init);
      assert Parsed(tokens) == AddToken(Parsed(init), t);
      if Kv(t).Some? {
        KvClean(t);
      }
    }
  }

  /** The key and value of a token without whitespace hold none either. */
  lemma KvClean(t: string)
    requires NoSpace(t) && Kv(t).Some?
    ensures NoSpace(Kv(t).value.0) && '=' !in Kv(t).value.0 && NoSpace(Kv(t).value.1)
  {
    var (k, v) := Kv(t).value;
    assert t == k + "=" + v;
    assert forall x :: 0 <= x < |k| ==> k[x] == t[x];
    assert forall x :: 0 <= x < |v| ==> v[x] == t[|k| + 1 + x];
  }

  /** The tokens `f"{k}={v}"` of a dict, in its order. */
  function Tokens(d: Dict<string>): (r: seq<string>)
    requires d.Valid()
    ensures |r| == |d.keys|
    ensures forall i :: 0 <= i < |r| ==> r[i] == d.keys[i] + "=" + d.m[d.keys[i]]
  {
    seq(|d.keys|, i requires 0 <= i < |d.keys| => d.keys[i] + "=" + d.m[d.keys[i]])
  }

  /** `' '.join(f"{k}={v}" for k, v in d.items())`: a clean dict written
      this way reads back as itself, order included. */
  function Render(d: Dict<string>): (r: string)
    requires d.Valid()
    ensures Clean(d) ==> ParseWords(r) == d
  {
    if Clean(d) then
      TokensSplit(d);
      ParsedTokens(d);
      Join(Tokens(d), ' ')
    else Join(Tokens(d), ' ')
  }

  /** Parsing the tokens of a clean dict gives the dict back, order included. */
  lemma ParsedTokens(d: Dict<string>)
    requires d.Valid() && Clean(d)
    ensures Parsed(Tokens(d)) == d
  {
    var ts := Tokens(d);
    var i := 0;
    while i < |ts|
      invariant 0 <= i <= |ts|
      invariant Parsed(ts[..i]) == Dict(d.keys[..i], map k | k in d.keys[..i] :: d.m[k])
    {
      ParsedTokensStep(d, i);
      i := i + 1;
    }
    assert ts[..i] == ts;
    assert d.keys[..i] == d.keys;
  }

  lemma ParsedTokensStep(d: Dict<string>, i: nat)
    requires d.Valid() && Clean(d) && i < |d.keys|
    requires Parsed(Tokens(d)[..i]) == Dict(d.keys[..i], map k | k in d.keys[..i] :: d.m[k])
    ensures Parsed(Tokens(d)[..i + 1]) == Dict(d.keys[..i + 1], map k | k in d.keys[..i + 1] :: d.m[k])
  {
    var ts := Tokens(d);
    var k := d.keys[i];
    ParsedSnoc(ts, i);
    KvToken(k, d.m[k]);
    assert AddToken(Parsed(ts[..i]), ts[i]) == Set(Parsed(ts[..i]), k, d.m[k]);
    SetPrefix(d, i);
  }

  lemma SetPrefix(d: Dict<string>, i: nat)
    requires d.Valid() && i < |d.keys|
    ensures var p := Dict(d.keys[..i], map k | k in d.keys[..i] :: d.m[k]);
            p.Valid() &&
            Set(p, d.keys[i], d.m[d.keys[i]]) == Dict(d.keys[..i + 1], map k | k in d.keys[..i + 1] :: d.m[k])
  {
    var k := d.keys[i];
    assert k !in d.keys[..i];
    assert d.keys[..i + 1] == d.keys[..i] + [k];
  }

  lemma KvToken(k: string, v: string)
    requires '=' !in k
    ensures Kv(k + "=" + v) == Some((k, v))
  {
    var t := k + "=" + v;
    assert t[|k|] == '=';
    assert forall x :: 0 <= x < |k| ==> t[x] == k[x];
    IndexOfFirst(t, '=', |k|);
    assert t[..|k|] == k && t[|k| + 1..] == v;
  }

  /** Splitting the written tokens of a clean dict at whitespace gives the
      tokens back. */
  lemma TokensSplit(d: Dict<string>)
    requires d.Valid() && Clean(d)
    ensures SplitWs(Join(Tokens(d), ' ')) == Tokens(d)
  {
    TokensWords(d);
    SplitWsJoin(Tokens(d));
  }

  /** The tokens of a clean dict are non-empty words. */
  lemma TokensWords(d: Dict<string>)
    requires d.Valid() && Clean(d)
    ensures forall i :: 0 <= i < |Tokens(d)| ==> Tokens(d)[i] != [] && NoSpace(Tokens(d)[i])
  {
    var ts := Tokens(d);
    forall i | 0 <= i < |ts| ensures ts[i] != [] && NoSpace(ts[i]) {
      var k := d.keys[i];
      assert ts[i] == k + "=" + d.m[k];
      assert ts[i][|k|] == '=';
      assert forall x :: 0 <= x < |k| ==> ts[i][x] == k[x];
      assert forall x :: |k| < x < |ts[i]| ==> ts[i][x] == d.m[k][x - |k| - 1];
    }
  }
}
