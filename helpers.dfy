/** The bash helpers an HMC batch script sources
    (`jobs/hmc_helpers.py`): finding the latest configuration that has
    both a checkpoint and an RNG file, and validating one configuration.
    The configuration directory is given as the regular files it holds,
    by path, each readable or not, and as the names the glob lists. */
module HmcHelpers {
  import opened Wrappers
  import opened Text

  const DefaultDir := "."
  const DefaultConfigPrefix := "ckpoint_EODWF_lat."
  const DefaultRngPrefix := "ckpoint_EODWF_rng."

  /** `${n:-default}`: the argument, or the default when it is empty. */
  function Arg(s: string, default: string): (r: string)
    ensures s != "" ==> r == s
    ensures s == "" ==> r == default
  {
    if s == "" then default else s
  }

  /** The regular files of the directory by path, each readable or not. */
  type Files = map<string, bool>

  /** `[[ -f p && -r p ]]`. */
  predicate Readable(files: Files, path: string) {
    path in files && files[path]
  }

  // ---------------------------------------------------------------------------
  // The configuration number in a file name

  // The `sed` that deletes every non-digit: the digits of `s`, in order.
  function DigitsOf(s: string): (r: string)
    ensures AllDigits(r) && |r| <= |s|
    ensures AllDigits(s) ==> r == s
  {
    if s == [] then []
    else if IsDigit(s[0]) then [s[0]] + DigitsOf(s[1..])
    else DigitsOf(s[1..])
  }

  /** The last position at or before `i` where `sub` starts in `s`. */
  function LastAt(s: string, sub: string, i: int): (r: Option<nat>)
    ensures r.Some? ==> r.value <= i && r.value <= |s| && StartsWith(s[r.value..], sub)
    ensures r.None? ==> forall j :: 0 <= j <= i && j <= |s| ==> !StartsWith(s[j..], sub)
    decreases i + 1
  {
    if i < 0 then None
    else if i <= |s| && StartsWith(s[i..], sub) then Some(i)
    else LastAt(s, sub, i - 1)
  }

  /** `sed "s|.*PREFIX||"`: what follows the last occurrence of the
      prefix, or the whole text when it has none. */
  function AfterLast(s: string, prefix: string): (r: string)
    ensures |r| <= |s|
  {
    match LastAt(s, prefix, |s|)
    case Some(i) => s[i + |prefix|..]
    case None => s
  }

  /** The configuration number `hmc_find_latest_config` reads from a path. */
  function ConfigNumber(path: string, prefix: string): (r: string)
    ensures AllDigits(r)
  {
    DigitsOf(AfterLast(path, prefix))
  }

  lemma {:induction false} LastAtFinds(s: string, sub: string, i: int, k: nat)
    requires k <= i && k <= |s| && StartsWith(s[k..], sub)
    requires forall j :: k < j <= i && j <= |s| ==> !StartsWith(s[j..], sub)
    ensures LastAt(s, sub, i) == Some(k)
    decreases i
  {
    if i > k {
      LastAtFinds(s, sub, i - 1, k);
    }
  }

  /** A name that is the prefix followed by digits, with no other
      occurrence of the prefix after it, gives back those digits. */
  lemma ConfigNumberOfName(dir: string, prefix: string, digits: string)
    requires prefix != [] && AllDigits(digits)
    requires forall j :: |dir| + 1 < j <= |dir| + 1 + |prefix| + |digits| ==>
               !StartsWith((dir + "/" + prefix + digits)[j..], prefix)
    ensures ConfigNumber(dir + "/" + prefix + digits, prefix) == digits
  {
    var path := dir + "/" + prefix + digits;
    var k := |dir| + 1;
    assert path[k..] == prefix + digits;
    assert StartsWith(path[k..], prefix);
    LastAtFinds(path, prefix, |path|, k);
    assert path[k + |prefix|..] == digits;
  }

  // ---------------------------------------------------------------------------
  // hmc_find_latest_config

  function CheckpointFile(dir: string, prefix: string, cfg: string): string {
    dir + "/" + prefix + cfg
  }

  /** Both the checkpoint and the RNG file of `cfg` are readable files. */
  predicate HasBoth(files: Files, dir: string, configPrefix: string, rngPrefix: string, cfg: string) {
    Readable(files, CheckpointFile(dir, configPrefix, cfg)) && Readable(files, CheckpointFile(dir, rngPrefix, cfg))
  }

  /** The configuration numbers the glob loop collects: for each listed
      name that starts with the prefix and is a readable file, the number
      in its path when that is not empty. */
  function Configs(files: Files, dir: string, prefix: string, names: seq<string>): (r: seq<string>)
    ensures forall i :: 0 <= i < |r| ==> r[i] != [] && AllDigits(r[i])
    decreases |names|
  {
    if names == [] then []
    else
      var init := Configs(files, dir, prefix, names[..|names| - 1]);
      var name := names[|names| - 1];
      var path := dir + "/" + name;
      var num := ConfigNumber(path, prefix);
      if StartsWith(name, prefix) && Readable(files, path) && num != [] then init + [num] else init
  }

  /** Every listed name with the prefix that is a readable file and holds
      digits after its last prefix is collected. */
  lemma {:induction false} ConfigsCollect(files: Files, dir: string, prefix: string, names: seq<string>, i: nat)
    requires i < |names| && StartsWith(names[i], prefix) && Readable(files, dir + "/" + names[i])
    requires ConfigNumber(dir + "/" + names[i], prefix) != []
    ensures ConfigNumber(dir + "/" + names[i], prefix) in Configs(files, dir, prefix, names)
    decreases |names|
  {
    if i < |names| - 1 {
      var init := names[..|names| - 1];
      assert init[i] == names[i];
      ConfigsCollect(files, dir, prefix, init, i);
    }
  }

  /** The collecting loop, proved against `Configs`. */
  method CollectConfigs(files: Files, dir: string, prefix: string, names: seq<string>) returns (configs: seq<string>)
    ensures configs == Configs(files, dir, prefix, names)
  {
    configs := [];
    var i := 0;
    while i < |names|
      invariant 0 <= i <= |names|
      invariant configs == Configs(files, dir, prefix, names[..i])
    {
      assert names[..i + 1][..i] == names[..i];
      var path := dir + "/" + names[i];
      if StartsWith(names[i], prefix) && Readable(files, path) {
        var num := ConfigNumber(path, prefix);
        if num != [] {
          configs := configs + [num];
        }
      }
      i := i + 1;
    }
    assert names[..i] == names;
  }

  /** The numeric value of a configuration number. */
  function Value(cfg: string): nat {
    if AllDigits(cfg) then DigitsValue(cfg) else 0
  }

  /** A collected configuration that has both files. */
  predicate Usable(files: Files, dir: string, configPrefix: string, rngPrefix: string,
                   configs: seq<string>, c: string) {
    c in configs && HasBoth(files, dir, configPrefix, rngPrefix, c)
  }

  /** The collected configuration with the largest value among those that
      have both files, else "0". */
  method PickLatest(files: Files, dir: string, cp: string, rp: string, configs: seq<string>) returns (cfg: string)
    ensures (cfg == "0" && forall c :: c in configs ==> !HasBoth(files, dir, cp, rp, c))
            || (Usable(files, dir, cp, rp, configs, cfg)
                && forall c :: Usable(files, dir, cp, rp, configs, c) ==> Value(c) <= Value(cfg))
  {
    var found := false;
    cfg := "0";
    var i := 0;
    while i < |configs|
      invariant 0 <= i <= |configs|
      invariant !found ==> cfg == "0" && forall j :: 0 <= j < i ==> !HasBoth(files, dir, cp, rp, configs[j])
      invariant found ==> Usable(files, dir, cp, rp, configs, cfg)
      invariant found ==> forall j :: 0 <= j < i && HasBoth(files, dir, cp, rp, configs[j]) ==> Value(configs[j]) <= Value(cfg)
    {
      var c := configs[i];
      if HasBoth(files, dir, cp, rp, c) && (!found || Value(cfg) < Value(c)) {
        cfg := c;
        found := true;
      }
      i := i + 1;
    }
    if !found {
      forall c | c in configs ensures !HasBoth(files, dir, cp, rp, c) {
        var j :| 0 <= j < |configs| && configs[j] == c;
      }
    } else {
      forall c | Usable(files, dir, cp, rp, configs, c) ensures Value(c) <= Value(cfg) {
        var j :| 0 <= j < |configs| && configs[j] == c;
      }
    }
  }

  /** `hmc_find_latest_config DIR CONFIG_PREFIX RNG_PREFIX`: the largest
      collected configuration whose checkpoint and RNG files are both
      readable, else "0". */
  method FindLatestConfig(files: Files, names: seq<string>, dirArg: string, configArg: string, rngArg: string)
    returns (cfg: string)
    ensures var dir, cp, rp := Arg(dirArg, DefaultDir), Arg(configArg, DefaultConfigPrefix), Arg(rngArg, DefaultRngPrefix);
            var configs := Configs(files, dir, cp, names);
            (cfg == "0" && forall c :: c in configs ==> !HasBoth(files, dir, cp, rp, c))
            || (Usable(files, dir, cp, rp, configs, cfg)
                && forall c :: Usable(files, dir, cp, rp, configs, c) ==> Value(c) <= Value(cfg))
  {
    var dir, cp, rp := Arg(dirArg, DefaultDir), Arg(configArg, DefaultConfigPrefix), Arg(rngArg, DefaultRngPrefix);
    var configs := CollectConfigs(files, dir, cp, names);
    if |configs| == 0 {
      return "0";
    }
    cfg := PickLatest(files, dir, cp, rp, configs);
  }

  // ---------------------------------------------------------------------------
  // hmc_validate_config

  /** `hmc_validate_config CFG DIR CONFIG_PREFIX RNG_PREFIX`: status 1 for
      an empty configuration; otherwise one error for each of the two files
      that is missing or unreadable, and status 0 exactly when there is
      none. */
  method ValidateConfig(files: Files, cfg: string, dirArg: string, configArg: string, rngArg: string)
    returns (code: int, errors: nat)
    ensures var dir, cp, rp := Arg(dirArg, DefaultDir), Arg(configArg, DefaultConfigPrefix), Arg(rngArg, DefaultRngPrefix);
            code == (if cfg != "" && HasBoth(files, dir, cp, rp, cfg) then 0 else 1)
    ensures cfg != "" ==> errors <= 2 && (errors == 0 <==> code == 0)
  {
    if cfg == "" {
      return 1, 0;
    }
    var dir, cp, rp := Arg(dirArg, DefaultDir), Arg(configArg, DefaultConfigPrefix), Arg(rngArg, DefaultRngPrefix);
    var ckpt := CheckpointFile(dir, cp, cfg);
    var rng := CheckpointFile(dir, rp, cfg);
    errors := 0;
    if ckpt !in files {
      errors := errors + 1;
    } else if !files[ckpt] {
      errors := errors + 1;
    }
    if rng !in files {
      errors := errors + 1;
    } else if !files[rng] {
      errors := errors + 1;
    }
    code := if errors == 0 then 0 else 1;
  }
}
