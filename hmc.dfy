/** HMC run parameters (`jobs/hmc.py`): the `HMCparameters` element of
    `HMCparameters.xml`, built from a per-mode defaults table or loaded from
    an existing file, then reset to the mode and overridden tag by tag; and
    the inputs the HMC batch scripts take from an ensemble's parameters. */
module Hmc {
  import opened Wrappers
  import opened Text
  import opened PyDict

  // ---------------------------------------------------------------------------
  // Modes

  datatype Mode = Tepid | Continue | Reseed

  function ModeName(m: Mode): string {
    match m
    case Tepid => "tepid"
    case Continue => "continue"
    case Reseed => "reseed"
  }

  /** The mode a command line names; `None` for any other name, which the
      source refuses. */
  function ParseMode(s: string): (r: Option<Mode>)
    ensures r.Some? <==> s == "tepid" || s == "continue" || s == "reseed"
    ensures r.Some? ==> ModeName(r.value) == s
  {
    if s == "tepid" then Some(Tepid)
    else if s == "continue" then Some(Continue)
    else if s == "reseed" then Some(Reseed)
    else None
  }

  lemma ParseModeName(m: Mode)
    ensures ParseMode(ModeName(m)) == Some(m)
  {
  }

  /** The mode table: first trajectory, number of trajectories, starting
      type and Metropolis test. */
  function StartTrajectory(m: Mode): nat {
    match m
    case Tepid => 0
    case Continue => 12
    case Reseed => 0
  }

  function Trajectories(m: Mode): nat {
    match m
    case Tepid => 100
    case Continue => 20
    case Reseed => 200
  }

  function StartingType(m: Mode): string {
    match m
    case Tepid => "TepidStart"
    case Continue => "CheckpointStart"
    case Reseed => "CheckpointStartReseed"
  }

  function Metropolis(m: Mode): bool {
    m != Tepid
  }

  /** `str(b).lower()`. */
  function BoolText(b: bool): string {
    if b then "true" else "false"
  }

  // ---------------------------------------------------------------------------
  // The HMCparameters element

  /** The `HMCparameters` element as text: its direct text children by tag,
      the text children of `MD` by tag, and the `elem` lists under
      `MD/name` and `MD/lvl_sizes` (`None` when that element is absent). */
  datatype HmcElem = HmcElem(top: Dict<string>, md: Dict<string>,
                             mdName: Option<seq<string>>, lvlSizes: Option<seq<string>>)
  {
    predicate Valid() {
      top.Valid() && md.Valid()
    }
  }

  const StartTrajectoryTag := "StartTrajectory"
  const TrajectoriesTag := "Trajectories"
  const MetropolisTag := "MetropolisTest"
  const StartingTypeTag := "StartingType"
  const SeedTag := "Seed"
  const MdNameKey := "md_name"
  const LvlSizesKey := "lvl_sizes"

  /** The children `_make_default_tree` gives `HMCparameters`, in order. */
  function DefaultTop(m: Mode, seed: int): (r: Dict<string>)
    ensures r.Valid()
  {
    var d0 := Set(Empty(), StartTrajectoryTag, NatToString(StartTrajectory(m)));
    var d1 := Set(d0, TrajectoriesTag, NatToString(Trajectories(m)));
    var d2 := Set(d1, MetropolisTag, BoolText(Metropolis(m)));
    var d3 := Set(d2, "NoMetropolisUntil", "0");
    var d4 := Set(d3, "PerformRandomShift", "false");
    var d5 := Set(d4, StartingTypeTag, StartingType(m));
    Set(d5, SeedTag, IntToString(seed))
  }

  /** `_make_default_tree(mode, seed)`. */
  function DefaultElem(m: Mode, seed: int): (r: HmcElem)
    ensures r.Valid()
  {
    HmcElem(DefaultTop(m, seed),
            Set(Set(Empty(), "MDsteps", "1"), "trajL", "0.75"),
            Some(["OMF2_5StepV", "OMF2_5StepV", "OMF4_11StepV"]),
            Some(["9", "1", "1"]))
  }

  /** A fresh element follows the mode table. */
  lemma DefaultFollowsTable(m: Mode, seed: int)
    ensures var top := DefaultElem(m, seed).top;
            Get(top, StartTrajectoryTag) == Some(NatToString(StartTrajectory(m)))
            && Get(top, TrajectoriesTag) == Some(NatToString(Trajectories(m)))
            && Get(top, MetropolisTag) == Some(BoolText(Metropolis(m)))
            && Get(top, StartingTypeTag) == Some(StartingType(m))
            && Get(top, SeedTag) == Some(IntToString(seed))
  {
  }

  /** StartingType and MetropolisTest set to the mode's values; a missing
      one is appended. */
  function Reset(e: HmcElem, m: Mode): (r: HmcElem)
    requires e.Valid()
    ensures r.Valid()
  {
    e.(top := Set(Set(e.top, StartingTypeTag, StartingType(m)), MetropolisTag, BoolText(Metropolis(m))))
  }

  /** After the reset the two tags hold the mode's values, every other tag
      is as before, and only a missing tag is added. */
  lemma ResetSets(e: HmcElem, m: Mode)
    requires e.Valid()
    ensures Get(Reset(e, m).top, StartingTypeTag) == Some(StartingType(m))
    ensures Get(Reset(e, m).top, MetropolisTag) == Some(BoolText(Metropolis(m)))
    ensures forall k :: k != StartingTypeTag && k != MetropolisTag ==> Get(Reset(e, m).top, k) == Get(e.top, k)
    ensures StartingTypeTag in e.top.m && MetropolisTag in e.top.m ==> Reset(e, m).top.keys == e.top.keys
    ensures Reset(e, m).md == e.md && Reset(e, m).mdName == e.mdName && Reset(e, m).lvlSizes == e.lvlSizes
  {
  }

  /** The defaults table and the reset agree: resetting a fresh element to
      its own mode changes nothing. */
  lemma ResetDefault(m: Mode, seed: int)
    ensures Reset(DefaultElem(m, seed), m) == DefaultElem(m, seed)
  {
    var e := DefaultElem(m, seed);
    DefaultFollowsTable(m, seed);
    SetSame(e.top, StartingTypeTag, StartingType(m));
    SetSame(e.top, MetropolisTag, BoolText(Metropolis(m)));
  }

  lemma SetSame(d: Dict<string>, k: string, v: string)
    requires d.Valid() && Get(d, k) == Some(v)
    ensures Set(d, k, v) == d
  {
    assert d.m[k := v] == d.m;
  }

  /** `root.find('Seed').text = str(seed)`; an element without `Seed` is the
      AttributeError. */
  function SeedSet(e: HmcElem, seed: int): (r: Result<HmcElem>)
    requires e.Valid()
    ensures r.Ok? <==> SeedTag in e.top.m
    ensures r.Ok? ==> r.value.Valid() && Get(r.value.top, SeedTag) == Some(IntToString(seed))
    ensures r.Ok? ==> r.value.top.keys == e.top.keys && r.value.md == e.md
    ensures r.Ok? ==> forall k :: k != SeedTag ==> Get(r.value.top, k) == Get(e.top, k)
  {
    if SeedTag in e.top.m then Ok(e.(top := Set(e.top, SeedTag, IntToString(seed))))
    else Err(NoSeedMessage)
  }

  /** `[e.strip() for e in txt.split(',')]`. */
  function ListItems(txt: string): (r: seq<string>)
    ensures |r| == |Split(txt, ',')|
    ensures forall i :: 0 <= i < |r| ==> r[i] == Strip(Split(txt, ',')[i])
  {
    var parts := Split(txt, ',');
    seq(|parts|, i requires 0 <= i < |parts| => Strip(parts[i]))
  }

  /** Items of a comma-joined list of clean items are those items. */
  lemma ListItemsJoin(items: seq<string>)
    requires |items| >= 1
    requires forall i :: 0 <= i < |items| ==> ',' !in items[i] && Strip(items[i]) == items[i]
    ensures ListItems(Join(items, ',')) == items
  {
    SplitJoin(items, ',');
  }

  const MdNameMessage := "md_name override needs an MD/name element"
  const LvlSizesMessage := "lvl_sizes override needs an MD/lvl_sizes element"
  const NoSeedMessage := "Seed override needs a Seed element"

  /** One override `key=val`: a list tag is replaced by the items of `val`
      (an absent list element is the AttributeError), a direct child of
      `HMCparameters` takes `val`, else a child of `MD` does, else nothing
      changes. No tag is ever added. */
  function ApplyOverride(e: HmcElem, key: string, val: string): (r: Result<HmcElem>)
    requires e.Valid()
    ensures r.Ok? ==> r.value.Valid()
    ensures r.Err? <==> (key == MdNameKey && e.mdName.None?) || (key == LvlSizesKey && e.lvlSizes.None?)
    ensures r.Ok? ==> r.value.top.keys == e.top.keys && r.value.md.keys == e.md.keys
    ensures r.Ok? && key == MdNameKey ==> r.value == e.(mdName := Some(ListItems(val)))
    ensures r.Ok? && key == LvlSizesKey ==> r.value == e.(lvlSizes := Some(ListItems(val)))
    ensures key != MdNameKey && key != LvlSizesKey && key in e.top.m ==>
              r == Ok(e.(top := Set(e.top, key, val)))
    ensures key != MdNameKey && key != LvlSizesKey && key !in e.top.m && key in e.md.m ==>
              r == Ok(e.(md := Set(e.md, key, val)))
    ensures key != MdNameKey && key != LvlSizesKey && key !in e.top.m && key !in e.md.m ==>
              r == Ok(e)
  {
    if key == MdNameKey then
      if e.mdName.None? then Err(MdNameMessage) else Ok(e.(mdName := Some(ListItems(val))))
    else if key == LvlSizesKey then
      if e.lvlSizes.None? then Err(LvlSizesMessage) else Ok(e.(lvlSizes := Some(ListItems(val))))
    else if key in e.top.m then Ok(e.(top := Set(e.top, key, val)))
    else if key in e.md.m then Ok(e.(md := Set(e.md, key, val)))
    else Ok(e)
  }

  /** The override loop over the keys `ks`, in order; it stops at the first
      error. */
  function Overridden(e: HmcElem, ks: seq<string>, vals: map<string, string>): (r: Result<HmcElem>)
    requires e.Valid()
    requires forall i :: 0 <= i < |ks| ==> ks[i] in vals
    ensures r.Ok? ==> r.value.Valid()
    decreases |ks|
  {
    if ks == [] then Ok(e)
    else
      match Overridden(e, ks[..|ks| - 1], vals)
      case Err(msg) => Err(msg)
      case Ok(prev) => ApplyOverride(prev, ks[|ks| - 1], vals[ks[|ks| - 1]])
  }

  /** Overrides never add a tag. */
  lemma {:induction false} OverriddenKeys(e: HmcElem, ks: seq<string>, vals: map<string, string>)
    requires e.Valid()
    requires forall i :: 0 <= i < |ks| ==> ks[i] in vals
    ensures Overridden(e, ks, vals).Ok? ==>
              Overridden(e, ks, vals).value.top.keys == e.top.keys
              && Overridden(e, ks, vals).value.md.keys == e.md.keys
    decreases |ks|
  {
    if ks != [] {
      OverriddenKeys(e, ks[..|ks| - 1], vals);
    }
  }

  /** A tag no override names keeps its text. */
  lemma {:induction false} OverriddenOther(e: HmcElem, ks: seq<string>, vals: map<string, string>, k: string)
    requires e.Valid()
    requires forall i :: 0 <= i < |ks| ==> ks[i] in vals
    requires k !in ks
    ensures Overridden(e, ks, vals).Ok? ==>
              Get(Overridden(e, ks, vals).value.top, k) == Get(e.top, k)
              && Get(Overridden(e, ks, vals).value.md, k) == Get(e.md, k)
    decreases |ks|
  {
    if ks != [] {
      OverriddenOther(e, ks[..|ks| - 1], vals, k);
    }
  }

  /** A list no override names keeps its items. */
  lemma {:induction false} OverriddenListsKept(e: HmcElem, ks: seq<string>, vals: map<string, string>)
    requires e.Valid()
    requires forall i :: 0 <= i < |ks| ==> ks[i] in vals
    ensures Overridden(e, ks, vals).Ok? && MdNameKey !in ks ==>
              Overridden(e, ks, vals).value.mdName == e.mdName
    ensures Overridden(e, ks, vals).Ok? && LvlSizesKey !in ks ==>
              Overridden(e, ks, vals).value.lvlSizes == e.lvlSizes
    decreases |ks|
  {
    if ks != [] {
      OverriddenListsKept(e, ks[..|ks| - 1], vals);
    }
  }

  /** With distinct keys, a direct child of `HMCparameters` that an
      override names holds that override's text. */
  lemma {:induction false} OverriddenTop(e: HmcElem, ks: seq<string>, vals: map<string, string>, k: string)
    requires e.Valid()
    requires forall i :: 0 <= i < |ks| ==> ks[i] in vals
    requires DistinctSeq(ks) && k in ks && k in e.top.m && k != MdNameKey && k != LvlSizesKey
    ensures Overridden(e, ks, vals).Ok? ==> Get(Overridden(e, ks, vals).value.top, k) == Some(vals[k])
    decreases |ks|
  {
    var init := ks[..|ks| - 1];
    var last := ks[|ks| - 1];
    if last == k {
      assert k !in init;
      OverriddenOther(e, init, vals, k);
      OverriddenKeys(e, init, vals);
    } else {
      assert k in init;
      OverriddenTop(e, init, vals, k);
      OverriddenKeys(e, init, vals);
    }
  }

  /** With distinct keys, an `md_name` override leaves exactly its items. */
  lemma {:induction false} OverriddenMdName(e: HmcElem, ks: seq<string>, vals: map<string, string>)
    requires e.Valid()
    requires forall i :: 0 <= i < |ks| ==> ks[i] in vals
    requires DistinctSeq(ks) && MdNameKey in ks
    ensures Overridden(e, ks, vals).Ok? ==>
              Overridden(e, ks, vals).value.mdName == Some(ListItems(vals[MdNameKey]))
    decreases |ks|
  {
    var init := ks[..|ks| - 1];
    var last := ks[|ks| - 1];
    if last != MdNameKey {
      assert MdNameKey in init;
      OverriddenMdName(e, init, vals);
    }
  }

  // ---------------------------------------------------------------------------
  // generate_hmc_parameters

  const SeedModeMessage := "Cannot override Seed outside mode='reseed'"
  const SeedIntMessage := "Seed override must be an integer"
  const UnknownModeMessage := "Unknown mode"
  const MalformedMessage := "Malformed XML: missing <HMCparameters>"

  /** The `Seed` override: only in reseed mode and only an integer. */
  function SeedOverride(modeName: string, overrides: Dict<string>): (r: Result<Option<int>>)
    ensures SeedTag !in overrides.m ==> r == Ok(None)
    ensures SeedTag in overrides.m ==>
              (r.Ok? <==> modeName == "reseed" && ParseInt(overrides.m[SeedTag]).Some?)
    ensures r.Ok? && SeedTag in overrides.m ==> r.value == ParseInt(overrides.m[SeedTag])
  {
    if SeedTag !in overrides.m then Ok(None)
    else if modeName != "reseed" then Err(SeedModeMessage)
    else
      match ParseInt(overrides.m[SeedTag])
      case None => Err(SeedIntMessage)
      case Some(n) => Ok(Some(n))
  }

  /** The element the command starts from. `existing` is the parsed
      `HMCparameters.xml` when the file exists, holding `None` when it has
      no `HMCparameters` element; `seed` is the override or the drawn
      random seed. */
  function Start(existing: Option<Option<HmcElem>>, mode: Option<Mode>, seed: int): (r: Result<HmcElem>)
    requires existing.Some? && existing.value.Some? ==> existing.value.value.Valid()
    ensures r.Ok? ==> r.value.Valid()
  {
    match existing
    case None => if mode.None? then Err(UnknownModeMessage) else Ok(DefaultElem(mode.value, seed))
    case Some(None) => Err(MalformedMessage)
    case Some(Some(e)) => Ok(e)
  }

  /** The overrides that reach the loop: `Seed` is popped first. */
  function WithoutSeed(overrides: Dict<string>): (r: Dict<string>)
    requires overrides.Valid()
    ensures r.Valid() && SeedTag !in r.m && SeedTag !in r.keys
    ensures forall k :: k != SeedTag ==> Get(r, k) == Get(overrides, k)
  {
    if SeedTag in overrides.m then Remove(overrides, SeedTag) else overrides
  }

  /** The element before the override loop: the start element, its `Seed`
      set by a reseed override, then reset to the mode. An unknown mode is
      refused here whether or not the file exists. */
  function Prepared(existing: Option<Option<HmcElem>>, mode: Option<Mode>, seedOverride: Option<int>,
                    randomSeed: int): (r: Result<HmcElem>)
    requires existing.Some? && existing.value.Some? ==> existing.value.value.Valid()
    ensures mode.None? ==> r.Err?
    ensures r.Ok? ==> mode.Some? && r.value.Valid()
    ensures r.Ok? ==> Get(r.value.top, StartingTypeTag) == Some(StartingType(mode.value))
                      && Get(r.value.top, MetropolisTag) == Some(BoolText(Metropolis(mode.value)))
    ensures r.Ok? && mode == Some(Reseed) && seedOverride.Some? ==>
              Get(r.value.top, SeedTag) == Some(IntToString(seedOverride.value))
    ensures existing.None? && mode.Some? && seedOverride.None? ==> r == Ok(DefaultElem(mode.value, randomSeed))
    ensures r.Ok? && existing.Some? && existing.value.Some?
              && StartingTypeTag in existing.value.value.top.m && MetropolisTag in existing.value.value.top.m ==>
              r.value.top.keys == existing.value.value.top.keys && r.value.md.keys == existing.value.value.md.keys
  {
    match Start(existing, mode, seedOverride.GetOr(randomSeed))
    case Err(msg) => Err(msg)
    case Ok(tree) =>
      if mode.None? then Err(UnknownModeMessage)
      else
        var seeded := if mode.value == Reseed && seedOverride.Some? then SeedSet(tree, seedOverride.value)
                      else Ok(tree);
        match seeded
        case Err(msg) => Err(msg)
        case Ok(t) =>
          ResetSets(t, mode.value);
          if existing.None? && seedOverride.None? then ResetDefault(mode.value, randomSeed); Ok(Reset(t, mode.value))
          else Ok(Reset(t, mode.value))
  }

  /** `generate_hmc_parameters(dir, mode, **overrides)`: the element written
      to `HMCparameters.xml`, or the error. `randomSeed` is the draw of
      `random.randint(1, 10**6)`. */
  function Generated(existing: Option<Option<HmcElem>>, modeName: string, overrides: Dict<string>,
                     randomSeed: int): (r: Result<HmcElem>)
    requires overrides.Valid()
    requires existing.Some? && existing.value.Some? ==> existing.value.value.Valid()
    ensures r.Ok? ==> r.value.Valid()
  {
    match SeedOverride(modeName, overrides)
    case Err(msg) => Err(msg)
    case Ok(seedOverride) =>
      match Prepared(existing, ParseMode(modeName), seedOverride, randomSeed)
      case Err(msg) => Err(msg)
      case Ok(t) =>
        var rest := WithoutSeed(overrides);
        Overridden(t, rest.keys, rest.m)
  }

  /** An unknown mode is always refused. */
  lemma UnknownModeRefused(existing: Option<Option<HmcElem>>, modeName: string, overrides: Dict<string>,
                           randomSeed: int)
    requires overrides.Valid()
    requires existing.Some? && existing.value.Some? ==> existing.value.value.Valid()
    requires ParseMode(modeName).None?
    ensures Generated(existing, modeName, overrides, randomSeed).Err?
  {
  }

  /** A successful run passed the seed check and the preparation, and its
      result is the override loop over the remaining overrides. */
  lemma GeneratedSteps(existing: Option<Option<HmcElem>>, modeName: string, overrides: Dict<string>,
                       randomSeed: int)
    requires overrides.Valid()
    requires existing.Some? && existing.value.Some? ==> existing.value.value.Valid()
    requires Generated(existing, modeName, overrides, randomSeed).Ok?
    ensures SeedOverride(modeName, overrides).Ok?
    ensures Prepared(existing, ParseMode(modeName), SeedOverride(modeName, overrides).value, randomSeed).Ok?
    ensures Generated(existing, modeName, overrides, randomSeed)
            == Overridden(Prepared(existing, ParseMode(modeName), SeedOverride(modeName, overrides).value, randomSeed).value,
                          WithoutSeed(overrides).keys, WithoutSeed(overrides).m)
  {
  }

  /** A `Seed` override succeeds only in reseed mode with an integer, and
      the written `Seed` is that integer. */
  lemma SeedOnlyInReseed(existing: Option<Option<HmcElem>>, modeName: string, overrides: Dict<string>,
                         randomSeed: int)
    requires overrides.Valid()
    requires existing.Some? && existing.value.Some? ==> existing.value.value.Valid()
    requires SeedTag in overrides.m
    ensures var r := Generated(existing, modeName, overrides, randomSeed);
            r.Ok? ==> modeName == "reseed" && ParseInt(overrides.m[SeedTag]).Some?
                      && Get(r.value.top, SeedTag) == Some(IntToString(ParseInt(overrides.m[SeedTag]).value))
  {
    var r := Generated(existing, modeName, overrides, randomSeed);
    if r.Ok? {
      var t := SeedPrepared(existing, modeName, overrides, randomSeed);
      var rest := WithoutSeed(overrides);
      OverriddenOther(t, rest.keys, rest.m, SeedTag);
    }
  }

  /** The element a successful run with a `Seed` override starts the
      override loop from: reseed mode, with that seed written. */
  lemma SeedPrepared(existing: Option<Option<HmcElem>>, modeName: string, overrides: Dict<string>,
                     randomSeed: int) returns (t: HmcElem)
    requires overrides.Valid()
    requires existing.Some? && existing.value.Some? ==> existing.value.value.Valid()
    requires SeedTag in overrides.m
    requires Generated(existing, modeName, overrides, randomSeed).Ok?
    ensures modeName == "reseed" && ParseInt(overrides.m[SeedTag]).Some?
    ensures t.Valid() && Get(t.top, SeedTag) == Some(IntToString(ParseInt(overrides.m[SeedTag]).value))
    ensures Generated(existing, modeName, overrides, randomSeed)
            == Overridden(t, WithoutSeed(overrides).keys, WithoutSeed(overrides).m)
  {
    GeneratedSteps(existing, modeName, overrides, randomSeed);
    var so := SeedOverride(modeName, overrides).value;
    ParseModeName(Reseed);
    assert modeName == ModeName(Reseed);
    t := Prepared(existing, Some(Reseed), so, randomSeed).value;
  }

  /** On success StartingType and MetropolisTest hold the mode's values
      unless an override names them. */
  lemma ModeTagsSet(existing: Option<Option<HmcElem>>, modeName: string, overrides: Dict<string>,
                    randomSeed: int)
    requires overrides.Valid()
    requires existing.Some? && existing.value.Some? ==> existing.value.value.Valid()
    ensures var r := Generated(existing, modeName, overrides, randomSeed);
            r.Ok? ==>
              ParseMode(modeName).Some?
              && (StartingTypeTag !in overrides.m ==>
                    Get(r.value.top, StartingTypeTag) == Some(StartingType(ParseMode(modeName).value)))
              && (MetropolisTag !in overrides.m ==>
                    Get(r.value.top, MetropolisTag) == Some(BoolText(Metropolis(ParseMode(modeName).value))))
  {
    var r := Generated(existing, modeName, overrides, randomSeed);
    if r.Ok? {
      GeneratedSteps(existing, modeName, overrides, randomSeed);
      var so := SeedOverride(modeName, overrides).value;
      var t := Prepared(existing, ParseMode(modeName), so, randomSeed).value;
      var rest := WithoutSeed(overrides);
      if StartingTypeTag !in overrides.m {
        assert StartingTypeTag !in rest.keys;
        OverriddenOther(t, rest.keys, rest.m, StartingTypeTag);
      }
      if MetropolisTag !in overrides.m {
        assert MetropolisTag !in rest.keys;
        OverriddenOther(t, rest.keys, rest.m, MetropolisTag);
      }
    }
  }

  /** On success an `md_name` override leaves the stripped comma-separated
      items of its value. */
  lemma MdNameItems(existing: Option<Option<HmcElem>>, modeName: string, overrides: Dict<string>,
                    randomSeed: int)
    requires overrides.Valid()
    requires existing.Some? && existing.value.Some? ==> existing.value.value.Valid()
    requires MdNameKey in overrides.m
    ensures var r := Generated(existing, modeName, overrides, randomSeed);
            r.Ok? ==> r.value.mdName == Some(ListItems(overrides.m[MdNameKey]))
  {
    var r := Generated(existing, modeName, overrides, randomSeed);
    if r.Ok? {
      GeneratedSteps(existing, modeName, overrides, randomSeed);
      var so := SeedOverride(modeName, overrides).value;
      var t := Prepared(existing, ParseMode(modeName), so, randomSeed).value;
      var rest := WithoutSeed(overrides);
      assert MdNameKey in rest.keys;
      OverriddenMdName(t, rest.keys, rest.m);
    }
  }

  /** Without a file and without overrides, a known mode writes the
      defaults table with the drawn seed. */
  lemma FreshDefaults(modeName: string, overrides: Dict<string>, randomSeed: int)
    requires overrides.Valid() && overrides.keys == []
    requires ParseMode(modeName).Some?
    ensures Generated(None, modeName, overrides, randomSeed)
              == Ok(DefaultElem(ParseMode(modeName).value, randomSeed))
  {
    assert overrides.m == map[];
  }

  /** Updating an existing file that has both mode tags adds no tag. */
  lemma ExistingKeepsTags(e: HmcElem, modeName: string, overrides: Dict<string>, randomSeed: int)
    requires overrides.Valid() && e.Valid()
    requires StartingTypeTag in e.top.m && MetropolisTag in e.top.m
    ensures var r := Generated(Some(Some(e)), modeName, overrides, randomSeed);
            r.Ok? ==> r.value.top.keys == e.top.keys && r.value.md.keys == e.md.keys
  {
    var r := Generated(Some(Some(e)), modeName, overrides, randomSeed);
    if r.Ok? {
      GeneratedSteps(Some(Some(e)), modeName, overrides, randomSeed);
      var so := SeedOverride(modeName, overrides).value;
      var t := Prepared(Some(Some(e)), ParseMode(modeName), so, randomSeed).value;
      var rest := WithoutSeed(overrides);
      OverriddenKeys(t, rest.keys, rest.m);
    }
  }

  // ---------------------------------------------------------------------------
  // The element, updated in place

  /** The `HMCparameters` element that `generate_hmc_parameters` updates
      field by field. */
  class HmcParameters {
    var top: Dict<string>
    var md: Dict<string>
    var mdName: Option<seq<string>>
    var lvlSizes: Option<seq<string>>

    function Elem(): HmcElem
      reads this
    {
      HmcElem(top, md, mdName, lvlSizes)
    }

    /** `_make_default_tree(mode, seed)`. */
    constructor Default(m: Mode, seed: int)
      ensures Elem() == DefaultElem(m, seed)
    {
      var d := DefaultElem(m, seed);
      top := d.top;
      md := d.md;
      mdName := d.mdName;
      lvlSizes := d.lvlSizes;
    }

    /** The element parsed from an existing file. */
    constructor Load(e: HmcElem)
      ensures Elem() == e
    {
      top := e.top;
      md := e.md;
      mdName := e.mdName;
      lvlSizes := e.lvlSizes;
    }

    /** `root.find('Seed').text = str(seed)`. */
    method SetSeed(seed: int) returns (ok: bool)
      requires Elem().Valid()
      modifies this
      ensures ok == SeedSet(old(Elem()), seed).Ok?
      ensures ok ==> Elem() == SeedSet(old(Elem()), seed).value
      ensures !ok ==> Elem() == old(Elem())
    {
      if SeedTag in top.m {
        top := Set(top, SeedTag, IntToString(seed));
        return true;
      }
      return false;
    }

    /** StartingType and MetropolisTest set to the mode's values. */
    method ResetMode(m: Mode)
      requires Elem().Valid()
      modifies this
      ensures Elem() == Reset(old(Elem()), m)
    {
      top := Set(top, StartingTypeTag, StartingType(m));
      top := Set(top, MetropolisTag, BoolText(Metropolis(m)));
    }

    /** The override loop, in the order of `overrides`; `err` is the error
        of the first list override whose element is absent. */
    method ApplyOverrides(overrides: Dict<string>) returns (err: Option<string>)
      requires Elem().Valid() && overrides.Valid()
      modifies this
      ensures err.None? <==> Overridden(old(Elem()), overrides.keys, overrides.m).Ok?
      ensures err.None? ==> Elem() == Overridden(old(Elem()), overrides.keys, overrides.m).value
      ensures err.Some? ==> Overridden(old(Elem()), overrides.keys, overrides.m) == Err(err.value)
    {
      var i := 0;
      while i < |overrides.keys|
        invariant 0 <= i <= |overrides.keys|
        invariant Elem().Valid()
        invariant Overridden(old(Elem()), overrides.keys[..i], overrides.m) == Ok(Elem())
      {
        var key := overrides.keys[i];
        OverriddenNext(old(Elem()), overrides.keys, overrides.m, i);
        err := ApplyOne(key, overrides.m[key]);
        if err.Some? {
          OverriddenErrStays(old(Elem()), overrides.keys, overrides.m, i + 1);
          return;
        }
        i := i + 1;
      }
      assert overrides.keys[..i] == overrides.keys;
      return None;
    }

    /** One override: a list element's items, or a direct child of
        `HMCparameters`, or else a child of `MD`, takes the value. */
    method ApplyOne(key: string, txt: string) returns (err: Option<string>)
      requires Elem().Valid()
      modifies this
      ensures err.None? <==> ApplyOverride(old(Elem()), key, txt).Ok?
      ensures err.None? ==> Elem() == ApplyOverride(old(Elem()), key, txt).value
      ensures err.Some? ==> ApplyOverride(old(Elem()), key, txt) == Err(err.value)
    {
      if key == MdNameKey {
        if mdName.None? {
          return Some(MdNameMessage);
        }
        mdName := Some(ListItems(txt));
      } else if key == LvlSizesKey {
        if lvlSizes.None? {
          return Some(LvlSizesMessage);
        }
        lvlSizes := Some(ListItems(txt));
      } else if key in top.m {
        top := Set(top, key, txt);
      } else if key in md.m {
        md := Set(md, key, txt);
      }
      return None;
    }
  }

  /** One more key is one more override on the element so far. */
  lemma OverriddenNext(e: HmcElem, ks: seq<string>, vals: map<string, string>, i: nat)
    requires e.Valid()
    requires forall j :: 0 <= j < |ks| ==> ks[j] in vals
    requires i < |ks| && Overridden(e, ks[..i], vals).Ok?
    ensures Overridden(e, ks[..i + 1], vals) == ApplyOverride(Overridden(e, ks[..i], vals).value, ks[i], vals[ks[i]])
  {
    assert ks[..i + 1][..i] == ks[..i];
  }

  /** Once the loop has failed it stays failed with the same error. */
  lemma {:induction false} OverriddenErrStays(e: HmcElem, ks: seq<string>, vals: map<string, string>, n: nat)
    requires e.Valid()
    requires forall i :: 0 <= i < |ks| ==> ks[i] in vals
    requires n <= |ks| && Overridden(e, ks[..n], vals).Err?
    ensures Overridden(e, ks, vals) == Overridden(e, ks[..n], vals)
    decreases |ks| - n
  {
    if n < |ks| {
      assert ks[..n + 1][..n] == ks[..n];
      OverriddenErrStays(e, ks, vals, n + 1);
    } else {
      assert ks[..n] == ks;
    }
  }

  /** `generate_hmc_parameters`, proved against `Generated`. */
  method GenerateHmcParameters(existing: Option<Option<HmcElem>>, modeName: string, overrides: Dict<string>,
                               randomSeed: int)
    returns (r: Result<HmcElem>)
    requires overrides.Valid()
    requires existing.Some? && existing.value.Some? ==> existing.value.value.Valid()
    ensures r == Generated(existing, modeName, overrides, randomSeed)
  {
    var mode := ParseMode(modeName);
    var seedOverride: Option<int> := None;
    if SeedTag in overrides.m {
      if modeName != "reseed" {
        return Err(SeedModeMessage);
      }
      seedOverride := ParseInt(overrides.m[SeedTag]);
      if seedOverride.None? {
        return Err(SeedIntMessage);
      }
    }
    var rest := WithoutSeed(overrides);
    var t: HmcParameters;
    if existing.None? {
      if mode.None? {
        return Err(UnknownModeMessage);
      }
      t := new HmcParameters.Default(mode.value, seedOverride.GetOr(randomSeed));
    } else if existing.value.None? {
      return Err(MalformedMessage);
    } else {
      t := new HmcParameters.Load(existing.value.value);
    }
    if mode.None? {
      return Err(UnknownModeMessage);
    }
    if mode.value == Reseed && seedOverride.Some? {
      var ok := t.SetSeed(seedOverride.value);
      if !ok {
        return Err(NoSeedMessage);
      }
    }
    t.ResetMode(mode.value);
    var err := t.ApplyOverrides(rest);
    if err.Some? {
      return Err(err.value);
    }
    r := Ok(t.Elem());
  }

  // ---------------------------------------------------------------------------
  // Inputs of the HMC batch scripts

  /** `str(n)` never holds a `.`. */
  lemma NoDotInInt(n: int)
    ensures '.' !in IntToString(n)
  {
    var s := IntToString(n);
    if n < 0 {
      assert s == ['-'] + NatToString(-n);
      forall i | 0 <= i < |s| ensures s[i] != '.' {
        if i > 0 {
          assert s[i] == NatToString(-n)[i - 1];
        }
      }
    } else {
      assert AllDigits(s);
    }
  }

  /** `VOL = f"{L}.{L}.{L}.{T}"`, the lattice handed to `--grid`. */
  function Vol(l: int, t: int): string {
    IntToString(l) + "." + IntToString(l) + "." + IntToString(l) + "." + IntToString(t)
  }

  /** The grid reads back: four dot-separated integers, `L` three times and
      then `T`. */
  lemma VolRoundTrip(l: int, t: int)
    ensures var ps := Split(Vol(l, t), '.');
            |ps| == 4 && ParseInt(ps[0]) == Some(l) && ParseInt(ps[1]) == Some(l)
            && ParseInt(ps[2]) == Some(l) && ParseInt(ps[3]) == Some(t)
  {
    var a, b := IntToString(l), IntToString(t);
    var parts := [a, a, a, b];
    NoDotInInt(l);
    NoDotInInt(t);
    assert Join(parts, '.') == Vol(l, t) by {
      assert Join(parts[3..], '.') == b;
      assert Join(parts[2..], '.') == a + "." + b;
      assert Join(parts[1..], '.') == a + "." + (a + "." + b);
    }
    SplitJoin(parts, '.');
    ParseIntToString(l);
    ParseIntToString(t);
  }

  const NotFoundMessage := "Ensemble not found"
  const ExecMessage := "HMC executable path (exec_path) is required"
  const BindGpuMessage := "HMC GPU binding script path (bind_script) is required"
  const BindCpuMessage := "HMC CPU binding script path (bind_script) is required"
  const NTrajecMessage := "n_trajec (Trajectories) must be provided from XML params."
  const TrajLMessage := "trajL parameter is required"
  const LvlSizesRequiredMessage := "lvl_sizes parameter is required"
  const KeyErrorMessage := "KeyError"
  const IntErrorMessage := "invalid literal for int()"

  /** `int(p[key])`: a missing key is the KeyError, a non-integer the
      ValueError. */
  function IntParam(p: map<string, string>, key: string): (r: Result<int>)
    ensures r.Ok? <==> key in p && ParseInt(p[key]).Some?
    ensures r.Ok? ==> r.value == ParseInt(p[key]).value
  {
    if key !in p then Err(KeyErrorMessage)
    else match ParseInt(p[key])
      case None => Err(IntErrorMessage)
      case Some(n) => Ok(n)
  }

  /** The executable: the argument, else the ensemble's `hmc_exec_path`. */
  function ExecPath(arg: Option<string>, p: map<string, string>): (r: Result<string>)
    ensures r.Err? <==> arg.None? && "hmc_exec_path" !in p
    ensures arg.Some? ==> r == Ok(arg.value)
    ensures arg.None? && "hmc_exec_path" in p ==> r == Ok(p["hmc_exec_path"])
  {
    if arg.Some? then Ok(arg.value)
    else if "hmc_exec_path" in p then Ok(p["hmc_exec_path"])
    else Err(ExecMessage)
  }

  /** The GPU binding script: the argument, else `hmc_bind_script_gpu`,
      else the older `hmc_bind_script`. */
  function BindScriptGpu(arg: Option<string>, p: map<string, string>): (r: Result<string>)
    ensures r.Err? <==> arg.None? && "hmc_bind_script_gpu" !in p && "hmc_bind_script" !in p
    ensures arg.Some? ==> r == Ok(arg.value)
    ensures arg.None? && "hmc_bind_script_gpu" in p ==> r == Ok(p["hmc_bind_script_gpu"])
    ensures arg.None? && "hmc_bind_script_gpu" !in p && "hmc_bind_script" in p ==> r == Ok(p["hmc_bind_script"])
  {
    if arg.Some? then Ok(arg.value)
    else if "hmc_bind_script_gpu" in p then Ok(p["hmc_bind_script_gpu"])
    else if "hmc_bind_script" in p then Ok(p["hmc_bind_script"])
    else Err(BindGpuMessage)
  }

  /** The CPU binding script: the argument, else `hmc_bind_script_cpu`;
      there is no fallback. */
  function BindScriptCpu(arg: Option<string>, p: map<string, string>): (r: Result<string>)
    ensures r.Err? <==> arg.None? && "hmc_bind_script_cpu" !in p
    ensures arg.Some? ==> r == Ok(arg.value)
    ensures arg.None? && "hmc_bind_script_cpu" in p ==> r == Ok(p["hmc_bind_script_cpu"])
  {
    if arg.Some? then Ok(arg.value)
    else if "hmc_bind_script_cpu" in p then Ok(p["hmc_bind_script_cpu"])
    else Err(BindCpuMessage)
  }

  /** Python truthiness of an optional text: present and non-empty, else
      the default. */
  function OrDefault(x: Option<string>, d: string): (r: string)
    ensures x.Some? && x.value != "" ==> r == x.value
    ensures x.None? || x.value == "" ==> r == d
  {
    if x.Some? && x.value != "" then x.value else d
  }

  /** What a batch script is written with: the grid, the executable, the
      binding script and the OpenMP thread count. */
  datatype ScriptInputs = ScriptInputs(vol: string, exec: string, bind: string, ompThreads: string)

  /** The ensemble parameters the GPU script's `ens_name` f-string indexes
      besides `L` and `T`. */
  const NameKeys: seq<string> := ["beta", "b", "Ls", "mc", "ms", "ml"]

  /** The checks of `generate_hmc_slurm_gpu` (`gpu`) or
      `generate_hmc_slurm_cpu`, in the order they run. `params` is the
      ensemble's parameter table, `None` for an unknown ensemble. */
  function SlurmInputs(gpu: bool, params: Option<map<string, string>>, execPath: Option<string>,
                       bindScript: Option<string>, nTrajec: Option<string>, trajL: Option<string>,
                       lvlSizes: Option<string>, ompNumThreads: Option<string>): (r: Result<ScriptInputs>)
    ensures r.Ok? <==>
              params.Some? && IntParam(params.value, "L").Ok? && IntParam(params.value, "T").Ok?
              && ExecPath(execPath, params.value).Ok?
              && (if gpu then BindScriptGpu(bindScript, params.value).Ok? else BindScriptCpu(bindScript, params.value).Ok?)
              && nTrajec.Some? && trajL.Some? && lvlSizes.Some?
              && (gpu ==> forall k :: k in NameKeys ==> k in params.value)
    ensures r.Ok? ==>
              var p := params.value;
              r.value.vol == Vol(IntParam(p, "L").value, IntParam(p, "T").value)
              && r.value.exec == ExecPath(execPath, p).value
              && r.value.bind == (if gpu then BindScriptGpu(bindScript, p).value else BindScriptCpu(bindScript, p).value)
              && r.value.ompThreads == OrDefault(ompNumThreads, if gpu then "16" else "4")
  {
    if params.None? then Err(NotFoundMessage)
    else
      var p := params.value;
      match IntParam(p, "L")
      case Err(msg) => Err(msg)
      case Ok(l) =>
        match IntParam(p, "T")
        case Err(msg) => Err(msg)
        case Ok(t) =>
          match ExecPath(execPath, p)
          case Err(msg) => Err(msg)
          case Ok(exec) =>
            match (if gpu then BindScriptGpu(bindScript, p) else BindScriptCpu(bindScript, p))
            case Err(msg) => Err(msg)
            case Ok(bind) =>
              if nTrajec.None? then Err(NTrajecMessage)
              else if trajL.None? then Err(TrajLMessage)
              else if lvlSizes.None? then Err(LvlSizesRequiredMessage)
              else if gpu && exists k :: k in NameKeys && k !in p then Err(KeyErrorMessage)
              else Ok(ScriptInputs(Vol(l, t), exec, bind, OrDefault(ompNumThreads, if gpu then "16" else "4")))
  }
}
