/** The `promote-ensemble` command: a TUNING ensemble's directory moves
    from `<base>/TUNING/<rel>` to `<base>/ENSEMBLES/<rel>` and its row takes
    the PRODUCTION status and the new directory. */
module Promote {
  import opened Wrappers
  import opened Text
  import opened Validators
  import opened Sqlite
  import opened FileTree
  import opened EnsemblePath

  /** `resp.lower() in ('y', 'yes')`. */
  predicate Confirmed(answer: string) {
    LowerText(answer) == "y" || LowerText(answer) == "yes"
  }

  /** The answers the prompt accepts: `y` or `yes` in any mix of cases. */
  lemma ConfirmedMeaning(answer: string)
    ensures Confirmed(answer) <==>
              (|answer| == 1 && answer[0] in "yY")
              || (|answer| == 3 && answer[0] in "yY" && answer[1] in "eE" && answer[2] in "sS")
  {
    var l := LowerText(answer);
    if |answer| == 1 {
      assert l == "y" <==> l[0] == 'y';
    } else if |answer| == 3 {
      assert l == "yes" <==> l[0] == 'y' && l[1] == 'e' && l[2] == 's';
    }
  }

  /** `prod / old_dir.relative_to(tuning)` as a string: the path below
      `<base>/ENSEMBLES` is the source's path below `<base>/TUNING`, so a
      source under `TUNING` has its target under `ENSEMBLES`. */
  function Target(src: string, base: string): (r: string)
    requires |src| >= |base + TuningDir|
    ensures |r| >= |base + EnsemblesDir| && r[..|base + EnsemblesDir|] == base + EnsemblesDir
    ensures r[|base + EnsemblesDir|..] == src[|base + TuningDir|..]
    ensures Under(src, base + TuningDir) ==> Under(r, base + EnsemblesDir)
  {
    RelativeUnder(src, base);
    base + EnsemblesDir + src[|base + TuningDir|..]
  }

  lemma RelativeUnder(src: string, base: string)
    requires |src| >= |base + TuningDir|
    ensures var prod := base + EnsemblesDir;
            Under(src, base + TuningDir) ==> Under(prod + src[|base + TuningDir|..], prod)
  {
    var prod := base + EnsemblesDir;
    var rel := src[|base + TuningDir|..];
    if Under(src, base + TuningDir) && rel != [] {
      assert StartsWith(src, base + TuningDir + "/");
      assert rel[0] == '/';
      assert (prod + rel)[..|prod + "/"|] == prod + "/";
    }
  }

  /** How far the command gets with a resolved ensemble. */
  datatype Step =
    | AlreadyProduction
    | NotUnderTuning
    | TargetExists(dst: string)
    | Cancelled
    | Go(src: string, dst: string)

  /** The checks of `do_promote` before anything is touched: the status,
      the source under `TUNING`, the free target, the prompt. Each stop
      has its reason, and a move goes from the ensemble's directory to a
      free target under `ENSEMBLES`. */
  function Decide(e: Ensemble, base: string, dirs: set<string>, force: bool, answer: string): (r: Step)
    ensures r.AlreadyProduction? <==> e.status == Production
    ensures r.NotUnderTuning? ==> !Under(e.directory, base + TuningDir)
    ensures r.TargetExists? ==> r.dst in dirs
    ensures r.Cancelled? ==> !force && !Confirmed(answer)
    ensures r.Go? ==> r.src == e.directory && r.dst !in dirs && Under(r.dst, base + EnsemblesDir)
  {
    if e.status == Production then AlreadyProduction
    else if !Under(e.directory, base + TuningDir) then NotUnderTuning
    else
      var dst := Target(e.directory, base);
      if dst in dirs then TargetExists(dst)
      else if !force && !Confirmed(answer) then Cancelled
      else Go(e.directory, dst)
  }

  /** The exit status of a stop before the move. */
  function ExitOf(step: Step): int
    requires !step.Go?
  {
    match step
    case AlreadyProduction => 0
    case NotUnderTuning => 1
    case TargetExists(_) => 1
    case Cancelled => 0
  }

  /** The move goes ahead exactly for a TUNING ensemble under `TUNING`,
      whose target is free, with `--force` or a yes; the target is the same
      relative path under `ENSEMBLES`. */
  lemma DecideGo(e: Ensemble, base: string, dirs: set<string>, force: bool, answer: string)
    ensures var r := Decide(e, base, dirs, force, answer);
            r.Go? <==>
              e.status == Tuning && Under(e.directory, base + TuningDir)
              && Target(e.directory, base) !in dirs && (force || Confirmed(answer))
    ensures var r := Decide(e, base, dirs, force, answer);
            r.Go? ==>
              r.src == e.directory && r.dst == Target(e.directory, base)
              && Under(r.dst, base + EnsemblesDir)
              && r.dst[|base + EnsemblesDir|..] == r.src[|base + TuningDir|..]
  {
  }

  /** A source under `TUNING` never lies below its target under
      `ENSEMBLES`: the two differ in the first letter after `<base>/`. */
  lemma SourceNotUnderTarget(src: string, base: string)
    requires Under(src, base + TuningDir)
    ensures !Under(src, Target(src, base))
  {
    var dst := Target(src, base);
    var k := |base| + 1;
    assert src[k] == (base + TuningDir)[k] == 'T';
    assert dst[k] == (base + EnsemblesDir)[k] == 'E';
    if Under(src, dst) {
      assert false;
    }
  }

  /** After the move the source directory is gone and the target exists. */
  lemma PromoteMoves(dirs: set<string>, src: string, base: string, extra: string)
    requires Under(src, base + TuningDir) && src in dirs
    ensures var after := Moved(dirs + {extra}, src, Target(src, base));
            src !in after && Target(src, base) in after
  {
    var dst := Target(src, base);
    SourceNotUnderTarget(src, base);
    MovedSourceGone(dirs + {extra}, src, dst);
    assert Under(src, src) && dst + src[|src|..] == dst;
  }

  /** Promoting the directory `add-ensemble` built under `TUNING` gives the
      directory it builds under `ENSEMBLES` for the same values. */
  lemma TargetOfLayout(base: string, vs: seq<string>)
    requires |vs| == 8
    ensures Under(FullPath(base + TuningDir, vs), base + TuningDir)
    ensures Target(FullPath(base + TuningDir, vs), base) == FullPath(base + EnsemblesDir, vs)
  {
    var tuning := base + TuningDir;
    var src := FullPath(tuning, vs);
    assert src == tuning + ("/" + RelPath(vs));
    assert src[|tuning|..] == "/" + RelPath(vs);
    assert src[..|tuning + "/"|] == tuning + "/";
  }

  /** The move and the row update, once every check has passed. A
      `DuplicateDirectory` error leaves the directory moved and the row as
      it was, with exit status 1; otherwise the status is that of the
      `mdwf_db update` subprocess recording the operation. */
  method Carry(s: Store, fs: Tree, id: int, src: string, dst: string, recordExit: int)
    returns (code: int)
    requires s.Valid() && id in s.ensembles && dst != ""
    modifies s, fs
    ensures s.Valid()
    ensures fs.dirs == Moved(old(fs.dirs) + {Parent(dst)}, src, dst)
    ensures s.ensembleParams == old(s.ensembleParams)
    ensures s.operations == old(s.operations) && s.operationParams == old(s.operationParams)
    ensures var e := old(s.ensembles)[id];
            if exists j :: j in old(s.ensembles) && j != id && old(s.ensembles)[j].directory == dst then
              code == 1 && s.ensembles == old(s.ensembles)
            else
              code == recordExit && s.ensembles == old(s.ensembles)[id := Ensemble(dst, e.description, Production)]
  {
    fs.MakeDir(Parent(dst));
    fs.Move(src, dst);
    PromotionPlan(s.ensembles[id], dst);
    var ok := s.UpdateEnsemble(id, Some(ProductionText), Some(dst));
    if ok.Err? {
      return 1;
    }
    code := recordExit;
  }

  /** `do_promote`. `resolved` is the identifier as `Path.resolve` gives
      it, `answer` the reply to the prompt and `recordExit` the exit status
      of the `mdwf_db update` subprocess. */
  method DoPromote(s: Store, fs: Tree, identifier: Identifier, resolved: Option<string>, base: string,
                   force: bool, answer: string, recordExit: int)
    returns (code: int, id: Option<int>)
    requires s.Valid()
    modifies s, fs
    ensures s.Valid()
    ensures id.Some? ==> id.value in old(s.ensembles)
    ensures identifier.IdNumber? ==> (id.Some? <==> identifier.n in old(s.ensembles))
    ensures id.None? ==> code == 1 && unchanged(s) && unchanged(fs)
    ensures id.Some? ==>
              var e := old(s.ensembles)[id.value];
              var step := Decide(e, base, old(fs.dirs), force, answer);
              (!step.Go? ==> code == ExitOf(step) && unchanged(s) && unchanged(fs))
              && (step.Go? ==>
                    fs.dirs == Moved(old(fs.dirs) + {Parent(step.dst)}, step.src, step.dst)
                    && s.ensembleParams == old(s.ensembleParams)
                    && s.operations == old(s.operations) && s.operationParams == old(s.operationParams)
                    && if exists j :: j in old(s.ensembles) && j != id.value
                                      && old(s.ensembles)[j].directory == step.dst then
                         code == 1 && s.ensembles == old(s.ensembles)
                       else
                         code == recordExit
                         && s.ensembles == old(s.ensembles)[id.value := Ensemble(step.dst, e.description, Production)])
  {
    var details;
    id, details := s.ResolveEnsembleIdentifier(identifier, resolved);
    if id.None? {
      return 1, id;
    }
    var step := Decide(s.ensembles[id.value], base, fs.dirs, force, answer);
    if !step.Go? {
      return ExitOf(step), id;
    }
    code := Carry(s, fs, id.value, step.src, step.dst, recordExit);
  }
}
