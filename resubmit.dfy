/** Self-resubmission of an HMC batch job (`jobs/hmc_resubmit.py`): before
    the run the job queues its own batch script again, dependent on itself,
    while the start the next run will have is below `cfg_max`. The shell
    variables are parameters; `sbatch` and the echoed lines are left out. */
module HmcResubmit {
  import opened Wrappers
  import opened Text

  /** The value of a shell variable in `$(( ))` and `-lt`: an empty or unset
      variable is 0, a decimal number its value. */
  function ShellInt(s: string): int {
    match ParseInt(s)
    case Some(n) => n
    case None => 0
  }

  /** What `hmc_auto_resubmit` does. */
  datatype Decision =
    | NotSet            // cfg_max is empty: no resubmission
    | Submit(next: int) // queue the batch script again
    | Finish(next: int) // the next start reaches cfg_max

  /** The decision for a run starting at `start` of `n` trajectories. */
  function Decide(start: int, n: int, cfgMax: int): Decision {
    var next := start + n;
    if next < cfgMax then Submit(next) else Finish(next)
  }

  /** `hmc_auto_resubmit` with the values of `cfg_max`, `n_trajec` and `start`. */
  function AutoResubmit(cfgMax: string, nTrajec: string, start: string): (d: Decision)
    ensures cfgMax == "" <==> d == NotSet
  {
    if cfgMax == "" then NotSet else Decide(ShellInt(start), ShellInt(nTrajec), ShellInt(cfgMax))
  }

  /** The next start is the start plus the trajectories, and the job is
      queued again exactly when that is below `cfg_max`. */
  lemma AutoResubmitMeaning(cfgMax: string, nTrajec: string, start: string)
    requires cfgMax != ""
    ensures var d := AutoResubmit(cfgMax, nTrajec, start);
            d.next == ShellInt(start) + ShellInt(nTrajec)
            && (d.Submit? <==> d.next < ShellInt(cfgMax))
  {
  }

  /** The starts of the jobs of a chain begun at `start`, each job running
      `n` trajectories and queuing the next while `Decide` says so. */
  function Chain(start: int, n: int, cfgMax: int): (r: seq<int>)
    requires n > 0
    ensures r != [] && r[0] == start
    decreases cfgMax - start
  {
    if Decide(start, n, cfgMax).Submit? then [start] + Chain(start + n, n, cfgMax) else [start]
  }

  /** In a chain every job but the last queues the next one, which starts
      `n` later; the last one's next start reaches `cfg_max`. */
  lemma {:induction false} ChainSteps(start: int, n: int, cfgMax: int)
    requires n > 0
    ensures var c := Chain(start, n, cfgMax);
            (forall i :: 0 <= i < |c| - 1 ==> Decide(c[i], n, cfgMax) == Submit(c[i + 1]) && c[i + 1] == c[i] + n)
            && Decide(c[|c| - 1], n, cfgMax).Finish?
            && c[|c| - 1] + n >= cfgMax
    decreases cfgMax - start
  {
    if Decide(start, n, cfgMax).Submit? {
      ChainSteps(start + n, n, cfgMax);
      var c := Chain(start, n, cfgMax);
      var rest := Chain(start + n, n, cfgMax);
      assert c == [start] + rest;
      forall i | 0 <= i < |c| - 1 ensures Decide(c[i], n, cfgMax) == Submit(c[i + 1]) && c[i + 1] == c[i] + n {
        if i > 0 {
          assert c[i] == rest[i - 1] && c[i + 1] == rest[i];
        }
      }
    }
  }

  /** A chain has as many jobs as it takes `n`-trajectory steps from
      `start` to reach `cfg_max`, and at least one: the last job is the
      first whose run reaches it. */
  lemma {:induction false} ChainLength(start: int, n: int, cfgMax: int)
    requires n > 0
    ensures var k := |Chain(start, n, cfgMax)|;
            start + k * n >= cfgMax && (k == 1 || start + (k - 1) * n < cfgMax)
    decreases cfgMax - start
  {
    if Decide(start, n, cfgMax).Submit? {
      ChainLength(start + n, n, cfgMax);
      var k := |Chain(start + n, n, cfgMax)|;
      assert (k + 1) * n == k * n + n;
      assert k * n == (k - 1) * n + n;
    }
  }

  /** With no trajectories per run (`n_trajec` empty) a job below
      `cfg_max` queues a job with its own start. */
  lemma NoTrajectoriesResubmitSame(cfgMax: string, start: string)
    requires cfgMax != "" && ShellInt(start) < ShellInt(cfgMax)
    ensures AutoResubmit(cfgMax, "", start) == Submit(ShellInt(start))
  {
  }

  // ---------------------------------------------------------------------------
  // hmc_validate_resubmit_env

  const RequiredVars := ["cfg_max", "n_trajec", "batch", "SLURM_JOBID"]

  /** The names whose value is empty, in order. */
  function MissingVars(names: seq<string>, values: seq<string>): (r: seq<string>)
    requires |names| == |values|
    ensures |r| <= |names|
    ensures r == [] <==> forall i :: 0 <= i < |values| ==> values[i] != ""
    ensures forall i :: 0 <= i < |names| && values[i] == "" ==> names[i] in r
    ensures forall x :: x in r ==> x in names
    decreases |names|
  {
    if names == [] then []
    else
      var last := |names| - 1;
      var rest := MissingVars(names[..last], values[..last]);
      assert forall i :: 0 <= i < last ==> values[i] == values[..last][i] && names[i] == names[..last][i];
      if values[last] == "" then rest + [names[last]] else rest
  }

  /** With distinct names, a name is listed exactly when its value is
      empty. */
  lemma {:induction false} MissingVarsExact(names: seq<string>, values: seq<string>, i: nat)
    requires |names| == |values| && i < |names|
    requires forall a, b :: 0 <= a < b < |names| ==> names[a] != names[b]
    ensures names[i] in MissingVars(names, values) <==> values[i] == ""
    decreases |names|
  {
    var last := |names| - 1;
    var init := names[..last];
    var rest := MissingVars(init, values[..last]);
    assert MissingVars(names, values) == if values[last] == "" then rest + [names[last]] else rest;
    if i < last {
      assert names[i] != names[last];
      assert init[i] == names[i] && values[..last][i] == values[i];
      forall a, b | 0 <= a < b < |init| ensures init[a] != init[b] {
        assert init[a] == names[a] && init[b] == names[b];
      }
      MissingVarsExact(init, values[..last], i);
    } else if values[last] != "" {
      assert names[last] !in init by {
        forall j | 0 <= j < |init| ensures init[j] != names[last] {
          assert init[j] == names[j];
        }
      }
    }
  }

  /** Each required variable is reported exactly when it is empty. */
  lemma RequiredVarsListed(values: seq<string>, i: nat)
    requires |values| == |RequiredVars| && i < |RequiredVars|
    ensures RequiredVars[i] in MissingVars(RequiredVars, values) <==> values[i] == ""
  {
    MissingVarsExact(RequiredVars, values, i);
  }

  /** `hmc_validate_resubmit_env`: lists each of `cfg_max`, `n_trajec`,
      `batch` and `SLURM_JOBID` that is empty, and returns 1 when any is. */
  method ValidateResubmitEnv(cfgMax: string, nTrajec: string, batch: string, jobId: string)
    returns (missing: seq<string>, code: int)
    ensures missing == MissingVars(RequiredVars, [cfgMax, nTrajec, batch, jobId])
    ensures code == (if missing == [] then 0 else 1)
  {
    ghost var values := [cfgMax, nTrajec, batch, jobId];
    missing := [];
    assert RequiredVars[..0] == [] && values[..0] == [];
    if cfgMax == "" {
      missing := missing + ["cfg_max"];
    }
    assert missing == MissingVars(RequiredVars[..1], values[..1]);
    if nTrajec == "" {
      missing := missing + ["n_trajec"];
    }
    assert RequiredVars[..2][..1] == RequiredVars[..1] && values[..2][..1] == values[..1];
    assert missing == MissingVars(RequiredVars[..2], values[..2]);
    if batch == "" {
      missing := missing + ["batch"];
    }
    assert RequiredVars[..3][..2] == RequiredVars[..2] && values[..3][..2] == values[..2];
    assert missing == MissingVars(RequiredVars[..3], values[..3]);
    if jobId == "" {
      missing := missing + ["SLURM_JOBID"];
    }
    assert RequiredVars[..3] == RequiredVars[..|RequiredVars| - 1] && values[..3] == values[..|values| - 1];
    code := if |missing| > 0 then 1 else 0;
  }
}
