/** The exit trap that batch scripts source (`jobs/slurm_update_trap.py`):
    when the script starts it logs a RUNNING update for its operation, and
    when it exits it classifies the job's end from the SLURM state and the
    exit status and logs the final update, once. The shell variables the
    script reads are the fields of `Env`; the answers of `sacct`/`scontrol`,
    the exit status, `$SECONDS` and `hostname` are parameters. */
module SlurmTrap {
  import opened Wrappers
  import opened Text
  import opened Params

  // ---------------------------------------------------------------------------
  // Helpers

  /** `sub` is no part of `s` when `s` lacks its first character. */
  lemma FirstCharAbsent(s: string, sub: string)
    requires sub != [] && sub[0] !in s
    ensures !Contains(s, sub)
  {
    forall i | 0 <= i <= |s| ensures !StartsWith(s[i..], sub) {
      if i < |s| {
        assert s[i..][0] == s[i];
      }
    }
  }

  // ---------------------------------------------------------------------------
  // Classification

  /** The four statuses the trap reports. */
  datatype Status = Timeout | Canceled | Failed | Completed

  function StatusName(st: Status): (r: string)
    ensures r != [] && UpperText(r) == r
  {
    match st
    case Timeout => "TIMEOUT"
    case Canceled => "CANCELED"
    case Failed => "FAILED"
    case Completed => "COMPLETED"
  }

  const TimeoutReason := "job_timeout"
  const CancelledReason := "job_cancelled"
  const FailedReason := "job_failed"
  const KilledReason := "job_killed"
  const CompletedReason := "job_completed"

  /** The SLURM state names a timeout. */
  predicate TimeoutState(u: string) { Contains(u, "TIMEOUT") }

  /** The SLURM state names a cancellation or a preemption. */
  predicate CancelState(u: string) { Contains(u, "CANCEL") || Contains(u, "PREEMPT") }

  /** The SLURM state names a failure. */
  predicate FailState(u: string) {
    Contains(u, "FAILED") || Contains(u, "NODE_FAIL") || Contains(u, "OUT_OF_MEMORY")
  }

  /** The exit statuses of SIGTERM, SIGINT and SIGHUP. */
  predicate KilledExit(exitCode: int) { exitCode == 143 || exitCode == 130 || exitCode == 129 }

  /** The status and reason of a job from its SLURM state, compared without
      case, and its exit status. The reason follows the status, and
      `job_killed` means a signal's exit status. */
  function Classify(slurmStatus: string, exitCode: int): (r: (Status, string))
    ensures r.0 == Timeout <==> r.1 == TimeoutReason
    ensures r.0 == Completed <==> r.1 == CompletedReason
    ensures r.0 == Failed <==> r.1 == FailedReason
    ensures r.0 == Canceled <==> r.1 == CancelledReason || r.1 == KilledReason
    ensures r.1 == KilledReason ==> KilledExit(exitCode)
  {
    var u := UpperText(slurmStatus);
    if TimeoutState(u) then (Timeout, TimeoutReason)
    else if CancelState(u) then (Canceled, CancelledReason)
    else if FailState(u) then (Failed, FailedReason)
    else if KilledExit(exitCode) then (Canceled, KilledReason)
    else if exitCode != 0 then (Failed, FailedReason)
    else (Completed, CompletedReason)
  }

  /** A SLURM state that names a timeout, cancellation or failure decides
      the status whatever the exit status: the state checks come first. */
  lemma StateDecides(slurmStatus: string, e1: int, e2: int)
    requires var u := UpperText(slurmStatus); TimeoutState(u) || CancelState(u) || FailState(u)
    ensures Classify(slurmStatus, e1) == Classify(slurmStatus, e2)
    ensures Classify(slurmStatus, e1).0 != Completed
  {
  }

  /** Each status in terms of the state and the exit status. */
  lemma ClassifyMeaning(slurmStatus: string, exitCode: int)
    ensures var u := UpperText(slurmStatus);
            var st := Classify(slurmStatus, exitCode).0;
            (st == Timeout <==> TimeoutState(u))
            && (st == Canceled <==> !TimeoutState(u) && (CancelState(u) || (!FailState(u) && KilledExit(exitCode))))
            && (st == Failed <==>
                  !TimeoutState(u) && !CancelState(u) && (FailState(u) || (!KilledExit(exitCode) && exitCode != 0)))
            && (st == Completed <==>
                  !TimeoutState(u) && !CancelState(u) && !FailState(u) && exitCode == 0)
  {
  }

  /** The state is compared without case. */
  lemma ClassifyIgnoresCase(slurmStatus: string, exitCode: int)
    ensures Classify(UpperText(slurmStatus), exitCode) == Classify(slurmStatus, exitCode)
  {
    UpperTextTwice(slurmStatus);
  }

  // ---------------------------------------------------------------------------
  // The SLURM state at exit

  /** `mdwf_get_final_state`'s test: the state is a terminal one. */
  predicate Terminal(s: string) {
    var u := UpperText(s);
    Contains(u, "COMPLETED") || Contains(u, "FAILED") || Contains(u, "TIMEOUT") || Contains(u, "CANCEL")
    || Contains(u, "PREEMPT") || Contains(u, "NODE_FAIL") || Contains(u, "OUT_OF_MEMORY")
  }

  /** `${MDWF_DB_SLURM_POLL_TRIES:-20}`: 20 when unset or empty; a text that
      is no number reads as an unset shell variable, 0. */
  function PollTries(setting: string): (r: int)
    ensures setting == "" ==> r == 20
  {
    if setting == "" then 20
    else match ParseInt(setting)
      case Some(n) => n
      case None => 0
  }

  /** The poll's answer when query `i` answers `answers[i]`: the first
      terminal answer of the first `n`, else the last answer, else "". */
  function Poll(answers: seq<string>, n: int): (r: string)
    requires n <= |answers|
    decreases n
  {
    if n <= 0 then ""
    else if Terminal(answers[0]) || n == 1 then answers[0]
    else Poll(answers[1..], n - 1)
  }

  /** The poll stops at the first terminal answer. */
  lemma {:induction false} PollFirstTerminal(answers: seq<string>, n: int, i: nat)
    requires n <= |answers| && i < n && Terminal(answers[i])
    requires forall j :: 0 <= j < i ==> !Terminal(answers[j])
    ensures Poll(answers, n) == answers[i]
    decreases i
  {
    if i > 0 {
      assert !Terminal(answers[0]);
      PollFirstTerminal(answers[1..], n - 1, i - 1);
    }
  }

  /** Without a terminal answer the poll gives the last query's answer. */
  lemma {:induction false} PollNoTerminal(answers: seq<string>, n: int)
    requires 0 < n <= |answers|
    requires forall j :: 0 <= j < n ==> !Terminal(answers[j])
    ensures Poll(answers, n) == answers[n - 1]
    decreases n
  {
    if n > 1 {
      PollNoTerminal(answers[1..], n - 1);
    }
  }

  /** The polling loop, proved against `Poll`. */
  method FinalState(answers: seq<string>, maxTries: int) returns (s: string)
    requires maxTries <= |answers|
    ensures s == Poll(answers, maxTries)
  {
    s := "";
    var tries := if maxTries > 0 then maxTries else 0;
    var i := 0;
    while i < tries
      invariant 0 <= i <= tries
      invariant forall j :: 0 <= j < i ==> !Terminal(answers[j])
      invariant s == if i > 0 then answers[i - 1] else ""
    {
      s := answers[i];
      if Terminal(s) {
        PollFirstTerminal(answers, maxTries, i);
        return;
      }
      i := i + 1;
    }
    if maxTries > 0 {
      PollNoTerminal(answers, maxTries);
    }
  }

  /** `SLURM_STATUS`: `NO_JOBID` without a job id, else the polled state or
      `UNKNOWN` when it is empty. */
  function SlurmStatus(jobId: string, polled: string): (r: string)
    ensures r != []
    ensures jobId == "" ==> r == "NO_JOBID"
    ensures jobId != "" && polled != "" ==> r == polled
    ensures r == "UNKNOWN" <==> jobId != "" && (polled == "" || polled == "UNKNOWN")
  {
    if jobId != "" then (if polled == "" then "UNKNOWN" else polled) else "NO_JOBID"
  }

  /** `LOG_SLURM_STATUS`: the normalized status replaces an empty or
      non-terminal SLURM state. */
  function LoggedStatus(slurmStatus: string, st: Status): (r: string)
  {
    var u := UpperText(slurmStatus);
    if slurmStatus == "" || u == "RUNNING" || u == "PENDING" || u == "UNKNOWN" then StatusName(st)
    else slurmStatus
  }

  /** The logged SLURM state is never empty, running, pending or unknown,
      in any case, and it is the SLURM state whenever that is none of
      those. */
  lemma LoggedStatusMeaning(slurmStatus: string, st: Status)
    ensures var r := LoggedStatus(slurmStatus, st);
            r != "" && UpperText(r) != "RUNNING" && UpperText(r) != "PENDING" && UpperText(r) != "UNKNOWN"
    ensures var u := UpperText(slurmStatus);
            slurmStatus != "" && u != "RUNNING" && u != "PENDING" && u != "UNKNOWN"
            ==> LoggedStatus(slurmStatus, st) == slurmStatus
  {
  }

  // ---------------------------------------------------------------------------
  // The params string

  /** The shell variables the trap reads. */
  datatype Env = Env(db: string, eid: string, op: string, sc: string, ec: string, ic: string,
                     params: string, runDir: string, user: string, jobId: string, logFile: string,
                     pollSetting: string)

  /** The first part of `PARAMS_STR`: the config range when `SC` and `EC`
      are both set (with the increment when `IC` is), else `PARAMS`. */
  function BaseParams(env: Env): string {
    var range := Word(StartKey, env.sc) + " " + Word(EndKey, env.ec);
    var range := if env.ic != "" then range + " " + Word(IncrementKey, env.ic) else range;
    if env.sc != "" && env.ec != "" then range else env.params
  }

  /** `PARAMS_STR` of the RUNNING update: the first part, then `run_dir`
      when `RUN_DIR` is set. */
  function ParamsStr(env: Env): string {
    if env.runDir != "" then BaseParams(env) + " " + Word(RunDirKey, env.runDir) else BaseParams(env)
  }

  /** Which text of the exit handler: `AsWritten`, or `Repaired` with the
      two slips in it undone (see `HandlerExitCode` and `FinalParams`). */
  datatype Handler = AsWritten | Repaired

  /** `PARAMS_STR` of the final update. The handler builds it like the
      RUNNING update, but as written the line that appends `run_dir` has
      prose pasted after its closing quote, which turns the assignment into
      a prefix of the command `now`; that command is not found and the
      assignment does not persist. */
  function FinalParams(env: Env, h: Handler): string {
    match h
    case AsWritten => BaseParams(env)
    case Repaired => ParamsStr(env)
  }

  /** One `key=value` word. */
  function Word(k: string, v: string): string {
    k + "=" + v
  }

  const StartKey := "config_start"
  const EndKey := "config_end"
  const IncrementKey := "config_increment"
  const RunDirKey := "run_dir"

  lemma {:induction false} JoinSnoc(ws: seq<string>, x: string)
    requires ws != []
    ensures Join(ws + [x], ' ') == Join(ws, ' ') + " " + x
    decreases |ws|
  {
    if |ws| == 1 {
      assert ws + [x] == [ws[0], x];
    } else {
      assert (ws + [x])[1..] == ws[1..] + [x];
      JoinSnoc(ws[1..], x);
    }
  }

  /** The words of the range branch, without `run_dir`. */
  function BaseWords(env: Env): (r: seq<string>)
    ensures 2 <= |r| <= 3
  {
    var w := [Word(StartKey, env.sc), Word(EndKey, env.ec)];
    if env.ic != "" then w + [Word(IncrementKey, env.ic)] else w
  }

  /** The words of the range branch, with `run_dir` when it is set. */
  function RangeWords(env: Env): (r: seq<string>)
    ensures r != []
  {
    if env.runDir != "" then BaseWords(env) + [Word(RunDirKey, env.runDir)] else BaseWords(env)
  }

  lemma BaseJoin(env: Env)
    requires env.sc != "" && env.ec != ""
    ensures BaseParams(env) == Join(BaseWords(env), ' ')
  {
    var w0 := [Word(StartKey, env.sc), Word(EndKey, env.ec)];
    assert w0 == [w0[0]] + [w0[1]];
    assert Join(w0, ' ') == w0[0] + " " + w0[1];
    if env.ic != "" {
      JoinSnoc(w0, Word(IncrementKey, env.ic));
    }
  }

  lemma RangeJoin(env: Env)
    requires env.sc != "" && env.ec != ""
    ensures ParamsStr(env) == Join(RangeWords(env), ' ')
  {
    BaseJoin(env);
    if env.runDir != "" {
      JoinSnoc(BaseWords(env), Word(RunDirKey, env.runDir));
    }
  }

  lemma RangeKeysClean()
    ensures NoSpace(StartKey) && '=' !in StartKey && NoSpace(EndKey) && '=' !in EndKey
    ensures NoSpace(IncrementKey) && '=' !in IncrementKey && NoSpace(RunDirKey) && '=' !in RunDirKey
  {
  }

  lemma WordClean(k: string, v: string)
    requires NoSpace(k) && NoSpace(v)
    ensures Word(k, v) != [] && NoSpace(Word(k, v))
  {
    var w := Word(k, v);
    assert w[|k|] == '=';
    forall i | 0 <= i < |w| ensures !IsSpace(w[i]) {
      if i < |k| {
        assert w[i] == k[i];
      } else if i > |k| {
        assert w[i] == v[i - |k| - 1];
      }
    }
  }

  /** With `SC` and `EC` set and no whitespace in the values, the updater
      splits the string into exactly the range words. */
  lemma RangeRoundTrip(env: Env)
    requires env.sc != "" && env.ec != ""
    requires NoSpace(env.sc) && NoSpace(env.ec) && NoSpace(env.ic) && NoSpace(env.runDir)
    ensures SplitWs(ParamsStr(env)) == RangeWords(env)
  {
    RangeJoin(env);
    RangeKeysClean();
    var w := RangeWords(env);
    WordClean(StartKey, env.sc);
    WordClean(EndKey, env.ec);
    WordClean(IncrementKey, env.ic);
    WordClean(RunDirKey, env.runDir);
    assert forall i :: 0 <= i < |w| ==> w[i] != [] && NoSpace(w[i]);
    SplitWsJoin(w);
  }

  /** Each range word reads back as its key and its value. */
  lemma RangeWordsRead(env: Env)
    ensures Kv(RangeWords(env)[0]) == Some((StartKey, env.sc))
    ensures Kv(RangeWords(env)[1]) == Some((EndKey, env.ec))
    ensures env.ic != "" ==> Kv(RangeWords(env)[2]) == Some((IncrementKey, env.ic))
    ensures env.runDir != "" ==> Kv(RangeWords(env)[|RangeWords(env)| - 1]) == Some((RunDirKey, env.runDir))
  {
    RangeKeysClean();
    KvToken(StartKey, env.sc);
    KvToken(EndKey, env.ec);
    KvToken(IncrementKey, env.ic);
    KvToken(RunDirKey, env.runDir);
  }

  /** Without the range the string is `PARAMS`, followed by the run
      directory when there is one. */
  lemma ParamsFallback(env: Env)
    requires env.sc == "" || env.ec == ""
    ensures ParamsStr(env) == env.params + (if env.runDir != "" then " " + Word(RunDirKey, env.runDir) else "")
  {
  }

  // ---------------------------------------------------------------------------
  // The log and the run-once guard

  /** One `mdwf_db update` line of the updater log. */
  datatype LogLine = LogLine(db: string, eid: string, op: string, status: string, user: string, params: string)

  /** The sourced script arms itself when the database, ensemble and
      operation are set and either the range or `PARAMS` is. */
  predicate AutoRun(env: Env) {
    env.db != "" && env.eid != "" && env.op != "" && ((env.sc != "" && env.ec != "") || env.params != "")
  }

  function RunningLine(env: Env): LogLine {
    LogLine(env.db, env.eid, env.op, "RUNNING", env.user, ParamsStr(env) + " slurm_job=" + env.jobId)
  }

  /** The final update written by handler `h` for a job whose script
      exited with `exitStatus` after `runtime` seconds on `host`, its SLURM
      state being `slurmStatus`. */
  function FinalLine(env: Env, exitStatus: int, slurmStatus: string, runtime: int, host: string, h: Handler)
    : (l: LogLine)
    ensures l.status == StatusName(Classify(slurmStatus, HandlerExitCode(exitStatus, h)).0)
  {
    var exitCode := HandlerExitCode(exitStatus, h);
    var (st, reason) := Classify(slurmStatus, exitCode);
    LogLine(env.db, env.eid, env.op, StatusName(st), env.user,
            FinalPrefix(exitCode, runtime, env.jobId, host, reason, LoggedStatus(slurmStatus, st))
            + " " + FinalParams(env, h))
  }

  /** The words of the final update before `PARAMS_STR`. */
  function FinalPrefix(exitCode: int, runtime: int, jobId: string, host: string, reason: string, logged: string)
    : string
  {
    "exit_code=" + IntToString(exitCode) + " runtime=" + IntToString(runtime) + " slurm_job=" + jobId
    + " host=" + host + " reason=" + reason + " slurm_status=" + logged
  }

  /** `>> "$LOGFILE"`: the line is lost when no log file is set. */
  function Logged(log: seq<LogLine>, logFile: string, line: LogLine): (r: seq<LogLine>)
    ensures logFile != "" ==> r == log + [line]
    ensures logFile == "" ==> r == log
  {
    if logFile != "" then log + [line] else log
  }

  const IngestOp := "FILE_INGEST"

  /** The shell that sourced the trap: the `__MDWF_UPDATE_RAN` guard,
      whether the EXIT trap is armed, and the lines written to the log. */
  class Shell {
    var ran: bool
    var armed: bool
    var log: seq<LogLine>

    /** Sourcing the script: with the variables set it logs the RUNNING
        update and arms the EXIT trap. */
    constructor Source(env: Env)
      ensures !ran && armed == AutoRun(env)
      ensures log == if AutoRun(env) then Logged([], env.logFile, RunningLine(env)) else []
    {
      ran := false;
      if AutoRun(env) {
        log := Logged([], env.logFile, RunningLine(env));
        armed := true;
      } else {
        log := [];
        armed := false;
      }
    }

    /** `update_status`: the first call disarms the trap and logs the final
        update; every later call returns at once. `answers` are what the
        state queries return. */
    method UpdateStatus(env: Env, exitCode: int, answers: seq<string>, runtime: int, host: string)
      requires PollTries(env.pollSetting) <= |answers|
      modifies this
      ensures old(ran) ==> ran && armed == old(armed) && log == old(log)
      ensures !old(ran) ==> ran && !armed
      ensures !old(ran) ==>
                var status := SlurmStatus(env.jobId, if env.jobId != "" then Poll(answers, PollTries(env.pollSetting)) else "");
                log == Logged(old(log), env.logFile, FinalLine(env, exitCode, status, runtime, host, AsWritten))
    {
      if ran {
        return;
      }
      ran := true;
      armed := false;
      var polled := "";
      if env.jobId != "" {
        polled := FinalState(answers, PollTries(env.pollSetting));
      }
      var status := SlurmStatus(env.jobId, polled);
      log := Logged(log, env.logFile, FinalLine(env, exitCode, status, runtime, host, AsWritten));
    }

    /** The shell exits: the EXIT trap runs the handler when it is armed,
        and the handler logs the final update unless it has already run. */
    method Exit(env: Env, exitCode: int, answers: seq<string>, runtime: int, host: string)
      requires PollTries(env.pollSetting) <= |answers|
      modifies this
      ensures !old(armed) ==> ran == old(ran) && armed == old(armed) && log == old(log)
      ensures old(armed) && old(ran) ==> ran && armed && log == old(log)
      ensures old(armed) && !old(ran) ==> ran && !armed
      ensures old(armed) && !old(ran) ==>
                var status := SlurmStatus(env.jobId, if env.jobId != "" then Poll(answers, PollTries(env.pollSetting)) else "");
                log == Logged(old(log), env.logFile, FinalLine(env, exitCode, status, runtime, host, AsWritten))
      ensures |log| <= |old(log)| + 1
    {
      if armed {
        UpdateStatus(env, exitCode, answers, runtime, host);
      }
    }

    /** `mdwf_log_ingest SRC DEST [OP_TYPE]`: a COMPLETED line for the
        ingest, `FILE_INGEST` when no operation type is given. */
    method LogIngest(env: Env, src: string, dest: string, opType: string, files: int, bytes: int)
      modifies this
      ensures ran == old(ran) && armed == old(armed)
      ensures log == Logged(old(log), env.logFile,
                            LogLine(env.db, env.eid, if opType == "" then IngestOp else opType, "COMPLETED", env.user,
                                    "action=ingest source=" + src + " dest=" + dest + " file_count="
                                    + IntToString(files) + " bytes=" + IntToString(bytes)))
    {
      var op := if opType == "" then IngestOp else opType;
      log := Logged(log, env.logFile,
                    LogLine(env.db, env.eid, op, "COMPLETED", env.user,
                            "action=ingest source=" + src + " dest=" + dest + " file_count=" + IntToString(files)
                            + " bytes=" + IntToString(bytes)));
    }
  }

  // ---------------------------------------------------------------------------
  // The exit status the handler sees

  /** The `EXIT_CODE` the handler classifies. As written, `local
      EXIT_CODE=$?` runs after the guard, the assignment
      `__MDWF_UPDATE_RAN=1` and `trap - EXIT`, so `$?` is the status of
      `trap - EXIT`, which succeeds, not the script's exit status. */
  function HandlerExitCode(exitStatus: int, h: Handler): int {
    match h
    case AsWritten => 0
    case Repaired => exitStatus
  }

  /** A job still RUNNING in accounting when its script fails with status
      1 is logged COMPLETED as written, where the status the script exited
      with gives FAILED. */
  lemma AsWrittenFailureLogged(env: Env, runtime: int, host: string)
    ensures FinalLine(env, 1, "RUNNING", runtime, host, AsWritten).status == "COMPLETED"
    ensures FinalLine(env, 1, "RUNNING", runtime, host, Repaired).status == "FAILED"
  {
    var u := "RUNNING";
    UpperTextOfCapitals(u);
    FirstCharAbsent(u, "TIMEOUT");
    FirstCharAbsent(u, "CANCEL");
    FirstCharAbsent(u, "PREEMPT");
    FirstCharAbsent(u, "FAILED");
    FirstCharAbsent(u, "OUT_OF_MEMORY");
    assert !Contains(u, "NODE_FAIL");
  }

  /** As written, the exit status never takes part: the status follows
      from the SLURM state alone, and a state that names none of the
      outcomes gives COMPLETED. */
  lemma AsWrittenIgnoresExit(env: Env, slurmStatus: string, e1: int, e2: int, runtime: int, host: string)
    ensures FinalLine(env, e1, slurmStatus, runtime, host, AsWritten)
            == FinalLine(env, e2, slurmStatus, runtime, host, AsWritten)
    ensures var u := UpperText(slurmStatus);
            !TimeoutState(u) && !CancelState(u) && !FailState(u)
            ==> FinalLine(env, e1, slurmStatus, runtime, host, AsWritten).status == "COMPLETED"
  {
  }

  /** Repaired, the final status is the classification of the SLURM state
      and the script's own exit status. */
  lemma RepairedStatus(env: Env, exitStatus: int, slurmStatus: string, runtime: int, host: string)
    ensures FinalLine(env, exitStatus, slurmStatus, runtime, host, Repaired).status
            == StatusName(Classify(slurmStatus, exitStatus).0)
  {
  }

  // ---------------------------------------------------------------------------
  // The run directory in the final update

  /** With the range set and no whitespace in the values, the final
      `PARAMS_STR` splits into the range words: as written without
      `run_dir`, repaired with it, like the RUNNING update. */
  lemma FinalParamsWords(env: Env, h: Handler)
    requires env.sc != "" && env.ec != ""
    requires NoSpace(env.sc) && NoSpace(env.ec) && NoSpace(env.ic) && NoSpace(env.runDir)
    ensures SplitWs(FinalParams(env, h)) == if h == AsWritten then BaseWords(env) else RangeWords(env)
  {
    if h == AsWritten {
      BaseJoin(env);
      RangeKeysClean();
      WordClean(StartKey, env.sc);
      WordClean(EndKey, env.ec);
      WordClean(IncrementKey, env.ic);
      var w := BaseWords(env);
      assert forall i :: 0 <= i < |w| ==> w[i] != [] && NoSpace(w[i]);
      SplitWsJoin(w);
    } else {
      RangeRoundTrip(env);
    }
  }

  /** As written, a set `RUN_DIR` reaches the RUNNING update but not the
      final one: no word of the final `PARAMS_STR` has the key `run_dir`. */
  lemma AsWrittenDropsRunDir(env: Env)
    requires env.sc != "" && env.ec != "" && env.runDir != ""
    requires NoSpace(env.sc) && NoSpace(env.ec) && NoSpace(env.ic) && NoSpace(env.runDir)
    ensures var ws := SplitWs(FinalParams(env, AsWritten));
            forall i :: 0 <= i < |ws| ==> Kv(ws[i]).Some? && Kv(ws[i]).value.0 != RunDirKey
    ensures var ws := SplitWs(ParamsStr(env));
            Kv(ws[|ws| - 1]) == Some((RunDirKey, env.runDir))
  {
    FinalParamsWords(env, AsWritten);
    BaseWordsKeys(env);
    RangeRoundTrip(env);
    RangeWordsRead(env);
  }

  /** The range words carry the `config_*` keys only. */
  lemma BaseWordsKeys(env: Env)
    ensures var ws := BaseWords(env);
            forall i :: 0 <= i < |ws| ==> Kv(ws[i]).Some? && Kv(ws[i]).value.0 != RunDirKey
  {
    RangeKeysClean();
    KvToken(StartKey, env.sc);
    KvToken(EndKey, env.ec);
    KvToken(IncrementKey, env.ic);
    assert StartKey[0] != RunDirKey[0] && EndKey[0] != RunDirKey[0] && IncrementKey[0] != RunDirKey[0];
  }
}
