/** The gate in front of every local command: what may run, and how its outcome is classified. */
module CommandRunner {
  import opened Wrappers
  import opened Texts
  import opened OutputCapture

  const ALLOWED_COMMANDS: seq<Text> := [Ascii("codex"), Ascii("claude")]

  const FORBIDDEN_ARG_PATTERNS: seq<Text> := [
    Ascii("dangerously-bypass-approvals-and-sandbox"),
    Ascii("dangerously-bypass-hook-trust"),
    Ascii("dangerously-skip-permissions"),
    Ascii("danger-full-access"),
    Ascii("bypasspermissions")]

  const DEFAULT_MAX_OUTPUT_BYTES := 1_000_000

  datatype Execution = Execution(command: Text, args: seq<Text>, stdin: Text)

  ghost predicate OccursAt(t: Text, part: Text, i: nat) {
    i + |part| <= |t| && t[i..i + |part|] == part
  }

  /** `t.includes(part)` */
  ghost predicate Includes(t: Text, part: Text) {
    exists i: nat :: OccursAt(t, part, i)
  }

  method IncludesText(t: Text, part: Text) returns (found: bool)
    ensures found <==> Includes(t, part)
  {
    if |part| > |t| {
      return false;
    }
    for i := 0 to |t| - |part| + 1
      invariant forall j: nat :: j < i ==> !OccursAt(t, part, j)
    {
      if t[i..i + |part|] == part {
        assert OccursAt(t, part, i);
        return true;
      }
    }
    return false;
  }

  datatype CommandFailure = NotAllowlisted | ForbiddenArg(pattern: Text)

  ghost predicate Forbidden(lower: Text -> Text, arg: Text, k: nat) {
    k < |FORBIDDEN_ARG_PATTERNS| && Includes(lower(arg), FORBIDDEN_ARG_PATTERNS[k])
  }

  /** The execution may run: its command is on the list and no argument, in lower case, contains a pattern. */
  ghost predicate Permitted(lower: Text -> Text, e: Execution) {
    e.command in ALLOWED_COMMANDS && forall i, k: nat :: 0 <= i < |e.args| ==> !Forbidden(lower, e.args[i], k)
  }

  /** `validateCommandExecution`; a failure names the first pattern found in the first offending argument. */
  method ValidateCommandExecution(lower: Text -> Text, e: Execution) returns (failure: Option<CommandFailure>)
    ensures failure.None? <==> Permitted(lower, e)
    ensures failure == Some(NotAllowlisted) <==> e.command !in ALLOWED_COMMANDS
    ensures failure.Some? && failure.value.ForbiddenArg? ==>
              exists i, k: nat ::
                && 0 <= i < |e.args| && Forbidden(lower, e.args[i], k) && failure.value.pattern == FORBIDDEN_ARG_PATTERNS[k]
                && (forall j, m: nat :: 0 <= j < i ==> !Forbidden(lower, e.args[j], m))
                && (forall m: nat :: m < k ==> !Forbidden(lower, e.args[i], m))
  {
    if e.command !in ALLOWED_COMMANDS {
      return Some(NotAllowlisted);
    }
    for i := 0 to |e.args|
      invariant forall j, k: nat :: 0 <= j < i ==> !Forbidden(lower, e.args[j], k)
    {
      var lowered := lower(e.args[i]);
      for k := 0 to |FORBIDDEN_ARG_PATTERNS|
        invariant forall m: nat :: m < k ==> !Forbidden(lower, e.args[i], m)
      {
        var found := IncludesText(lowered, FORBIDDEN_ARG_PATTERNS[k]);
        if found {
          assert Forbidden(lower, e.args[i], k);
          return Some(ForbiddenArg(FORBIDDEN_ARG_PATTERNS[k]));
        }
      }
    }
    return None;
  }

  // ---- Outcomes ----

  /** What a process runner reports; `truncated` may be left out. */
  datatype RawResult = RawResult(exitCode: Option<int>, stdout: Text, stderr: Text, timedOut: bool, truncated: Option<bool>)

  datatype RunFailure =
    | Refused(why: CommandFailure)
    | LauncherNotResolved
    | RunnerThrew
    | TimedOut
    | OutputTooLarge
    | NonzeroExit

  datatype RunResult = RunResult(
    ok: bool,
    exitCode: Option<int>,
    stdout: Text,
    stderr: Text,
    timedOut: bool,
    truncated: bool,
    failure: Option<RunFailure>)

  function NotRun(failure: RunFailure): RunResult {
    RunResult(false, None, [], [], false, false, Some(failure))
  }

  /** Classification of a finished process: a timeout outranks an overflow, which outranks the exit code. */
  function Classified(byteLength: Text -> nat, raw: RawResult, maxOutputBytes: int): RunResult {
    var truncated := raw.truncated == Some(true) || byteLength(raw.stdout) + byteLength(raw.stderr) > maxOutputBytes;
    var result := RunResult(false, raw.exitCode, raw.stdout, raw.stderr, raw.timedOut, truncated, None);
    if raw.timedOut then result.(failure := Some(TimedOut))
    else if truncated then result.(failure := Some(OutputTooLarge))
    else if raw.exitCode != Some(0) then result.(failure := Some(NonzeroExit))
    else result.(ok := true)
  }

  /** `runAllowlistedCommand`, given whether a launcher resolves and what the runner reports (`None` when it
      throws). A command that is not permitted never reaches the runner. */
  method RunAllowlistedCommand(lower: Text -> Text, byteLength: Text -> nat, e: Execution, launcherResolves: bool,
                               report: Option<RawResult>, maxOutputBytes: Option<int>)
    returns (r: RunResult, started: bool)
    ensures started <==> Permitted(lower, e) && launcherResolves
    ensures r.ok ==> started && report.Some?
    ensures r.ok <==> r.failure.None?
    ensures started && report.Some? ==> r == Classified(byteLength, report.value, OrElse(maxOutputBytes, DEFAULT_MAX_OUTPUT_BYTES))
    ensures started && report.Some? ==>
              && r.exitCode == report.value.exitCode && r.stdout == report.value.stdout && r.stderr == report.value.stderr
              && r.timedOut == report.value.timedOut
              && (r.truncated <==>
                    || report.value.truncated == Some(true)
                    || byteLength(r.stdout) + byteLength(r.stderr) >
                         if maxOutputBytes.Some? then maxOutputBytes.value else DEFAULT_MAX_OUTPUT_BYTES)
              && (r.failure == Some(TimedOut) <==> r.timedOut)
              && (r.failure == Some(OutputTooLarge) <==> !r.timedOut && r.truncated)
              && (r.failure == Some(NonzeroExit) <==> !r.timedOut && !r.truncated && r.exitCode != Some(0))
              && (r.ok <==> !r.timedOut && !r.truncated && r.exitCode == Some(0))
    ensures !started || report.None? ==> !r.ok && r.exitCode.None? && r.stdout == [] && r.stderr == []
    ensures !Permitted(lower, e) ==> r.failure.Some? && r.failure.value.Refused?
    ensures Permitted(lower, e) && !launcherResolves ==> r.failure == Some(LauncherNotResolved)
    ensures started && report.None? ==> r.failure == Some(RunnerThrew)
  {
    var validation := ValidateCommandExecution(lower, e);
    if validation.Some? {
      return NotRun(Refused(validation.value)), false;
    }
    if !launcherResolves {
      return NotRun(LauncherNotResolved), false;
    }
    if report.None? {
      return NotRun(RunnerThrew), true;
    }
    return Classified(byteLength, report.value, OrElse(maxOutputBytes, DEFAULT_MAX_OUTPUT_BYTES)), true;
  }

  /** What the built-in runner reports of a captured process: its buffers, decoded. */
  ghost function SpawnReport(decode: seq<Byte> -> Text, c: Capture, exitCode: Option<int>, timedOut: bool): RawResult
    reads c
  {
    RawResult(exitCode, decode(Flatten(c.stdoutChunks)), decode(Flatten(c.stderrChunks)), timedOut, Some(c.truncated))
  }

  // A prefix of each stream as long as both together is the whole of each.
  lemma NothingCut(arrived: seq<Chunk>, kept: seq<Chunk>, cap: int)
    requires CutOff(arrived, kept, cap) && Complete(arrived, kept, cap) && |AllBytes(arrived)| <= Max(0, cap)
    ensures StreamBytes(kept, Stdout) == StreamBytes(arrived, Stdout)
    ensures StreamBytes(kept, Stderr) == StreamBytes(arrived, Stderr)
  {
  }

  /** A command run through the built-in runner is `ok` exactly when it exits with 0 in time, its two streams
      fit under the cap together, and so does their decoded text; what it then carries is the complete
      output of both streams, never a part of it. */
  lemma OkMeansCompleteOutput(decode: seq<Byte> -> Text, byteLength: Text -> nat, c: Capture, exitCode: Option<int>,
                              timedOut: bool)
    requires c.Valid()
    ensures var out, err := decode(StreamBytes(c.arrived, Stdout)), decode(StreamBytes(c.arrived, Stderr));
            var r := Classified(byteLength, SpawnReport(decode, c, exitCode, timedOut), c.outputCapBytes);
            && (r.ok ==> r.stdout == out && r.stderr == err)
            && (r.ok <==>
                  && exitCode == Some(0) && !timedOut
                  && |AllBytes(c.arrived)| <= Max(0, c.outputCapBytes)
                  && byteLength(out) + byteLength(err) <= c.outputCapBytes)
  {
    if |AllBytes(c.arrived)| <= Max(0, c.outputCapBytes) {
      NothingCut(c.arrived, c.kept, c.outputCapBytes);
    }
  }
}
