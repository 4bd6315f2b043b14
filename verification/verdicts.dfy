/** What every scoring rule returns, and the pieces the rules share: the
    outcome of the external tools, the conciseness bonus and the temp files
    left behind. */
module Verdicts {
  import opened Common
  import opened Text
  import opened TempFiles

  /** How a child process (`iverilog` or `vvp`) failed. */
  datatype ProcessFailure =
      /** `CalledProcessError`: the process exited with a non-zero status.
          `output` is its decoded stdout and stderr; `description` is
          `str(e)`, which names the command and the status. */
    | NonZeroExit(output: string, description: string)
      /** `TimeoutExpired`: the process outlived its time limit. It is not a
          `CalledProcessError`, so only a rule's generic handler sees it. */
    | TimedOut(description: string)

  /** Everything a scoring rule learns from the outside world once the
      candidate is on disk: the compiler failed, the simulator failed, some
      other exception was raised inside the rule's `try` (for instance the
      tool could not be started), or the simulator ran and printed `stdout`. */
  datatype ToolOutcome =
    | CompileFailed(failure: ProcessFailure)
    | SimFailed(failure: ProcessFailure)
    | Raised(message: string)
    | SimOutput(stdout: string)

  /** The `error` entry of a verdict: absent, `None`, or a message. */
  datatype ErrorSlot = NoErrorKey | ErrorNone | ErrorText(text: string)

  /** The dictionary `evaluate` returns. `lineCount` is `None` when the
      dictionary has no `line_count` key. */
  datatype Verdict = Verdict(accuracy: real, lineCount: Option<nat>, combined: real, error: ErrorSlot)

  /** A verdict together with the file steps `evaluate` took, in order. */
  datatype Evaluation = Evaluation(verdict: Verdict, effects: seq<FileOp>)

  /** The temp files still on disk when `evaluate` has returned. */
  function Leftover(e: Evaluation): set<TempFile> {
    OnDisk(e.effects)
  }

  /** The compiler got past the candidate: it built the executable. An
      exception other than a failed tool run is taken to come before the
      compiler has built anything (the tool could not be started). */
  predicate Compiled(outcome: ToolOutcome) {
    outcome.SimFailed? || outcome.SimOutput?
  }

  /** The files a rule writes: the candidate, and the executable once the
      compiler has built it. */
  function Written(outcome: ToolOutcome): (ops: seq<FileOp>)
    ensures OnDisk(ops) == if Compiled(outcome) then {CandidateFile, ExecutableFile} else {CandidateFile}
    ensures Write(ExecutableFile) in ops <==> Compiled(outcome)
    ensures RemoveIfExists(CandidateFile) !in ops
  {
    var candidate := Then([], Write(CandidateFile));
    if Compiled(outcome) then Then(candidate, Write(ExecutableFile)) else candidate
  }

  /** The file steps of a rule whose `finally` removes the candidate and
      then the executable: nothing is left. */
  function FinallyCleanup(outcome: ToolOutcome): (ops: seq<FileOp>)
    ensures OnDisk(ops) == {}
    ensures Write(ExecutableFile) in ops <==> Compiled(outcome)
  {
    Then(Then(Written(outcome), RemoveIfExists(CandidateFile)), RemoveIfExists(ExecutableFile))
  }

  /** The file steps of a rule that removes the candidate only on its
      success path (`succeeded`) and the executable in `finally`: the
      candidate is left behind exactly when the rule did not succeed. */
  function SuccessCleanup(outcome: ToolOutcome, succeeded: bool): (ops: seq<FileOp>)
    ensures OnDisk(ops) == if succeeded then {} else {CandidateFile}
    ensures Write(ExecutableFile) in ops <==> Compiled(outcome)
    ensures RemoveIfExists(CandidateFile) in ops <==> succeeded
  {
    var written := Written(outcome);
    var kept := if succeeded then Then(written, RemoveIfExists(CandidateFile)) else written;
    Then(kept, RemoveIfExists(ExecutableFile))
  }

  /** `max(0, (100 - line_count) / 1000.0)`: a reward for short programs,
      worth 0.001 per line under 100. */
  function ConcisenessBonus(lineCount: nat): (b: real)
    ensures 0.0 <= b <= 0.1
    ensures b == 0.0 <==> lineCount >= 100
    ensures lineCount < 100 ==> b * 1000.0 + lineCount as real == 100.0
  {
    var raw := (100 - lineCount) as real / 1000.0;
    if raw > 0.0 then raw else 0.0
  }

  /** A shorter program never earns a smaller bonus, and under 100 lines
      every line removed earns more. */
  lemma {:induction false} BonusMonotone(shorter: nat, longer: nat)
    requires shorter <= longer
    ensures ConcisenessBonus(shorter) >= ConcisenessBonus(longer)
    ensures shorter < longer && shorter < 100 ==> ConcisenessBonus(shorter) > ConcisenessBonus(longer)
  {
  }

  /** The `combined_score` of a completed simulation: the accuracy, plus the
      conciseness bonus when the accuracy is exactly 1.0. */
  function Combine(accuracy: real, lineCount: nat): (c: real)
    ensures accuracy == 1.0 ==> 1.0 <= c <= 1.1 && c - 1.0 == ConcisenessBonus(lineCount)
    ensures accuracy != 1.0 ==> c == accuracy
  {
    if accuracy == 1.0 then accuracy + ConcisenessBonus(lineCount) else accuracy
  }

  /** For accuracies that cannot exceed 1.0, the combined score reaches the
      solved threshold 1.0 exactly when the accuracy is perfect. */
  lemma {:induction false} CombineSolved(accuracy: real, lineCount: nat)
    requires accuracy <= 1.0
    ensures Combine(accuracy, lineCount) >= 1.0 <==> accuracy == 1.0
  {
  }

  /** The verdict of a rule's generic `except Exception as e` handler in the
      rules that report a line count: everything zero, and `str(e)`. */
  function Crash(message: string): (v: Verdict)
    ensures v.accuracy == 0.0 && v.combined == 0.0 && v.lineCount == Some(0)
    ensures v.error == ErrorText(message)
  {
    Verdict(0.0, Some(0), 0.0, ErrorText(message))
  }

  /** `str(e)` for the `ZeroDivisionError` of `x / 0` in Python. */
  const DivisionByZero := "division by zero"

  /** The location of a fixture that a rule resolves next to its own file
      (`os.path.join(os.path.dirname(os.path.abspath(__file__)), name)`):
      an absolute path, whatever the working directory. */
  function FixturePath(scriptDir: string, name: string): (path: string)
    requires |scriptDir| > 0 && scriptDir[0] == '/'
    ensures |path| > 0 && path[0] == '/'
    ensures name != [] && name[0] != '/' ==> StartsWith(path, scriptDir) && EndsWith(path, name)
  {
    if name != [] && name[0] != '/' then
      PathJoinRelative(scriptDir, name);
      PathJoin(scriptDir, name)
    else
      PathJoin(scriptDir, name)
  }

  /** `e/t` exceeds 1 when `e > t > 0`. */
  lemma {:induction false} RatioAboveOne(e: nat, t: nat)
    requires 0 < t < e
    ensures e as real / t as real > 1.0
  {
    var q := e as real / t as real;
    assert q * t as real == e as real;
  }

  /** `1 - e/t` is 1 exactly when `e` is 0. */
  lemma {:induction false} UnitFraction(e: nat, t: nat)
    requires t > 0
    ensures 1.0 - e as real / t as real == 1.0 <==> e == 0
  {
    if e > 0 {
      assert e as real / t as real > 0.0;
    }
  }

  /** With `t > 0` the ratio `p/t` reaches 1 exactly when `p >= t`, and is
      exactly 1 when `p == t`. */
  lemma {:induction false} RatioAtLeastOne(p: nat, t: nat)
    requires t > 0
    ensures p as real / t as real >= 1.0 <==> p >= t
    ensures p as real / t as real == 1.0 <==> p == t
  {
    var q := p as real / t as real;
    assert q * t as real == p as real;
  }

  /** The verdict of a rule whose failures carry no `line_count` key: both
      scores 0 and the message. */
  function Rejection(message: string): (v: Verdict)
    ensures v.accuracy == 0.0 && v.combined == 0.0 && v.lineCount.None?
    ensures v.error == ErrorText(message)
  {
    Verdict(0.0, None, 0.0, ErrorText(message))
  }
}
