/** The earlier, strict scoring rule (`evaluate` in `EVALUATOR_TEMPLATE` of
    `convert_problems.py`, deployed verbatim as the `evaluator.py` of the
    `examples/verilog_eval_ori` problems).

    Only a testbench line `Mismatches: E in T samples` with `T > 0` earns
    anything; a bare `PASS` scores 0. Failures score 0 and carry no line
    count, and the candidate temp file is removed on the success path only. */
module StrictRule {
  import opened Common
  import opened Text
  import opened Numerals
  import opened CountPattern
  import opened TempFiles
  import opened Verdicts

  /** The head of the message of a failed compile. */
  const CompileFailedHead := "Compilation failed: "

  /** The head of the message of a failed simulation. */
  const RuntimeErrorHead := "Runtime error: "

  /** The message of a simulation whose output mentions `TIMEOUT`. */
  const SimulationTimeout := "Simulation Timeout"

  /** The message of a simulation that exited non-zero with `out`: the
      testbench's own time-out is reported as such, anything else as a
      runtime error carrying the output. */
  function SimFailureMessage(out: string): (m: string)
    ensures m == SimulationTimeout <==> Contains(out, "TIMEOUT")
    ensures !Contains(out, "TIMEOUT") ==> m == RuntimeErrorHead + out
  {
    if Contains(out, "TIMEOUT") then SimulationTimeout
    else
      assert (RuntimeErrorHead + out)[0] != SimulationTimeout[0];
      RuntimeErrorHead + out
  }

  /** The accuracy of a finished simulation: `1 - E/T` from the leftmost
      `Mismatches: E in T samples` when `T > 0`, and 0 otherwise. The source
      tells `FAIL`, `PASS` and `Simulation finished` apart when that line is
      missing, but every one of those branches settles on 0. */
  function SampleAccuracy(output: string): (a: real)
    ensures a <= 1.0
    ensures a != 0.0 ==> Search(output, MismatchSamples).Some? && Search(output, MismatchSamples).value.second > 0
  {
    match Search(output, MismatchSamples)
    case Some(f) => if f.second > 0 then 1.0 - f.first as real / f.second as real else 0.0
    case None => 0.0
  }

  /** The verdict and the file steps for the candidate text `code`
      once the tools have run. Every exit but the success path returns before
      the candidate is removed; the executable is removed in `finally`. */
  function Score(code: string, outcome: ToolOutcome): (e: Evaluation)
    ensures e.verdict.accuracy <= 1.0
    ensures e.verdict.combined >= 1.0 <==> e.verdict.accuracy == 1.0
    ensures e.verdict.lineCount.Some? <==> outcome.SimOutput?
    ensures e.verdict.error == NoErrorKey <==> outcome.SimOutput?
    ensures Leftover(e) == if outcome.SimOutput? then {} else {CandidateFile}
    ensures Write(ExecutableFile) in e.effects <==> Compiled(outcome)
  {
    var files := SuccessCleanup(outcome, outcome.SimOutput?);
    match outcome
    case CompileFailed(NonZeroExit(out, _)) => Evaluation(Rejection(CompileFailedHead + out), files)
    case SimFailed(NonZeroExit(out, _)) => Evaluation(Rejection(SimFailureMessage(out)), files)
    case CompileFailed(TimedOut(msg)) => Evaluation(Rejection(msg), files)
    case SimFailed(TimedOut(msg)) => Evaluation(Rejection(msg), files)
    case Raised(msg) => Evaluation(Rejection(msg), files)
    case SimOutput(out) =>
      var a := SampleAccuracy(out);
      Evaluation(Verdict(a, Some(LineCount(code)), Combine(a, LineCount(code)), NoErrorKey), files)
  }

  /** `evaluate(arg)`: the contents of the file `arg` names, when it names
      one, are scored instead of `arg`. */
  function Evaluate(arg: string, file: Option<string>, outcome: ToolOutcome): (e: Evaluation)
    ensures Leftover(e) == {} <==> e.verdict.error == NoErrorKey
    ensures e.verdict.combined >= 1.0 <==> e.verdict.accuracy == 1.0
  {
    Score(file.GetOr(arg), outcome)
  }

  /** Scoring a file path is scoring the file's contents. */
  lemma {:induction false} FileArgument(path: string, contents: string, outcome: ToolOutcome)
    ensures Evaluate(path, Some(contents), outcome) == Evaluate(contents, None, outcome)
  {
  }

  /** Every failure scores nothing and leaves the candidate file behind. */
  lemma {:induction false} FailuresKeepCandidate(code: string, outcome: ToolOutcome)
    requires !outcome.SimOutput?
    ensures Score(code, outcome).verdict.combined == 0.0
    ensures CandidateFile in Leftover(Score(code, outcome))
  {
  }

  /** Full marks exactly for a finished simulation whose leftmost samples
      line counts no mismatch among a positive number of samples. */
  lemma {:induction false} SolvedIff(code: string, outcome: ToolOutcome)
    ensures Score(code, outcome).verdict.accuracy == 1.0 <==>
              && outcome.SimOutput?
              && Search(outcome.stdout, MismatchSamples).Some?
              && Search(outcome.stdout, MismatchSamples).value.first == 0
              && Search(outcome.stdout, MismatchSamples).value.second > 0
  {
    if outcome.SimOutput? {
      var r := Search(outcome.stdout, MismatchSamples);
      if r.Some? && r.value.second > 0 {
        UnitFraction(r.value.first, r.value.second);
      }
    }
  }

  /** Output with no `Mismatches:` has no samples line. */
  lemma {:induction false} NoKeyNoSamples(out: string)
    requires !Contains(out, MismatchesKey)
    ensures Search(out, MismatchSamples).None?
  {
    forall q: nat | MatchAt(out, MismatchSamples, q).Some?
      ensures false
    {
      MatchAtParts(out, MismatchSamples, q);
      KeyBeforeReport(out, q);
    }
  }

  /** A `PASS` without a samples line scores 0: the strict rule trusts only
      the mismatch count. */
  lemma {:induction false} PassAloneScoresZero(code: string, out: string)
    requires !Contains(out, MismatchesKey)
    ensures Score(code, SimOutput(out)).verdict.accuracy == 0.0
    ensures Score(code, SimOutput(out)).verdict.combined == 0.0
  {
    NoKeyNoSamples(out);
  }

  /** A printed `Mismatches: E in T samples` line, after text holding no
      `M`, is read as `1 - E/T` when `T > 0` and as 0 when `T` is 0. */
  lemma {:induction false} SamplesReport(code: string, pre: string, errors: nat, total: nat, rest: string)
    requires 'M' !in pre
    ensures Score(code, SimOutput(pre + Render(MismatchSamples, errors, total) + rest)).verdict.accuracy
            == if total == 0 then 0.0 else 1.0 - errors as real / total as real
  {
    PatternsWellFormed();
    assert MismatchSamples.lead[0] == 'M';
    SearchRendered(pre, MismatchSamples, errors, total, rest);
  }
}
