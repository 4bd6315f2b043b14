/** The one-shot scoring rule: the example `evaluate` that
    `agentic_convert.py` shows the LLM, deployed by hand as the
    `evaluator.py` of `examples/verilog_eval/Prob019_m2014_q4f`.

    It has no file-path branch and no partial credit: the compiler and the
    simulator are run with `check_output` outside any inner `try`, so every
    failure, a non-zero exit included, reaches the generic handler. A
    finished simulation is read as the current rule reads it (`PASS` first,
    then the leftmost `Mismatches: E in T`, else 0). Both temp files are
    removed in `finally`. */
module OneShotRule {
  import opened Common
  import opened Text
  import opened CountPattern
  import opened TempFiles
  import opened Verdicts
  import CurrentRule

  /** `str(e)` of the exception a failed tool run raises. */
  function Describe(f: ProcessFailure): string {
    match f
    case NonZeroExit(_, description) => description
    case TimedOut(description) => description
  }

  /** The verdict for the candidate text `code` once the tools have run. */
  function Score(code: string, outcome: ToolOutcome): (v: Verdict)
    ensures v.accuracy <= 1.0 && v.lineCount.Some?
    ensures v.combined >= 1.0 <==> v.accuracy == 1.0
    ensures !outcome.SimOutput? ==> v.accuracy == 0.0 && v.combined == 0.0 && v.lineCount == Some(0)
    ensures outcome.CompileFailed? ==> v.error == ErrorText(Describe(outcome.failure))
    ensures outcome.SimFailed? ==> v.error == ErrorText(Describe(outcome.failure))
    ensures outcome.Raised? ==> v.error == ErrorText(outcome.message)
  {
    match outcome
    case CompileFailed(f) => Crash(Describe(f))
    case SimFailed(f) => Crash(Describe(f))
    case Raised(msg) => Crash(msg)
    case SimOutput(out) => CurrentRule.Finished(code, out)
  }

  /** `evaluate(code)`: nothing is left on disk. */
  function Evaluate(code: string, outcome: ToolOutcome): (e: Evaluation)
    ensures Leftover(e) == {}
    ensures Write(ExecutableFile) in e.effects <==> Compiled(outcome)
    ensures e.verdict.accuracy <= 1.0
  {
    Evaluation(Score(code, outcome), FinallyCleanup(outcome))
  }

  /** Only a finished simulation earns anything: there is no partial
      credit for a failed compile or simulation. */
  lemma {:induction false} NoPartialCredit(code: string, outcome: ToolOutcome)
    requires Score(code, outcome).combined > 0.0
    ensures outcome.SimOutput?
  {
  }

  /** `PASS` is full marks, even beside a mismatch report. */
  lemma {:induction false} PassScoresFull(code: string, out: string)
    requires Contains(out, "PASS")
    ensures Score(code, SimOutput(out)).accuracy == 1.0
    ensures Score(code, SimOutput(out)).combined == 1.0 + ConcisenessBonus(LineCount(code))
  {
  }

  /** `Mismatches: E in 0` divides by zero: the generic handler's verdict. */
  lemma {:induction false} ZeroSamplesCrash(code: string, errors: nat)
    ensures Score(code, SimOutput(Render(Mismatches, errors, 0))) == Crash(DivisionByZero)
  {
    CurrentRule.ZeroSamples(code, errors);
  }
}
