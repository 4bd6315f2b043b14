/** The scoring rule of `examples/verilog_optimization/evaluator.py`: the
    accuracy is `P/T` from the leftmost `SUMMARY: Passed P/T tests`.

    Nothing clamps `P/T`, and the conciseness bonus needs an accuracy of
    exactly 1.0, so `P > T` scores above 1 without a bonus. Failures carry no
    line count. A candidate that fails to compile is kept on disk on purpose,
    and its path is named in the error; in fact the candidate is removed on
    the success path only. */
module SummaryRule {
  import opened Common
  import opened Text
  import opened Numerals
  import opened CountPattern
  import opened TempFiles
  import opened Verdicts

  /** The message when the output has no `SUMMARY` line. */
  const NoSummary := "Could not parse output"

  /** The message of a failed compile of the candidate stored at `path`. */
  function CompileFailedMessage(path: string, out: string): (m: string)
    ensures StartsWith(m, "Compilation failed: " + path + ": ") && EndsWith(m, out)
  {
    StartsWithConcat("Compilation failed: " + path + ": ", out);
    EndsWithConcat("Compilation failed: " + path + ": ", out);
    "Compilation failed: " + path + ": " + out
  }

  /** The verdict and the file steps for the candidate text `code`,
      stored at `candidatePath`, once the tools have run. */
  function Score(code: string, candidatePath: string, outcome: ToolOutcome): (e: Evaluation)
    ensures e.verdict.combined >= 1.0 <==> e.verdict.accuracy >= 1.0
    ensures e.verdict.lineCount.Some? <==> Leftover(e) == {}
    ensures Leftover(e) != {} ==> Leftover(e) == {CandidateFile} && e.verdict.combined == 0.0
    ensures Leftover(e) == {} ==> outcome.SimOutput? && e.verdict.error == NoErrorKey
    ensures Write(ExecutableFile) in e.effects <==> Compiled(outcome)
    ensures outcome.SimOutput? && Search(outcome.stdout, PassedSummary).None? ==> e.verdict == Rejection(NoSummary)
  {
    var kept := SuccessCleanup(outcome, false);
    match outcome
    case CompileFailed(NonZeroExit(out, _)) =>
      Evaluation(Rejection(CompileFailedMessage(candidatePath, out)), kept)
    case SimFailed(NonZeroExit(out, _)) => Evaluation(Rejection("Runtime error: " + out), kept)
    case CompileFailed(TimedOut(msg)) => Evaluation(Rejection(msg), kept)
    case SimFailed(TimedOut(msg)) => Evaluation(Rejection(msg), kept)
    case Raised(msg) => Evaluation(Rejection(msg), kept)
    case SimOutput(out) =>
      match Search(out, PassedSummary)
      case None => Evaluation(Rejection(NoSummary), kept)
      case Some(f) =>
        if f.second == 0 then Evaluation(Rejection(DivisionByZero), kept)
        else
          var a := f.first as real / f.second as real;
          Evaluation(Verdict(a, Some(LineCount(code)), Combine(a, LineCount(code)), NoErrorKey), SuccessCleanup(outcome, true))
  }

  /** `evaluate(arg)`: the contents of the file `arg` names, when it names
      one, are scored instead of `arg`. */
  function Evaluate(arg: string, file: Option<string>, candidatePath: string, outcome: ToolOutcome): (e: Evaluation)
    ensures Leftover(e) == {} <==> e.verdict.error == NoErrorKey
    ensures e.verdict.combined >= 1.0 <==> e.verdict.accuracy >= 1.0
  {
    Score(file.GetOr(arg), candidatePath, outcome)
  }

  /** Scoring a file path is scoring the file's contents. */
  lemma {:induction false} FileArgument(path: string, contents: string, candidatePath: string, outcome: ToolOutcome)
    ensures Evaluate(path, Some(contents), candidatePath, outcome) == Evaluate(contents, None, candidatePath, outcome)
  {
  }

  /** A score of at least 1.0 exactly when the leftmost summary reports at
      least as many passes as tests, and at least one test. */
  lemma {:induction false} SolvedIff(code: string, path: string, outcome: ToolOutcome)
    ensures Score(code, path, outcome).verdict.combined >= 1.0 <==>
              && outcome.SimOutput?
              && Search(outcome.stdout, PassedSummary).Some?
              && Search(outcome.stdout, PassedSummary).value.second > 0
              && Search(outcome.stdout, PassedSummary).value.first >= Search(outcome.stdout, PassedSummary).value.second
  {
    if outcome.SimOutput? {
      var r := Search(outcome.stdout, PassedSummary);
      if r.Some? && r.value.second > 0 {
        RatioAtLeastOne(r.value.first, r.value.second);
      }
    }
  }

  /** More passes than tests scores `P/T` above 1, with no conciseness bonus. */
  lemma {:induction false} OverfullNoBonus(code: string, path: string, out: string)
    requires Search(out, PassedSummary).Some?
    requires 0 < Search(out, PassedSummary).value.second < Search(out, PassedSummary).value.first
    ensures var v := Score(code, path, SimOutput(out)).verdict;
            v.accuracy > 1.0 && v.combined == v.accuracy
  {
    var f := Search(out, PassedSummary).value;
    RatioAboveOne(f.first, f.second);
  }

  /** A printed summary `SUMMARY: Passed P/T tests`, after text holding no
      `S`, is read as `P/T` when `T > 0`, and as a division by zero when
      `T` is 0. */
  lemma {:induction false} SummaryReport(code: string, path: string, pre: string, passed: nat, total: nat, rest: string)
    requires 'S' !in pre
    ensures var v := Score(code, path, SimOutput(pre + Render(PassedSummary, passed, total) + rest)).verdict;
            if total == 0 then v == Rejection(DivisionByZero) else v.accuracy == passed as real / total as real
  {
    PatternsWellFormed();
    assert PassedSummary.lead[0] == 'S';
    SearchRendered(pre, PassedSummary, passed, total, rest);
  }

  /** A compile failure keeps the candidate and names its path. */
  lemma {:induction false} CompileFailureKeepsCandidate(code: string, path: string, out: string, description: string)
    ensures var e := Score(code, path, CompileFailed(NonZeroExit(out, description)));
            && Leftover(e) == {CandidateFile}
            && e.verdict.error.ErrorText?
            && StartsWith(e.verdict.error.text, "Compilation failed: " + path + ": ")
  {
  }
}
