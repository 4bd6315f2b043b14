/** How the four scoring rules relate on the same candidate and the same
    tool outcome. */
module RuleComparison {
  import opened Text
  import opened Numerals
  import opened CountPattern
  import opened Verdicts
  import CurrentRule
  import StrictRule
  import OneShotRule
  import SummaryRule

  /** On a samples report `Mismatches: E in T samples` with `T > 0` and no
      `PASS`, the current and the strict rule agree on the accuracy: the
      current rule's pattern matches the same line without its tail. */
  lemma {:induction false} StrictAgreesOnSamples(code: string, pre: string, errors: nat, total: nat, rest: string)
    requires 'M' !in pre && total > 0
    requires !Contains(pre + Render(MismatchSamples, errors, total) + rest, "PASS")
    ensures var out := pre + Render(MismatchSamples, errors, total) + rest;
            CurrentRule.Score(code, SimOutput(out)).accuracy == StrictRule.Score(code, SimOutput(out)).verdict.accuracy
  {
    var out := pre + Render(MismatchSamples, errors, total) + rest;
    assert out == pre + Render(Mismatches, errors, total) + (" samples" + rest);
    CurrentRule.ParseReport(out, pre, errors, total, " samples" + rest);
    StrictRule.SamplesReport(code, pre, errors, total, rest);
  }

  /** A bare `PASS` without any mismatch report is full marks for the
      current rule and nothing for the strict one. */
  lemma {:induction false} PassSplitsRules(code: string, out: string)
    requires Contains(out, "PASS") && !Contains(out, MismatchesKey)
    ensures CurrentRule.Score(code, SimOutput(out)).accuracy == 1.0
    ensures StrictRule.Score(code, SimOutput(out)).verdict.accuracy == 0.0
  {
    StrictRule.PassAloneScoresZero(code, out);
  }

  /** A failed simulation earns 0.15 under the current rule and nothing
      under the other three. */
  lemma {:induction false} OnlyCurrentRewardsRuntimeFailure(code: string, path: string, f: ProcessFailure)
    requires f.NonZeroExit?
    ensures CurrentRule.Score(code, SimFailed(f)).combined == 0.15
    ensures StrictRule.Score(code, SimFailed(f)).verdict.combined == 0.0
    ensures OneShotRule.Score(code, SimFailed(f)).combined == 0.0
    ensures SummaryRule.Score(code, path, SimFailed(f)).verdict.combined == 0.0
  {
  }
}
