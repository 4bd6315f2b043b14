/** The partial-credit scoring rule that every `examples/verilog_eval`
    problem uses (`evaluate` in the template of `scripts/fix_evaluators.py`,
    deployed verbatim as each problem's `evaluator.py`).

    It grades a failed compile on how Verilog-like the text looks, a failed
    simulation above every failed compile, and a finished simulation on the
    testbench's report: `PASS` anywhere is full marks, otherwise the leftmost
    `Mismatches: E in T` earns `1 - E/T`. Both temp files are always removed. */
module CurrentRule {
  import opened Common
  import opened Text
  import opened Numerals
  import opened CountPattern
  import opened TempFiles
  import opened Verdicts

  /** The credit of a candidate that does not compile: 0.1 for naming the
      expected `TopModule`, 0.05 for any text with a line and the word
      `module` in some letter case, 0 otherwise. */
  function CompileCredit(code: string): (credit: real)
    ensures credit == 0.0 || credit == 0.05 || credit == 0.1
    ensures credit == 0.1 <==> Contains(code, "TopModule")
    ensures credit == 0.0 <==> !Contains(code, "TopModule") && (LineCount(code) == 0 || !Contains(ToLower(code), "module"))
  {
    var partial := if LineCount(code) > 0 && Contains(ToLower(code), "module") then 0.05 else 0.0;
    if Contains(code, "TopModule") then 0.1 else partial
  }

  /** Naming `TopModule` satisfies the 0.05 test as well, so the 0.1 override
      only ever raises the credit. */
  lemma {:induction false} TopModuleLooksLikeModule(code: string)
    requires Contains(code, "TopModule")
    ensures LineCount(code) > 0 && Contains(ToLower(code), "module")
  {
    var i :| 0 <= i <= |code| - 9 && OccursAt(code, "TopModule", i);
    LowerModuleAt(code, i);
    assert code[i + 0] == "TopModule"[0];
    LineCountPositive(code, i);
  }

  /** Lower-cased, `TopModule` holds `module`. */
  lemma {:induction false} LowerModuleAt(code: string, i: int)
    requires OccursAt(code, "TopModule", i)
    ensures OccursAt(ToLower(code), "module", i + 3)
  {
    assert code[i + 3] == "TopModule"[3] && code[i + 4] == "TopModule"[4] && code[i + 5] == "TopModule"[5];
    assert code[i + 6] == "TopModule"[6] && code[i + 7] == "TopModule"[7] && code[i + 8] == "TopModule"[8];
    ModuleAt(ToLower(code), i + 3);
  }

  /** The six characters of `module` at `i`. */
  lemma {:induction false} ModuleAt(s: string, i: int)
    requires 0 <= i && i + 6 <= |s|
    requires s[i] == 'm' && s[i + 1] == 'o' && s[i + 2] == 'd' && s[i + 3] == 'u' && s[i + 4] == 'l' && s[i + 5] == 'e'
    ensures OccursAt(s, "module", i)
  {
  }

  /** The message of a failed tool run: its output, or `fallback` when it
      printed nothing (`e.output.decode() if e.output else fallback`). */
  function FailureText(output: string, fallback: string): (text: string)
    ensures output != [] ==> text == output
    ensures output == [] ==> text == fallback
  {
    if output == [] then fallback else output
  }

  /** The accuracy read from a finished simulation's output, or `None` when
      `Mismatches: E in 0` makes the rule divide by zero. */
  function ParseAccuracy(output: string): (r: Option<real>)
    ensures Contains(output, "PASS") ==> r == Some(1.0)
    ensures r.Some? ==> r.value <= 1.0
    ensures !Contains(output, "PASS") && (!Contains(output, MismatchesKey) || Search(output, Mismatches).None?)
            ==> r == Some(0.0)
    ensures r.None? <==>
              && !Contains(output, "PASS") && Contains(output, MismatchesKey)
              && Search(output, Mismatches).Some? && Search(output, Mismatches).value.second == 0
  {
    if Contains(output, "PASS") then Some(1.0)
    else if Contains(output, MismatchesKey) then
      match Search(output, Mismatches)
      case None => Some(0.0)
      case Some(f) => if f.second == 0 then None else Some(1.0 - f.first as real / f.second as real)
    else Some(0.0)
  }

  /** The verdict of a simulation that ran to the end and printed `output`. */
  function Finished(code: string, output: string): (v: Verdict)
    ensures v.accuracy <= 1.0 && v.lineCount.Some?
    ensures ParseAccuracy(output).Some? ==> v.accuracy == ParseAccuracy(output).value && v.error == ErrorNone
    ensures ParseAccuracy(output).None? ==> v == Crash(DivisionByZero)
  {
    match ParseAccuracy(output)
    case None => Crash(DivisionByZero)
    case Some(a) => Verdict(a, Some(LineCount(code)), Combine(a, LineCount(code)), ErrorNone)
  }

  /** The verdict for the candidate text `code` once the tools have run. */
  function Score(code: string, outcome: ToolOutcome): (v: Verdict)
    ensures v.accuracy <= 1.0 && v.lineCount.Some?
    ensures v.combined >= 1.0 <==> v.accuracy == 1.0
  {
    match outcome
    case CompileFailed(NonZeroExit(out, _)) => CompileFailure(code, out)
    case SimFailed(NonZeroExit(out, _)) => RuntimeFailure(code, out)
    case CompileFailed(TimedOut(msg)) => Crash(msg)
    case SimFailed(TimedOut(msg)) => Crash(msg)
    case Raised(msg) => Crash(msg)
    case SimOutput(out) => Finished(code, out)
  }

  /** `evaluate(arg)`. `file` holds the contents of the file `arg` names when
      it names an existing regular file; that text is scored instead of `arg`.
      Both temp files are removed on every path. */
  function Evaluate(arg: string, file: Option<string>, outcome: ToolOutcome): (e: Evaluation)
    ensures Leftover(e) == {}
    ensures Write(ExecutableFile) in e.effects <==> Compiled(outcome)
    ensures e.verdict.accuracy <= 1.0
    ensures e.verdict.combined >= 1.0 <==> e.verdict.accuracy == 1.0
  {
    Evaluation(Score(file.GetOr(arg), outcome), FinallyCleanup(outcome))
  }

  /** Scoring a file path is scoring the file's contents. */
  lemma {:induction false} FileArgument(path: string, contents: string, outcome: ToolOutcome)
    ensures Evaluate(path, Some(contents), outcome) == Evaluate(contents, None, outcome)
  {
  }

  /** The head of the message of a failed compile. */
  const CompileFailedPrefix := "Compilation failed:\n"

  /** The head of the message of a failed simulation. */
  const RuntimeErrorPrefix := "Runtime error:\n"

  /** The verdict of a candidate the compiler rejected with `out`. */
  function CompileFailure(code: string, out: string): (v: Verdict)
    ensures v.accuracy == 0.0 && v.lineCount == Some(LineCount(code))
    ensures v.combined == CompileCredit(code)
    ensures v.error.ErrorText? && StartsWith(v.error.text, CompileFailedPrefix)
    ensures out != [] ==> v.error.text == CompileFailedPrefix + out
  {
    var text := CompileFailedPrefix + FailureText(out, "Unknown compilation error");
    StartsWithConcat(CompileFailedPrefix, FailureText(out, "Unknown compilation error"));
    Verdict(0.0, Some(LineCount(code)), CompileCredit(code), ErrorText(text))
  }

  /** The verdict of a candidate that compiled but whose simulation failed
      with `out`. */
  function RuntimeFailure(code: string, out: string): (v: Verdict)
    ensures v.accuracy == 0.0 && v.lineCount == Some(LineCount(code)) && v.combined == 0.15
    ensures v.error.ErrorText? && StartsWith(v.error.text, RuntimeErrorPrefix)
    ensures out != [] ==> v.error.text == RuntimeErrorPrefix + out
  {
    var text := RuntimeErrorPrefix + FailureText(out, "Unknown runtime error");
    StartsWithConcat(RuntimeErrorPrefix, FailureText(out, "Unknown runtime error"));
    Verdict(0.0, Some(LineCount(code)), 0.15, ErrorText(text))
  }

  /** Every failed compile is scored below every failed simulation. */
  lemma {:induction false} RuntimeFailureOutranksCompileFailure(code: string, out: string, other: string, otherOut: string)
    ensures RuntimeFailure(code, out).combined > CompileFailure(other, otherOut).combined
  {
  }

  /** A time-out is not a `CalledProcessError`: it reaches the generic
      handler and scores nothing, not the 0.15 of a failed simulation. */
  lemma {:induction false} TimeoutScoresNothing(code: string, msg: string)
    ensures Score(code, CompileFailed(TimedOut(msg))) == Crash(msg)
    ensures Score(code, SimFailed(TimedOut(msg))) == Crash(msg)
  {
  }

  /** `PASS` anywhere in the output is full marks, even next to a report of
      mismatches; the verdict then carries the conciseness bonus. */
  lemma {:induction false} PassDominates(code: string, out: string)
    requires Contains(out, "PASS")
    ensures var v := Score(code, SimOutput(out));
            && v.accuracy == 1.0 && v.error == ErrorNone
            && v.combined == 1.0 + ConcisenessBonus(LineCount(code))
  {
  }

  /** A report `Mismatches: E in T` printed after text that holds no `M`,
      in output without `PASS`, is read as `1 - E/T`, and as a division by
      zero when `T` is 0. */
  lemma {:induction false} ParseReport(out: string, pre: string, errors: nat, total: nat, rest: string)
    requires out == pre + Render(Mismatches, errors, total) + rest
    requires 'M' !in pre
    requires rest == [] || !IsDigit(rest[0])
    requires !Contains(out, "PASS")
    ensures ParseAccuracy(out) == if total == 0 then None else Some(1.0 - errors as real / total as real)
  {
    PatternsWellFormed();
    assert Mismatches.lead[0] == 'M';
    SearchRendered(pre, Mismatches, errors, total, rest);
    RenderedSpells(pre, Mismatches, errors, total, rest);
    KeyBeforeReport(out, |pre|);
    ReportAccuracy(out, |pre|, errors, total);
  }

  /** Output without `PASS` whose leftmost report is `f` is scored by `f`. */
  lemma {:induction false} ReportAccuracy(out: string, pos: nat, errors: nat, total: nat)
    requires !Contains(out, "PASS") && Contains(out, MismatchesKey)
    requires Search(out, Mismatches) == Some(Found(pos, errors, total))
    ensures ParseAccuracy(out) == if total == 0 then None else Some(1.0 - errors as real / total as real)
  {
  }

  /** A testbench report `Mismatches: E in T`, with `T > 0`, scores `1 - E/T`,
      which is full marks exactly when `E` is 0. */
  lemma {:induction false} ReportedMismatches(code: string, pre: string, errors: nat, total: nat, rest: string)
    requires total > 0 && 'M' !in pre
    requires rest == [] || !IsDigit(rest[0])
    requires !Contains(pre + Render(Mismatches, errors, total) + rest, "PASS")
    ensures var v := Score(code, SimOutput(pre + Render(Mismatches, errors, total) + rest));
            && v.accuracy == 1.0 - errors as real / total as real
            && v.error == ErrorNone
            && (v.accuracy == 1.0 <==> errors == 0)
  {
    ParseReport(pre + Render(Mismatches, errors, total) + rest, pre, errors, total, rest);
    UnitFraction(errors, total);
  }

  /** Accuracy is not clamped: more mismatches than samples scores below 0. */
  lemma {:induction false} MoreErrorsThanSamples(code: string, errors: nat, total: nat)
    requires 0 < total < errors
    ensures Score(code, SimOutput(Render(Mismatches, errors, total))).accuracy < 0.0
  {
    var out := Render(Mismatches, errors, total);
    assert out == [] + Render(Mismatches, errors, total) + [];
    NoPassInReport(errors, total);
    ParseReport(out, [], errors, total, []);
    RatioAboveOne(errors, total);
  }

  /** `Mismatches: E in 0` divides by zero inside the `try`: the verdict is
      the generic handler's, with line count 0 and score 0. */
  lemma {:induction false} ZeroSamples(code: string, errors: nat)
    ensures Score(code, SimOutput(Render(Mismatches, errors, 0))) == Crash(DivisionByZero)
  {
    var out := Render(Mismatches, errors, 0);
    assert out == [] + Render(Mismatches, errors, 0) + [];
    NoPassInReport(errors, 0);
    ParseReport(out, [], errors, 0, []);
  }

  /** A bare report line holds no `PASS`: it has no `P`. */
  lemma {:induction false} NoPassInReport(errors: nat, total: nat)
    ensures !Contains(Render(Mismatches, errors, total), "PASS")
  {
    var out := Render(Mismatches, errors, total);
    var d1, d2 := NatToDigits(errors), NatToDigits(total);
    assert out == Mismatches.lead + d1 + Mismatches.mid + d2 + Mismatches.tail;
    assert 'P' !in Mismatches.lead && 'P' !in Mismatches.mid && 'P' !in Mismatches.tail;
    forall k | 0 <= k < |d1|
      ensures d1[k] != 'P'
    {
      assert IsDigit(d1[k]);
    }
    forall k | 0 <= k < |d2|
      ensures d2[k] != 'P'
    {
      assert IsDigit(d2[k]);
    }
    assert 'P' !in out;
    forall i | 0 <= i <= |out| - 4
      ensures !OccursAt(out, "PASS", i)
    {
      assert out[i] in out;
      FirstMismatch(out, "PASS", i);
    }
  }

  /** Full marks are earned only by a finished simulation that printed
      `PASS`, or whose leftmost mismatch report counts no mismatch among a
      positive number of samples. */
  lemma {:induction false} PerfectIffConfirmed(code: string, outcome: ToolOutcome)
    ensures Score(code, outcome).accuracy == 1.0 <==>
              && outcome.SimOutput?
              && (|| Contains(outcome.stdout, "PASS")
                  || (&& Contains(outcome.stdout, MismatchesKey)
                      && Search(outcome.stdout, Mismatches).Some?
                      && Search(outcome.stdout, Mismatches).value.first == 0
                      && Search(outcome.stdout, Mismatches).value.second > 0))
  {
    if outcome.SimOutput? {
      var out := outcome.stdout;
      if !Contains(out, "PASS") && Contains(out, MismatchesKey) && Search(out, Mismatches).Some? {
        var f := Search(out, Mismatches).value;
        if f.second > 0 {
          UnitFraction(f.first, f.second);
        }
      }
    }
  }
}
