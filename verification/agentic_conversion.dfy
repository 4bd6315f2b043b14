/** `agentic_convert.py`: like `convert_problems.py`, but the description,
    the initial program and the evaluator are written by the LLM, and only
    the first `Limit` convertible problems are converted. The LLM's replies
    are inputs; the code blocks are cut out of them with `Fence`. */
module AgenticConversion {
  import opened Common
  import opened Text
  import opened Fence
  import opened ProblemConversion

  /** How many problems one run converts. */
  const Limit := 3

  /** The conversion loop over the sorted prompt files: stop once `Limit`
      problems are converted, skip those with a missing companion. */
  method ConvertFirst(prompts: seq<string>, files: set<string>) returns (done: seq<string>)
    ensures done == Converted(prompts, files)[..Min(Limit, |Converted(prompts, files)|)]
  {
    done := [];
    var count := 0;
    var k := 0;
    while k < |prompts|
      invariant k <= |prompts|
      invariant count == |done| <= Limit
      invariant done == Converted(prompts[..k], files)
    {
      if count >= Limit {
        break;
      }
      var base := BaseName(prompts[k]);
      ConvertedStep(prompts, files, k);
      if !Convertible(base, files) {
        k := k + 1;
        continue;
      }
      done := done + [base];
      count := count + 1;
      k := k + 1;
    }
    FirstConversions(prompts, files, k);
  }

  /** One more prompt file converts one more problem exactly when its
      companions exist. */
  lemma {:induction false} ConvertedStep(prompts: seq<string>, files: set<string>, k: nat)
    requires k < |prompts|
    ensures var base := BaseName(prompts[k]);
            Converted(prompts[..k + 1], files)
            == Converted(prompts[..k], files) + if Convertible(base, files) then [base] else []
  {
    assert prompts[..k + 1][..k] == prompts[..k];
  }

  /** Where the loop stops, the conversions so far are the first `Limit`
      of all conversions (or all of them). */
  lemma {:induction false} FirstConversions(prompts: seq<string>, files: set<string>, k: nat)
    requires k <= |prompts|
    requires |Converted(prompts[..k], files)| <= Limit
    requires k == |prompts| || |Converted(prompts[..k], files)| == Limit
    ensures Converted(prompts[..k], files) == Converted(prompts, files)[..Min(Limit, |Converted(prompts, files)|)]
  {
    ConvertedPrefix(prompts, files, k);
    if k == |prompts| {
      assert prompts[..k] == prompts;
    }
  }

  /** `f.readlines()`: the lines of a text, each with its line break; the
      last one has none when the text does not end with one. */
  function ReadLines(s: string): (lines: seq<string>)
    decreases |s|
  {
    if s == [] then []
    else
      match IndexOf(s, "\n")
      case None => [s]
      case Some(i) => [s[..i + 1]] + ReadLines(s[i + 1..])
  }

  /** Reading lines loses nothing: they concatenate back to the text. */
  lemma {:induction false} ReadLinesConcat(s: string)
    ensures Concat(ReadLines(s)) == s
    decreases |s|
  {
    if s != [] {
      match IndexOf(s, "\n") {
        case None =>
        case Some(i) =>
          ReadLinesConcat(s[i + 1..]);
          assert ([s[..i + 1]] + ReadLines(s[i + 1..]))[1..] == ReadLines(s[i + 1..]);
          assert s[..i + 1] + s[i + 1..] == s;
      }
    }
  }

  /** Re-reading any run of trailing lines gives those lines back. */
  lemma {:induction false} ReadLinesSuffix(s: string, m: nat)
    requires m <= |ReadLines(s)|
    ensures ReadLines(Concat(ReadLines(s)[m..])) == ReadLines(s)[m..]
    decreases |s|
  {
    if m == 0 {
      ReadLinesConcat(s);
      assert ReadLines(s)[0..] == ReadLines(s);
    } else {
      match IndexOf(s, "\n") {
        case None =>
          assert ReadLines(s)[m..] == [];
        case Some(i) =>
          var rest := s[i + 1..];
          assert ReadLines(s)[m..] == ReadLines(rest)[m - 1..];
          ReadLinesSuffix(rest, m - 1);
      }
    }
  }

  /** How many test-bench lines the evaluator's prompt shows. */
  const TailLines := 30

  /** `"".join(lines[-30:])`: the test bench's last 30 lines, or all of it. */
  function TestbenchTail(testbench: string): string {
    var lines := ReadLines(testbench);
    Concat(lines[|lines| - Min(TailLines, |lines|)..])
  }

  /** The tail is the end of the test bench, and all of it when the test
      bench has at most 30 lines; read back, it is exactly the last 30
      lines. */
  lemma {:induction false} TailIsSuffix(testbench: string)
    ensures EndsWith(testbench, TestbenchTail(testbench))
    ensures |ReadLines(testbench)| <= TailLines ==> TestbenchTail(testbench) == testbench
    ensures var lines := ReadLines(testbench);
            ReadLines(TestbenchTail(testbench)) == lines[|lines| - Min(TailLines, |lines|)..]
    ensures |ReadLines(TestbenchTail(testbench))| == Min(TailLines, |ReadLines(testbench)|)
  {
    var lines := ReadLines(testbench);
    var k := |lines| - Min(TailLines, |lines|);
    ReadLinesConcat(testbench);
    ConcatSplitAt(lines, k);
    EndsWithConcat(Concat(lines[..k]), Concat(lines[k..]));
    ReadLinesSuffix(testbench, k);
    if k == 0 {
      assert lines[k..] == lines;
    }
  }

  /** The import the header is keyed on. */
  const ImportOs := "import os"

  /** The imports put in front of an evaluator that lacks `import os`. */
  const ImportHeader := ImportOs + "\nimport subprocess\nimport re\nimport tempfile\nimport logging\n\nlogger = logging.getLogger(__name__)\n\n"

  /** Prepend the header when `import os` appears nowhere in the code. */
  function EnsureImports(code: string): (r: string)
    ensures Contains(r, ImportOs)
    ensures EndsWith(r, code)
    ensures r == code <==> Contains(code, ImportOs)
  {
    EndsWithConcat(ImportHeader, code);
    if Contains(code, ImportOs) then
      assert code[|code| - |code|..] == code;
      code
    else
      assert OccursAt(ImportHeader, ImportOs, 0);
      OccursInConcat(ImportHeader, code, ImportOs, 0);
      ImportHeader + code
  }

  /** Ensuring the imports twice is ensuring them once. */
  lemma {:induction false} EnsureImportsIdempotent(code: string)
    ensures EnsureImports(EnsureImports(code)) == EnsureImports(code)
  {
  }

  /** The initial program, from the LLM's reply. */
  function InitialCode(reply: string): (code: string)
    ensures Contains(reply, Tick) ==> !Contains(code, Tick)
  {
    ExtractFenced(reply, VerilogTag)
  }

  /** The evaluator, from the LLM's reply: the Python block, with the
      imports ensured. */
  function EvaluatorCode(reply: string): (code: string)
    ensures Contains(code, ImportOs)
    ensures EndsWith(code, ExtractFenced(reply, PythonTag))
  {
    EnsureImports(ExtractFenced(reply, PythonTag))
  }
}
