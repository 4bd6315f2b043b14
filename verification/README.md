# GemmaEvolve scoring and benchmark logic, modelled in Dafny

GemmaEvolve drives an evolutionary code search over Verilog problems. This
project models the deterministic decisions around that search:

- the scoring rules (`evaluate`) that turn a candidate and the outcome of
  the compiler and simulator into a verdict;
- the benchmark drivers that decide, record and count per problem;
- the dataset-conversion string transforms;
- the profiler's step stack;
- the counting done by the two report scripts.

External tools (`iverilog`, `vvp`, the search child process, the LLM) are
not run: their outcomes are inputs to the model.

## Model

| member | source | states |
|---|---|---|
| Text.Strip | scripts/fix_evaluators.py:48 | `str.strip()`: the result stands in the text after the leading whitespace run, every character outside it is whitespace, and it neither starts nor ends with whitespace |
| Text.LineCountSplitLines | scripts/fix_evaluators.py:90 | the line count `len(code.strip().splitlines())` equals the number of `\n`-separated pieces of the stripped text |
| Text.SplitJoin | convert_problems.py:231 | joining the pieces of a split with the separator gives the text back |
| Verdicts.ConcisenessBonus | scripts/fix_evaluators.py:94 | the bonus lies in [0, 0.1], is 0 exactly from 100 lines on, and below that is 0.001 per missing line |
| Verdicts.Combine | scripts/fix_evaluators.py:90-94 | the combined score is the accuracy, plus the bonus exactly when the accuracy is 1.0 |
| Verdicts.CombineSolved | scripts/fix_evaluators.py:90-94 | for accuracies up to 1, combined ≥ 1.0 iff accuracy == 1.0 |
| Verdicts.FixturePath | examples/verilog_eval/Prob113_2012_q1g/evaluator.py:23-24 | fixtures resolve to absolute paths under the evaluator's own directory, whatever the working directory |
| TempFiles.OnDiskIff | scripts/fix_evaluators.py:104-108 | after a sequence of writes and `if os.path.exists(f): os.remove(f)` steps, a file is on disk exactly when some step writes it and no later step removes it |
| Verdicts.Written | examples/verilog_optimization/evaluator.py:33-49 | a rule writes the candidate on every path and the executable exactly when the compiler built it |
| Verdicts.FinallyCleanup | scripts/fix_evaluators.py:104-108 | removing both files in `finally` leaves no temp file, whatever was written |
| Verdicts.SuccessCleanup | examples/verilog_eval_ori/Prob025_reduction/evaluator.py:78-93 | removing the candidate on the success path only and the executable in `finally` leaves the candidate exactly when the success path did not run |
| CountPattern.SearchRendered | scripts/fix_evaluators.py:81 | the leftmost-match search reads back the numbers of a printed `Mismatches: E in T` line |
| CurrentRule.CompileCredit | scripts/fix_evaluators.py:48-54 | compile credit is 0.1 iff the text names `TopModule`, 0 iff it neither names it nor has a line and the word `module` in any case, 0.05 otherwise |
| CurrentRule.TopModuleLooksLikeModule | scripts/fix_evaluators.py:51-54 | a text naming `TopModule` also passes the 0.05 test |
| CurrentRule.CompileFailure | scripts/fix_evaluators.py:46-60 | a failed compile scores its credit with accuracy 0 and the stripped line count; the error begins `Compilation failed:` and carries the compiler output |
| CurrentRule.RuntimeFailure | scripts/fix_evaluators.py:66-73 | a failed simulation scores 0.15 with accuracy 0; the error begins `Runtime error:` and carries the simulator output |
| CurrentRule.RuntimeFailureOutranksCompileFailure | scripts/fix_evaluators.py:50-71 | every failed simulation scores above every failed compile |
| CurrentRule.TimeoutScoresNothing | scripts/fix_evaluators.py:102-103 | a time-out of either tool reaches the generic handler: all zeros, not 0.15 |
| CurrentRule.ParseAccuracy | scripts/fix_evaluators.py:76-87 | `PASS` anywhere gives 1.0; every accuracy read is at most 1; without `PASS`, a missing `Mismatches:` key or an unparsable count gives 0.0; it divides by zero (no reading) exactly when there is no `PASS` and the `Mismatches: E in T` line has T = 0 |
| CurrentRule.Score | scripts/fix_evaluators.py:41-103 | every verdict has accuracy ≤ 1 and a line count, and its combined score reaches 1.0 iff its accuracy is 1.0 |
| CurrentRule.Evaluate | scripts/fix_evaluators.py:25-108 | replaying its file steps, no temp file is left on any path; the executable is written exactly when the compiler built it; combined ≥ 1.0 iff accuracy is 1.0 |
| CurrentRule.FileArgument | scripts/fix_evaluators.py:28-30 | a path to an existing file is scored as that file's contents |
| CurrentRule.PassDominates | scripts/fix_evaluators.py:77-78 | output with `PASS` scores full marks plus the conciseness bonus, even beside a mismatch report |
| CurrentRule.ParseReport | scripts/fix_evaluators.py:79-85 | a report `Mismatches: E in T` is read as 1 − E/T, and as a division by zero when T is 0 |
| CurrentRule.ReportedMismatches | scripts/fix_evaluators.py:81-85 | a report with T > 0 scores 1 − E/T, which is full marks iff E is 0 |
| CurrentRule.MoreErrorsThanSamples | scripts/fix_evaluators.py:85 | accuracy is not clamped: E > T scores below 0 |
| CurrentRule.ZeroSamples | scripts/fix_evaluators.py:85-103 | `Mismatches: E in 0` ends in the generic handler's all-zero verdict |
| CurrentRule.PerfectIffConfirmed | scripts/fix_evaluators.py:76-87 | full marks iff the simulation finished and printed `PASS`, or its leftmost report counts 0 mismatches in a positive number of samples |
| Fence.ExtractFenced | run_completion_benchmark.py:86-89 | text without a backtick fence comes back unchanged, not even stripped; from a fenced reply the extracted code holds no fence |
| Fence.ExtractIdempotent | benchmark_verilog.py:53-56 | extracting from extracted code changes nothing |
| Fence.FenceRoundTrip | agentic_convert.py:62-65 | a body without backticks and without surrounding whitespace, wrapped in a tagged fence, is extracted exactly |
| StrictRule.SimFailureMessage | examples/verilog_eval_ori/Prob025_reduction/evaluator.py:42-48 | the message is `Simulation Timeout` iff the simulator output mentions `TIMEOUT`, and otherwise `Runtime error: ` followed by the output |
| StrictRule.SampleAccuracy | examples/verilog_eval_ori/Prob025_reduction/evaluator.py:50-68 | the accuracy is at most 1, and is non-zero only through a leftmost samples line with a positive sample count |
| StrictRule.Score | examples/verilog_eval_ori/Prob025_reduction/evaluator.py:27-93 | a line count and no error key exactly on the success path; combined ≥ 1.0 iff accuracy is 1.0; replaying its file steps, the candidate is left on disk exactly on the paths other than success, and nothing else is left |
| StrictRule.Evaluate | examples/verilog_eval_ori/Prob025_reduction/evaluator.py:9-93 | no temp file is left exactly when the verdict has no error key; combined ≥ 1.0 iff accuracy is 1.0 |
| StrictRule.FileArgument | examples/verilog_eval_ori/Prob025_reduction/evaluator.py:11-14 | a path to an existing file is scored as that file's contents |
| StrictRule.FailuresKeepCandidate | examples/verilog_eval_ori/Prob025_reduction/evaluator.py:31-48 | every failed compile or simulation scores 0 and leaves the candidate file on disk |
| StrictRule.SolvedIff | examples/verilog_eval_ori/Prob025_reduction/evaluator.py:50-59 | full marks iff the simulation finished and its leftmost samples line counts 0 mismatches in a positive number of samples |
| StrictRule.PassAloneScoresZero | examples/verilog_eval_ori/Prob025_reduction/evaluator.py:60-68 | output with no `Mismatches:` scores 0, whether or not it says `PASS` |
| StrictRule.SamplesReport | examples/verilog_eval_ori/Prob025_reduction/evaluator.py:52-59 | a printed `Mismatches: E in T samples` line is read as 1 − E/T, and as 0 when T is 0 |
| OneShotRule.Score | examples/verilog_eval/Prob019_m2014_q4f/evaluator.py:16-55 | combined ≥ 1.0 iff accuracy is 1.0; a failed compile or simulation, or any other exception, is the generic handler's verdict: accuracy 0, line count 0, combined 0, and `str(e)` of that exception as the error |
| OneShotRule.Evaluate | examples/verilog_eval/Prob019_m2014_q4f/evaluator.py:6-60 | replaying its file steps, the `finally` leaves no temp file on any path; the executable is written exactly when the compiler built it |
| OneShotRule.NoPartialCredit | agentic_convert.py:87-95 | only a finished simulation earns a positive score |
| OneShotRule.PassScoresFull | examples/verilog_eval/Prob019_m2014_q4f/evaluator.py:27-46 | output with `PASS` scores accuracy 1 plus the conciseness bonus, even beside a mismatch report |
| OneShotRule.ZeroSamplesCrash | examples/verilog_eval/Prob019_m2014_q4f/evaluator.py:31-35 | `Mismatches: E in 0` divides by zero and yields the generic handler's verdict |
| SummaryRule.CompileFailedMessage | examples/verilog_optimization/evaluator.py:49 | the message starts with `Compilation failed: `, the candidate's path and `: `, and ends with the compiler output |
| SummaryRule.Score | examples/verilog_optimization/evaluator.py:33-102 | combined ≥ 1.0 iff accuracy ≥ 1.0; replaying its file steps, a line count and no leftover file exactly on the success path; every other path scores 0 and leaves exactly the candidate; the executable is written exactly when the compiler built it; a simulation whose output has no summary line is rejected as unparsable |
| SummaryRule.Evaluate | examples/verilog_optimization/evaluator.py:25-102 | no temp file is left exactly when the verdict has no error key; combined ≥ 1.0 iff accuracy ≥ 1.0 |
| SummaryRule.FileArgument | examples/verilog_optimization/evaluator.py:28-30 | a path to an existing file is scored as that file's contents |
| SummaryRule.SolvedIff | examples/verilog_optimization/evaluator.py:62-83 | a score of at least 1.0 iff the leftmost summary reports at least one test and no fewer passes than tests |
| SummaryRule.OverfullNoBonus | examples/verilog_optimization/evaluator.py:66-83 | more passes than tests scores P/T above 1, with no conciseness bonus |
| SummaryRule.SummaryReport | examples/verilog_optimization/evaluator.py:62-69 | a printed `SUMMARY: Passed P/T tests` is read as P/T, and as the generic handler's division by zero when T is 0 |
| SummaryRule.CompileFailureKeepsCandidate | examples/verilog_optimization/evaluator.py:44-49 | a failed compile keeps the candidate file and names its path in the error |
| RuleComparison.StrictAgreesOnSamples | examples/verilog_eval_ori/Prob025_reduction/evaluator.py:52-57 | on a samples line with T > 0 and no `PASS`, the strict and the current rule give the same accuracy |
| RuleComparison.PassSplitsRules | examples/verilog_eval_ori/Prob025_reduction/evaluator.py:60-68 | a bare `PASS` is full marks for the current rule and nothing for the strict one |
| RuleComparison.OnlyCurrentRewardsRuntimeFailure | scripts/fix_evaluators.py:66-73 | a failed simulation scores 0.15 under the current rule and 0 under the other three |
| Runs.BaselineFromReply | benchmark_verilog.py:50-86 | the baseline raises exactly when the evaluator raises on the extracted code; otherwise its mode is `pure_gemma` and it saves the code next to the problem |
| Runs.BaselineSolvedIffPerfect | run_completion_benchmark.py:297 | with the current rule as evaluator, the baseline's `score >= 1.0` test holds iff its code scored accuracy 1 |
| Runs.CompletionBaseline | run_completion_benchmark.py:71-119 | a generation time-out is a zero record with mode `pure_gemma_timeout` and no code path; a generation error is raised; only a reply reaches `pure_gemma` |
| Runs.CompletionOverlay | run_completion_benchmark.py:128-130 | the temp config has the original keys plus the two set ones, `target_score` 1.0 and the patience, and every other key unchanged |
| Runs.OverlaysAgree | benchmark_verilog.py:93-95 | setting the two keys in the other order gives the same config |
| Runs.InitialProgram | run_completion_benchmark.py:136-140 | the search starts from the jump-start path when one is given and exists, and from the problem's `initial_program.v` otherwise |
| Runs.InitialProgramExists | benchmark_verilog.py:104-108 | the search always starts from an existing file when the problem has its `initial_program.v` |
| Runs.SearchRecord | run_completion_benchmark.py:172-199 | a non-zero exit is a zero `openevolve_error` record with time 0; mode `openevolve` only through a zero exit and a best-program file; the phase raises iff that file cannot be read; a zero exit without a best-program file is a zero `openevolve_failed_read` record keeping the elapsed time; with the file, the record takes score and accuracy from its metrics (0.0 when absent), the elapsed time and the log |
| Runs.SolvedSearchRead | run_completion_benchmark.py:187-197 | a solved search exited 0 and left a best-program file |
| CompletionBenchmark.IterationLimitPassed | run_completion_benchmark.py:144-151 | the command's `--iterations` argument is a decimal numeral whose value is the iteration limit |
| CompletionBenchmark.RunSearchAsWritten | run_completion_benchmark.py:128-179 | as written, the temp config stays on disk exactly when creating the `logs` directory fails |
| CompletionBenchmark.RunSearch | run_completion_benchmark.py:128-179 | corrected: the temp config is removed on every path, and a record comes back iff the log is set up and the search's record can be read |
| VerilogBenchmark.RunSearch | benchmark_verilog.py:88-152 | the temp config is removed on every path; a record comes back iff the search process started and the best-program file, when present, can be read; records carry no log |
| CompletionBenchmark.CorrectionKeepsRecord | run_completion_benchmark.py:160-199 | the correction changes no record |
| CompletionBenchmark.Tally | run_completion_benchmark.py:242-251 | the rebuilt counters count every result as solved or failed, and count searches as attempted only for failed baselines and as solved only when attempted |
| CompletionBenchmark.BumpCounts | run_completion_benchmark.py:242-251 | the loop's branchy update for one result adds that result's count |
| CompletionBenchmark.ResumeCounters | run_completion_benchmark.py:242-251 | the rebuilding loop computes the fold of the counts over the loaded results |
| CompletionBenchmark.Decide | run_completion_benchmark.py:296-335 | a baseline scoring at least 1.0 is marked solved and its search `"skipped"`; any other baseline gets a search record and `openevolve_solved` says whether that record scored at least 1.0 |
| CompletionBenchmark.EmitConsistent | run_completion_benchmark.py:276-312 | loading the model only when it is not loaded, running the baseline only with it loaded and starting a search only after releasing it keeps the model flag in step with the event history |
| CompletionBenchmark.AcquireConsistent | run_completion_benchmark.py:275-288 | the lazy load and the baseline keep the state consistent |
| CompletionBenchmark.RecordCounts | run_completion_benchmark.py:296-335 | the decision for a problem adds the count of the entry it appends |
| CompletionBenchmark.RecordConsistent | run_completion_benchmark.py:296-341 | after the decision the counters still equal the fold over the results, and the model is released before every search |
| CompletionBenchmark.RecordAppends | run_completion_benchmark.py:337-341 | the decision appends exactly the problem's entry and rewrites the whole list to the results file |
| CompletionBenchmark.StepConsistent | run_completion_benchmark.py:273-341 | one problem's step keeps the counters equal to the fold over the results |
| CompletionBenchmark.Record | run_completion_benchmark.py:296-341 | see `RecordCounts`, `RecordConsistent` and `RecordAppends`: the entry appended, the counters bumped by its count, the list saved |
| CompletionBenchmark.Visit | run_completion_benchmark.py:262-341 | one loop iteration carries the loop's progress invariant from problem i to problem i + 1, skipping problems before `--start` |
| CompletionBenchmark.First | run_completion_benchmark.py:235 | the 0-based index of the 1-based `--start`, 0 for a start below 1 |
| CompletionBenchmark.Stop | run_completion_benchmark.py:262-264 | a positive `--limit` stops the loop at min(limit, problems), otherwise it runs over all problems |
| CompletionBenchmark.Kept | run_completion_benchmark.py:235-240 | a resumed run keeps a prefix of the saved results: the first start − 1 of them, none when not resuming or with no file |
| CompletionBenchmark.EntriesWindow | run_completion_benchmark.py:262-266 | the entries of a window of problems are those problems' entries, in order |
| CompletionBenchmark.EntriesSplit | run_completion_benchmark.py:262-341 | two adjacent windows of entries make the joined window |
| CompletionBenchmark.StepAppends | run_completion_benchmark.py:275-341 | with the model available, a step appends the entry that depends only on that problem and saves the list |
| CompletionBenchmark.Resume | run_completion_benchmark.py:235-251 | a resumed run keeps the saved results before `--start` and rebuilds the counters as their fold |
| CompletionBenchmark.Run | run_completion_benchmark.py:224-341 | after the loop the counters equal the fold over the results, the model discipline held throughout, and with every model load succeeding the results are the kept ones followed by the entries of the problems from `--start` up to the `--limit` cap |
| CompletionBenchmark.ResumeReproducesFreshRun | run_completion_benchmark.py:235-266 | resuming at any `--start` from the file a complete fresh run saved reproduces that run's results, and so its counters |
| CompletionBenchmark.FreshRunAttemptsEveryFailure | run_completion_benchmark.py:302-304 | over the entries the loop writes, the attempted count equals the failed count |
| VerilogBenchmark.FixedIterationBudget | benchmark_verilog.py:112-119 | the command always passes `--iterations 50` and `--log-level WARNING` |
| VerilogBenchmark.Window | benchmark_verilog.py:173-180 | the loop covers the first min(n, limit) problems, none for a limit of 0 or below |
| VerilogBenchmark.Run | benchmark_verilog.py:160-206 | a missing dataset directory or a model that does not load writes nothing and starts no search; otherwise results are written iff neither phase raises on the first min(n, limit) problems (none when the limit is 0 or below), and then there is one entry per problem in order with both records and one search start per problem; every search jump-starts from its baseline's code path |
| ProblemConversion.BaseNameDropsSuffix | convert_problems.py:193 | a name with no earlier occurrence of `_prompt.txt` loses exactly its suffix |
| ProblemConversion.BaseNames | convert_problems.py:191-193 | one base name per prompt file, in order |
| ProblemConversion.ConvertedMembers | convert_problems.py:191-202 | a problem is converted iff its prompt is listed and its test, interface and reference files all exist |
| ProblemConversion.ConvertedPrefix | convert_problems.py:191-202 | the problems converted from a prefix of the prompt list are a prefix of those converted from the whole list |
| ProblemConversion.Converted | convert_problems.py:191-202 | at most one problem per prompt file; which ones is `ConvertedMembers` |
| ProblemConversion.SkeletonStrip | convert_problems.py:213-218 | the stripped initial program is the stripped interface, a blank line and `endmodule`, or `endmodule` alone for a blank interface |
| ProblemConversion.SkeletonLines | convert_problems.py:213-218 | the initial program has two lines more than the interface (its blank line and `endmodule`), or one line for a blank interface |
| ProblemConversion.DescriptionBeforeModule | convert_problems.py:224-227 | the description is the stripped text before the first `module` (the whole prompt when there is none); it holds no `module` and neither starts nor ends with whitespace |
| ProblemConversion.IndentRoundTrip | convert_problems.py:230-231 | splitting the indented text at the indentation gives back the lines |
| ProblemConversion.BaseName | convert_problems.py:192-193 | see `BaseNameDropsSuffix`: the `_prompt.txt` suffix is dropped |
| ProblemConversion.Skeleton | convert_problems.py:213-218 | see `SkeletonStrip` and `SkeletonLines`: the interface, a blank line and `endmodule` |
| ProblemConversion.Description | convert_problems.py:224-227 | see `DescriptionBeforeModule`: the stripped text before the first `module` |
| ProblemConversion.Indent | convert_problems.py:230 | see `IndentRoundTrip`: splitting at the indentation gives back the lines |
| AgenticConversion.ConvertFirst | agentic_convert.py:174-299 | the problems converted are the first three convertible ones in prompt order; skipped problems do not use up the limit |
| AgenticConversion.FirstConversions | agentic_convert.py:175-177 | stopping at the limit or at the end of the list gives the first conversions of the whole list |
| AgenticConversion.ReadLinesConcat | agentic_convert.py:207 | the lines `readlines` gives, with their line ends, join back to the file |
| AgenticConversion.TailIsSuffix | agentic_convert.py:207-208 | the testbench tail is a suffix of the testbench, the whole of it when it has at most 30 lines, and read back into lines it is exactly the last min(30, n) lines |
| AgenticConversion.TestbenchTail | agentic_convert.py:205-208 | see `TailIsSuffix`: exactly the last 30 lines of the test bench, all of it when shorter |
| AgenticConversion.ReadLinesSuffix | agentic_convert.py:207-208 | joining any run of trailing lines and reading it again gives those lines back |
| AgenticConversion.InitialCode | agentic_convert.py:61-66 | from a reply holding a backtick fence, the extracted skeleton holds no fence |
| AgenticConversion.EnsureImports | agentic_convert.py:222-223 | the evaluator code afterwards contains `import os` and ends with the code given, and it is the code unchanged exactly when the code already contains `import os` |
| AgenticConversion.EnsureImportsIdempotent | agentic_convert.py:222-223 | prepending the imports twice is prepending them once |
| AgenticConversion.EvaluatorCode | agentic_convert.py:155-158 | the saved evaluator contains `import os` and ends with the code extracted from the reply |
| Profiling.Start | openevolve/utils/profiling.py:46-50 | the step is pushed on the stack and its start time is the clock reading, replacing any earlier one; every other step's start time and every timing are untouched |
| Profiling.Stop | openevolve/utils/profiling.py:52-65 | a step that is not on top (or an empty stack) changes nothing; otherwise the step is popped, its start time dropped, and its duration recorded as now minus the start when a start was known; every other step's start time and timing is untouched |
| Profiling.Step | openevolve/utils/profiling.py:79-85 | a body that leaves the pushed step on top makes the step leave the stack as it found it |
| Profiling.Enter | openevolve/utils/profiling.py:92-98 | entering makes the profiler active, remembers the previously active one and starts its root step; no other profiler changes |
| Profiling.Exit | openevolve/utils/profiling.py:100-104 | leaving makes the remembered profiler active again; no other profiler changes |
| Profiling.StopMismatchIgnored | openevolve/utils/profiling.py:54-56 | stopping a step that is not on top of the stack changes nothing |
| Profiling.StartStopRecords | openevolve/utils/profiling.py:46-64 | starting then stopping a step restores the stack, drops its start time and records the elapsed time |
| Profiling.StepRestoresStack | openevolve/utils/profiling.py:79-85 | a step whose body leaves the stack as it found it leaves the stack unchanged |
| Profiling.NestedSameNameKeepsInner | openevolve/utils/profiling.py:46-64 | for a step nested in a step of the same name, only the inner duration is recorded |
| Profiling.StartKeepsSane | openevolve/utils/profiling.py:46-50 | with a monotone clock, starting keeps every start time in the past and every duration non-negative |
| Profiling.StopKeepsSane | openevolve/utils/profiling.py:52-65 | with a monotone clock, stopping records a non-negative duration |
| Profiling.EnterExitRestores | openevolve/utils/profiling.py:92-104 | a `with` block whose body balances its steps and does not enter the profiler again restores the previously active profiler and the profiler's stack, and times the root step |
| Profiling.ReentryKeepsActive | openevolve/utils/profiling.py:92-104 | as written, entering a profiler inside its own block leaves it active after both blocks, instead of the profiler active before them |
| Profiling.StackedEnterExitRestores | openevolve/utils/profiling.py:92-104 | corrected: with the previous profilers kept on a stack, any block whose body balances that stack, re-entry included, restores the previously active profiler |
| Profiling.ReentryRestoresActive | openevolve/utils/profiling.py:92-104 | corrected: leaving a re-entered profiler's two blocks makes the profiler active before them active again |
| Profiling.ProfileStep | openevolve/utils/profiling.py:107-124 | with no active profiler, the body runs and no profiler stores anything |
| Profiling.WithBlockCollectsSteps | openevolve/utils/profiling.py:92-124 | a `profile_step` inside a `with` block records on the profiler object the block entered: leaving the block, it holds the step's duration and the root step's |
| BenchmarkCharts.ShortenName | benchmark_results_chart.py:40-42 | after `Prob` becomes `P`, the name keeps its length and every character but `_`; the first `_` becomes a line break and every later one a space, so none is left |
| Text.ReplaceAllCharPointwise | benchmark_results_chart.py:42 | `replace(c, d)` with one-character arguments maps the text position by position |
| Text.ReplaceFirstCharPointwise | benchmark_results_chart.py:42 | `replace(c, d, 1)` with one-character arguments changes only the first position holding `c` |
| BenchmarkCharts.OutcomesAsWritten | benchmark_results_chart.py:67-69 | as written, wins + ties + losses is the number of pairs |
| BenchmarkCharts.LossesAsWritten | benchmark_results_chart.py:67-69 | the losses as written are the clear losses minus the near ties |
| BenchmarkCharts.NegativeLosses | benchmark_results_chart.py:67-69 | one near-tie pair gives one win, one tie and −1 losses |
| BenchmarkCharts.Outcomes | benchmark_results_chart.py:67-69 | corrected: wins + ties + losses is the number of pairs, each count non-negative |
| BenchmarkCharts.KindsPartition | benchmark_results_chart.py:67-69 | corrected: every pair is exactly one of a clear win, a tie and a clear loss |
| BenchmarkCharts.OutcomesAgreeWithoutNearTies | benchmark_results_chart.py:67-69 | the correction agrees with the numbers as written whenever no pair is a near tie |
| BenchmarkCharts.Pie | benchmark_results_chart.py:126-131 | there is one slice per positive count, each sized by its count and in strict win < tie < loss order (so none twice), or the one placeholder when none is positive; completion_benchmark_results_chart.py:146-150 filters the same way |
| CompletionCharts.RowOf | completion_benchmark_results_chart.py:62-79 | a skipped search copies the baseline's score and accuracy; a search entry that is neither a record nor `"skipped"` stops the script |
| CompletionCharts.WrittenEntriesChart | completion_benchmark_results_chart.py:69-77 | every entry the completion benchmark writes has a row |
| CompletionCharts.SkippedRowIsTie | completion_benchmark_results_chart.py:69-83 | a skipped search is a tie, never a win or a loss |
| CompletionCharts.Rows | completion_benchmark_results_chart.py:62-79 | the script gets through the results iff every result has a row, one per result in order |
| CompletionCharts.SkippedRowsTie | completion_benchmark_results_chart.py:69-84 | with every search skipped, both sides solve the same number of problems and every pair is a tie |
| CompletionCharts.PassRateBounds | completion_benchmark_results_chart.py:89-90 | a pass rate is a percentage between 0 and 100; it is 0 with no results, and 100 exactly when every result is solved |
| CompletionCharts.PassRate | completion_benchmark_results_chart.py:89-90 | see `PassRateBounds`: a percentage in [0, 100], 0 with no results, 100 iff all are solved |
| CompletionCharts.Solved | completion_benchmark_results_chart.py:59-79 | see `SolvedCounts`: the rows whose accuracy on that side is at least 1.0 |
| CompletionCharts.SolvedCounts | completion_benchmark_results_chart.py:62-79 | a side's solved count is the number of rows whose accuracy on that side is at least 1.0; the score plays no part |
| CompletionCharts.Summary | completion_benchmark_results_chart.py:59-90 | the figures cover every result; each pass rate is the percentage of rows whose accuracy on that side is at least 1.0 and lies in [0, 100]; the split is the corrected win/tie/loss count of the score pairs, summing to the number of results |

## Left out

- Running `iverilog`, `vvp`, the search process and the LLM: their outcomes are inputs.
- `tempfile` naming: the temp files are the three names `CandidateFile`, `ExecutableFile` and `ConfigFile`, unique by assumption.
- Verdicts.Compiled: an exception other than a failed tool run is taken to come before the compiler built the executable; this decides only whether the executable is written, and every rule removes it in `finally` anyway.
- CountPattern: `\d` is read as the ASCII digits 0-9, while Python's `\d` also matches other Unicode decimal digits; simulator reports print ASCII digits.
- Profiling.EnterExitRestores: promised only for a body that does not enter the same profiler again, because as written re-entry overwrites the remembered profiler (see Findings).
- Profiling.Exit: meant to follow Enter; a never-entered profiler has no remembered profiler (`prev` is `None`), so the model makes no profiler active, while as written `__exit__` raises AttributeError because `_prev_profiler` is set only by `__enter__`.
- Profiling: profiler objects are named by identity in an explicit world; Python objects never go away, so an identity outside the world is never used.
- File, JSON and YAML reading and writing, logging, printing and timestamps: the saved list, the existing files and the loaded config are inputs.
- The threaded generation time-out of the completion benchmark: only its outcome is modelled (`Generation`).
- Plotting and the averaged bars of both chart scripts: only the counting is modelled.
- Floating point: scores are exact reals, and the tie tolerance is the real 0.000001.
- `splitlines` splits on `\n` only; Python also splits on `\r` and other line breaks.
- `get_timings` returns a copy of the timings; with immutable values every read is already a copy.
- The YAML config text `agentic_convert.py` writes, and the evaluator text the LLM writes: both are text copied through.
- The per-problem `evaluator.py` files the LLM generated: they are one-off shims, not a rule.
- Chart input validation: records of the Verilog benchmark always hold both phase records, so the chart script's key lookups are not modelled.
- CompletionBenchmark.Run: the results are described only when every model load succeeds; a failed load gives the baseline error record, which the step lemmas cover one problem at a time.
- CompletionCharts.Summary: uses the corrected win/tie/loss split; the script's own numbers are `OutcomesAsWritten`, which equal it when no pair is a near tie.
- ProblemConversion.Converted: its own contract bounds only the length; membership is stated by `ConvertedMembers`.

## Findings

| source | as written | input that shows it | evidently intended | confidence | as-written member | corrected member |
|---|---|---|---|---|---|---|
| run_completion_benchmark.py:132-179 | the `logs` directory is created after the temp config is written but before the `try` whose `finally` removes it | creating `logs` raises (for instance a file named `logs` exists) | the temp config is removed on every path | medium, not executed | CompletionBenchmark.RunSearchAsWritten | CompletionBenchmark.RunSearch |
| benchmark_results_chart.py:67-69 | a pair with 0 < e − b < 0.000001 counts as a win and as a tie, and losses is n − wins − ties; completion_benchmark_results_chart.py:82-84 repeats it | one pair with baseline 0.5 and search 0.5000005 gives 1 win, 1 tie, −1 losses | wins, ties and losses partition the pairs | high, not executed | BenchmarkCharts.NegativeLosses | BenchmarkCharts.Outcomes |
| openevolve/utils/profiling.py:92-104 | `__enter__` keeps the previously active profiler in one attribute of the profiler, so entering the same profiler again overwrites it with the profiler itself | `with p:` inside `with p:` while another profiler q (or none) is active: after both blocks p is still active | leaving a block makes the profiler active before it active again | low, not executed | Profiling.ReentryKeepsActive | Profiling.ReentryRestoresActive |
