/** The two phases both benchmark drivers run on one problem, with the
    LLM, the evaluator and the search process as inputs:
    - the baseline (`run_pure_gemma`): one LLM reply, fenced code pulled
      out of it, that code scored by the problem's evaluator;
    - the search (`run_openevolve`): the problem's config with two keys
      overlaid, written to a temp file; the search process started on an
      initial program; its exit status and best-program file mapped to a
      record. */
module Runs {
  import opened Common
  import opened Text
  import opened Numerals
  import opened Fence
  import opened TempFiles
  import opened Verdicts
  import CurrentRule

  /** The `mode` of a phase's record. */
  datatype Mode =
    | PureGemma | PureGemmaTimeout | PureGemmaError
    | Openevolve | OpenevolveError | OpenevolveFailedRead

  /** A phase's record `{score, accuracy, time, mode}`. The baseline adds
      `code_path`, the completion benchmark's search adds `log`. */
  datatype RunRecord = RunRecord(score: real, accuracy: real, time: real, mode: Mode, codePath: Option<string>, log: Option<string>)

  /** A record that scored nothing. */
  function ZeroRecord(mode: Mode, time: real, log: Option<string>): RunRecord {
    RunRecord(0.0, 0.0, time, mode, None, log)
  }

  /** `SCORE_THRESHOLD`: a phase solved its problem when it scored at least this. */
  const SolvedThreshold := 1.0

  predicate Solved(r: RunRecord) {
    r.score >= SolvedThreshold
  }

  /** The `combined_score` and `accuracy` entries of a metrics dictionary,
      each absent or present. */
  datatype Metrics = Metrics(combined: Option<real>, accuracy: Option<real>)

  /** A scoring rule's verdict seen as a metrics dictionary: every rule
      returns both keys. */
  function MetricsOf(v: Verdict): Metrics {
    Metrics(Some(v.combined), Some(v.accuracy))
  }

  /** A record read from metrics, with `.get(key, 0.0)` for each score. */
  function FromMetrics(m: Metrics, time: real, mode: Mode, codePath: Option<string>, log: Option<string>): (r: RunRecord)
    ensures r.score == (if m.combined.Some? then m.combined.value else 0.0)
    ensures r.accuracy == (if m.accuracy.Some? then m.accuracy.value else 0.0)
  {
    RunRecord(m.combined.GetOr(0.0), m.accuracy.GetOr(0.0), time, mode, codePath, log)
  }

  /** Where the baseline's code is saved. */
  function BaselineCodePath(problemDir: string): string {
    PathJoin(problemDir, "baseline_generated.v")
  }

  /** The baseline once the LLM has replied with `reply`: the fenced code is
      scored by `evaluate`, which yields `None` when the evaluator raises;
      the baseline then raises too. */
  function BaselineFromReply(problemDir: string, reply: string, evaluate: string -> Option<Metrics>, elapsed: real): (r: Option<RunRecord>)
    ensures r.Some? <==> evaluate(ExtractFenced(reply, VerilogTag)).Some?
    ensures r.Some? ==> r.value.mode == PureGemma && r.value.codePath == Some(BaselineCodePath(problemDir))
  {
    var code := ExtractFenced(reply, VerilogTag);
    match evaluate(code)
    case None => None
    case Some(m) => Some(FromMetrics(m, elapsed, PureGemma, Some(BaselineCodePath(problemDir)), None))
  }

  /** With the current scoring rule as the evaluator, the baseline's solved
      test `score >= 1.0` is the test that its code scored full accuracy. */
  lemma {:induction false} BaselineSolvedIffPerfect(problemDir: string, reply: string, evaluate: string -> Option<Metrics>, elapsed: real, outcome: ToolOutcome)
    requires evaluate(ExtractFenced(reply, VerilogTag))
             == Some(MetricsOf(CurrentRule.Evaluate(ExtractFenced(reply, VerilogTag), None, outcome).verdict))
    ensures BaselineFromReply(problemDir, reply, evaluate, elapsed).Some?
    ensures Solved(BaselineFromReply(problemDir, reply, evaluate, elapsed).value)
            <==> CurrentRule.Evaluate(ExtractFenced(reply, VerilogTag), None, outcome).verdict.accuracy == 1.0
  {
  }

  /** How the LLM call of the completion benchmark's baseline ended: it
      outlived the thread's time limit, raised, or replied. */
  datatype Generation = GenTimedOut | GenRaised | GenReply(content: string)

  /** `run_pure_gemma` of the completion benchmark: a time-out is a zero
      record without saved code; an LLM error is raised (`None`). */
  function CompletionBaseline(problemDir: string, gen: Generation, evaluate: string -> Option<Metrics>, elapsed: real): (r: Option<RunRecord>)
    ensures gen.GenTimedOut? ==> r == Some(ZeroRecord(PureGemmaTimeout, elapsed, None))
    ensures gen.GenRaised? ==> r.None?
    ensures r.Some? && r.value.mode == PureGemma ==> gen.GenReply?
  {
    match gen
    case GenTimedOut => Some(ZeroRecord(PureGemmaTimeout, elapsed, None))
    case GenRaised => None
    case GenReply(content) => BaselineFromReply(problemDir, content, evaluate, elapsed)
  }

  /** A configuration value, as `yaml.safe_load` returns it. */
  datatype Yaml = YFloat(f: real) | YInt(i: int) | YText(text: string) | YOther(source: string)

  const TargetScoreKey := "target_score"
  const PatienceKey := "early_stopping_patience"

  /** The temp config of the completion benchmark: `target_score` set
      first, then the patience. */
  function CompletionOverlay(config: map<string, Yaml>, patience: int): (c: map<string, Yaml>)
    ensures c.Keys == config.Keys + {TargetScoreKey, PatienceKey}
    ensures c[TargetScoreKey] == YFloat(1.0) && c[PatienceKey] == YInt(patience)
    ensures forall k :: k in config && k != TargetScoreKey && k != PatienceKey ==> c[k] == config[k]
  {
    config[TargetScoreKey := YFloat(1.0)][PatienceKey := YInt(patience)]
  }

  /** The temp config of the Verilog benchmark: the patience set first. */
  function VerilogOverlay(config: map<string, Yaml>, patience: int): map<string, Yaml> {
    config[PatienceKey := YInt(patience)][TargetScoreKey := YFloat(1.0)]
  }

  /** The two drivers set the same two keys in opposite order, to the same
      effect. */
  lemma {:induction false} OverlaysAgree(config: map<string, Yaml>, patience: int)
    ensures VerilogOverlay(config, patience) == CompletionOverlay(config, patience)
  {
  }

  /** The program the search starts from: the jump-start file when one is
      named (a non-empty path) and exists, the problem's
      `initial_program.v` otherwise. */
  function InitialProgram(problemDir: string, jumpstart: Option<string>, existing: set<string>): (p: string)
    ensures jumpstart.Some? && jumpstart.value != [] && jumpstart.value in existing ==> p == jumpstart.value
    ensures !(jumpstart.Some? && jumpstart.value != [] && jumpstart.value in existing) ==> p == PathJoin(problemDir, "initial_program.v")
  {
    if jumpstart.Some? && jumpstart.value != [] && jumpstart.value in existing then jumpstart.value
    else PathJoin(problemDir, "initial_program.v")
  }

  /** The search always starts from a file that exists when the problem has
      its `initial_program.v`. */
  lemma {:induction false} InitialProgramExists(problemDir: string, jumpstart: Option<string>, existing: set<string>)
    requires PathJoin(problemDir, "initial_program.v") in existing
    ensures InitialProgram(problemDir, jumpstart, existing) in existing
  {
  }

  /** The search process's command line. */
  function SearchCommand(python: string, initial: string, evaluator: string, config: string, iterations: string, logLevel: string): seq<string> {
    [python, "-m", "openevolve.cli", initial, evaluator, "--config", config, "--iterations", iterations, "--log-level", logLevel]
  }

  /** What the search left in `openevolve_output/best/best_program_info.json`:
      no file, a file `json.load` cannot read, or its `metrics` entry. */
  datatype BestInfo = NoBestFile | Unreadable | BestMetrics(metrics: Metrics)

  /** The record of a search that ran and exited with `status`, or `None`
      when reading the best-program file raised. A non-zero exit is a zero
      record with time 0; a zero exit reads the best-program file. */
  function SearchRecord(status: int, best: BestInfo, elapsed: real, log: Option<string>): (r: Option<RunRecord>)
    ensures status != 0 ==> r == Some(ZeroRecord(OpenevolveError, 0.0, log))
    ensures r.Some? && r.value.mode == Openevolve ==> status == 0 && best.BestMetrics?
    ensures r.None? <==> status == 0 && best.Unreadable?
    ensures status == 0 && best.NoBestFile? ==> r == Some(ZeroRecord(OpenevolveFailedRead, elapsed, log))
    ensures status == 0 && best.BestMetrics? ==>
              && r.Some? && r.value.mode == Openevolve && r.value.time == elapsed
              && r.value.score == best.metrics.combined.GetOr(0.0)
              && r.value.accuracy == best.metrics.accuracy.GetOr(0.0)
              && r.value.log == log
  {
    if status != 0 then Some(ZeroRecord(OpenevolveError, 0.0, log))
    else
      match best
      case BestMetrics(m) => Some(FromMetrics(m, elapsed, Openevolve, None, log))
      case Unreadable => None
      case NoBestFile => Some(ZeroRecord(OpenevolveFailedRead, elapsed, log))
  }

  /** A search phase's record (`None`: it raised) and the file steps it
      took on its temp config. */
  datatype SearchPhase = SearchPhase(record: Option<RunRecord>, files: seq<FileOp>)

  /** The phase left its temp config on disk. */
  predicate ConfigLeft(p: SearchPhase) {
    ConfigFile in OnDisk(p.files)
  }

  /** A search can only be solved through a best-program file. */
  lemma {:induction false} SolvedSearchRead(status: int, best: BestInfo, elapsed: real, log: Option<string>)
    requires SearchRecord(status, best, elapsed, log).Some? && Solved(SearchRecord(status, best, elapsed, log).value)
    ensures status == 0 && best.BestMetrics?
  {
  }
}
