/** `benchmark_verilog.py`: with the model loaded once, run the baseline and
    then the search on each of the first `--limit` problems, starting every
    search from the baseline's saved code, and write all comparisons once at
    the end. Nothing guards the runs: an exception in either aborts the
    whole benchmark before anything is written.

    The baseline's and the search's records are inputs, one `Outcome` per
    problem (`None`: the run raised). */
module VerilogBenchmark {
  import opened Common
  import opened Text
  import opened Numerals
  import opened TempFiles
  import opened Runs

  /** The search's command line: a fixed budget of 50 iterations and
      warnings only, whatever the patience. */
  function SearchCommandFor(python: string, problemDir: string, initial: string): seq<string> {
    SearchCommand(python, initial, PathJoin(problemDir, "evaluator.py"),
                  PathJoin(problemDir, "gemma_config_benchmark.yaml"), "50", "WARNING")
  }

  /** Every search gets the same budget: the iteration argument reads as 50. */
  lemma {:induction false} FixedIterationBudget(python: string, problemDir: string, initial: string)
    ensures var cmd := SearchCommandFor(python, problemDir, initial);
            && cmd[7] == "--iterations" && AllDigits(cmd[8]) && DigitsValue(cmd[8]) == 50
            && cmd[9] == "--log-level" && cmd[10] == "WARNING"
  {
    assert DigitsValue("50") == 10 * DigitsValue("5") + 0;
  }

  /** `run_openevolve`: the temp config is written, the search process runs
      inside a `try` whose `finally` removes the config, and then the
      best-program file is read. `launched` is false when starting the
      process raised something other than a non-zero exit; that exception
      propagates once the `finally` has run. Records carry no log. */
  function RunSearch(launched: bool, status: int, best: BestInfo, elapsed: real): (p: SearchPhase)
    ensures !ConfigLeft(p)
    ensures p.record.Some? <==> launched && !(status == 0 && best.Unreadable?)
    ensures p.record.Some? ==> p.record.value.log.None?
  {
    var removed := Then(Then([], Write(ConfigFile)), RemoveIfExists(ConfigFile));
    if launched then SearchPhase(SearchRecord(status, best, elapsed, None), removed)
    else SearchPhase(None, removed)
  }

  /** What the baseline and the search returned for one problem. */
  datatype Outcome = Outcome(baseline: Option<RunRecord>, search: Option<RunRecord>)

  /** One written result `{problem, baseline, openevolve}`. */
  datatype Comparison = Comparison(problem: string, baseline: RunRecord, openevolve: RunRecord)

  /** How many problems the loop reaches: `i >= limit` stops it, so a limit
      of 0 or below runs none. */
  function Window(n: nat, limit: int): (w: nat)
    ensures w <= n
    ensures limit <= 0 ==> w == 0
    ensures limit > 0 ==> (w == n <==> limit >= n) && (w < n ==> w == limit)
  {
    if limit <= 0 then 0 else Min(n, limit)
  }

  /** Neither run raised on the first `w` problems. */
  predicate Completes(outcomes: seq<Outcome>, w: nat)
    requires w <= |outcomes|
  {
    forall k :: 0 <= k < w ==> outcomes[k].baseline.Some? && outcomes[k].search.Some?
  }

  /** The driver. `datasetFound` is whether the dataset directory exists
      (otherwise it returns at once); `modelLoaded` is whether `Llama(...)`
      loads the baseline model (otherwise it raises, as it does when
      `llama_cpp` is missing). `written` is the results file (`None`: never
      written); `starts` is the initial program each search was handed. */
  method Run(datasetFound: bool, modelLoaded: bool, names: seq<string>, outcomes: seq<Outcome>, limit: int)
    returns (written: Option<seq<Comparison>>, starts: seq<Option<string>>)
    requires |names| == |outcomes|
    ensures !datasetFound || !modelLoaded ==> written.None? && starts == []
    ensures written.Some? <==> datasetFound && modelLoaded && Completes(outcomes, Window(|names|, limit))
    ensures written.Some? ==> |written.value| == Window(|names|, limit)
    ensures written.Some? ==> forall k :: 0 <= k < |written.value| ==>
              written.value[k] == Comparison(names[k], outcomes[k].baseline.value, outcomes[k].search.value)
    ensures |starts| <= Window(|names|, limit)
    ensures written.Some? ==> |starts| == Window(|names|, limit)
    ensures forall k :: 0 <= k < |starts| ==> outcomes[k].baseline.Some? && starts[k] == outcomes[k].baseline.value.codePath
  {
    if !datasetFound || !modelLoaded {
      return None, [];
    }
    var results: seq<Comparison> := [];
    starts := [];
    var i := 0;
    while i < |names|
      invariant i <= Window(|names|, limit)
      invariant |results| == i && |starts| == i
      invariant Completes(outcomes, i)
      invariant forall k :: 0 <= k < i ==>
                  results[k] == Comparison(names[k], outcomes[k].baseline.value, outcomes[k].search.value)
      invariant forall k :: 0 <= k < i ==> starts[k] == outcomes[k].baseline.value.codePath
    {
      if i >= limit {
        break;
      }
      var baseline := outcomes[i].baseline;
      if baseline.None? {
        return None, starts;
      }
      starts := starts + [baseline.value.codePath];
      var search := outcomes[i].search;
      if search.None? {
        return None, starts;
      }
      results := results + [Comparison(names[i], baseline.value, search.value)];
      i := i + 1;
    }
    written := Some(results);
  }
}
