/** `run_completion_benchmark.py`: for each problem, run the baseline; run
    the search only when the baseline did not solve the problem; append the
    problem's entry to the results and rewrite the results file. A run can
    resume at a later problem: it keeps the saved entries before it and
    rebuilds the counters by folding over them.

    The LLM, the evaluator, the search process and the file system are
    inputs: a `Trial` per problem says whether loading the model succeeds,
    what the baseline returned (`None`: it raised) and what the search
    returned (`None`: it raised). */
module CompletionBenchmark {
  import opened Common
  import opened Text
  import opened Numerals
  import opened TempFiles
  import opened Runs

  // ----- run_openevolve -------------------------------------------------

  /** The temp config written next to the problem. */
  const TempConfigName := "gemma_config_benchmark.yaml"

  /** The search's command line: the iteration limit as a decimal numeral,
      full debug logging. */
  function SearchCommandFor(python: string, problemDir: string, initial: string, maxIterations: int): seq<string> {
    SearchCommand(python, initial, PathJoin(problemDir, "evaluator.py"), PathJoin(problemDir, TempConfigName),
                  IntToString(maxIterations), "DEBUG")
  }

  /** The search process reads back exactly the iteration limit it was given. */
  lemma {:induction false} IterationLimitPassed(python: string, problemDir: string, initial: string, maxIterations: nat)
    ensures var cmd := SearchCommandFor(python, problemDir, initial, maxIterations);
            && cmd[7] == "--iterations"
            && AllDigits(cmd[8]) && DigitsValue(cmd[8]) == maxIterations
  {
  }

  /** How far setting up the search's log file got: creating the `logs`
      directory raised, opening the log file raised, or the log is ready. */
  datatype LogSetup = LogsDirFails | LogFileFails | LogReady

  /** `run_openevolve` as written: the `logs` directory is created after
      the temp config is written but before the `try` whose `finally`
      removes it, so a failure there leaves the temp config behind. */
  function RunSearchAsWritten(setup: LogSetup, status: int, best: BestInfo, elapsed: real, log: string): (p: SearchPhase)
    ensures ConfigLeft(p) <==> setup.LogsDirFails?
  {
    var written := Then([], Write(ConfigFile));
    var removed := Then(written, RemoveIfExists(ConfigFile));
    match setup
    case LogsDirFails => SearchPhase(None, written)
    case LogFileFails => SearchPhase(None, removed)
    case LogReady => SearchPhase(SearchRecord(status, best, elapsed, Some(log)), removed)
  }

  /** `run_openevolve` with the `try` opened right after the temp config is
      written: the temp config is removed on every path. */
  function RunSearch(setup: LogSetup, status: int, best: BestInfo, elapsed: real, log: string): (p: SearchPhase)
    ensures !ConfigLeft(p)
    ensures p.record.Some? <==> setup.LogReady? && SearchRecord(status, best, elapsed, Some(log)).Some?
  {
    var removed := Then(Then([], Write(ConfigFile)), RemoveIfExists(ConfigFile));
    match setup
    case LogsDirFails => SearchPhase(None, removed)
    case LogFileFails => SearchPhase(None, removed)
    case LogReady => SearchPhase(SearchRecord(status, best, elapsed, Some(log)), removed)
  }

  /** The correction changes only what is left on disk, never the record. */
  lemma {:induction false} CorrectionKeepsRecord(setup: LogSetup, status: int, best: BestInfo, elapsed: real, log: string)
    ensures RunSearch(setup, status, best, elapsed, log).record == RunSearchAsWritten(setup, status, best, elapsed, log).record
  {
  }

  // ----- entries and the resume fold --------------------------------------

  /** The `openevolve` entry of a result: absent, the text `"skipped"`,
      some other non-dictionary value, or a search record. */
  datatype SearchField = Missing | Skipped | OtherValue | Ran(record: RunRecord)

  /** `isinstance(r.get("openevolve", {}), dict)`: an absent entry defaults
      to an empty dictionary. */
  predicate IsDict(f: SearchField) {
    f.Missing? || f.Ran?
  }

  /** One result `{problem, baseline, openevolve, gemma_solved,
      openevolve_solved}`; the last two may be absent in a loaded file. */
  datatype Entry = Entry(problem: string, baseline: RunRecord, openevolve: SearchField,
                         gemmaSolved: Option<bool>, openevolveSolved: Option<bool>)

  /** The summary counters. */
  datatype Counters = Counters(gemmaSolved: nat, gemmaFailed: nat, attempted: nat, openevolveSolved: nat)

  const NoCounts := Counters(0, 0, 0, 0)

  /** What one result adds to the counters when they are rebuilt. */
  function Count(e: Entry): Counters {
    if e.gemmaSolved == Some(true) then Counters(1, 0, 0, 0)
    else if IsDict(e.openevolve) then Counters(0, 1, 1, if e.openevolveSolved == Some(true) then 1 else 0)
    else Counters(0, 1, 0, 0)
  }

  function Plus(a: Counters, b: Counters): Counters {
    Counters(a.gemmaSolved + b.gemmaSolved, a.gemmaFailed + b.gemmaFailed,
             a.attempted + b.attempted, a.openevolveSolved + b.openevolveSolved)
  }

  /** The counters folded over a result list, first result first. Every
      result is solved or failed, and searches are attempted only for failed
      baselines and solved only when attempted. */
  function Tally(rs: seq<Entry>): (c: Counters)
    ensures c.gemmaSolved + c.gemmaFailed == |rs|
    ensures c.openevolveSolved <= c.attempted <= c.gemmaFailed
  {
    if rs == [] then NoCounts else Plus(Tally(rs[..|rs| - 1]), Count(rs[|rs| - 1]))
  }

  /** Folding one more result adds its count. */
  lemma {:induction false} TallySnoc(rs: seq<Entry>, e: Entry)
    ensures Tally(rs + [e]) == Plus(Tally(rs), Count(e))
  {
    assert (rs + [e])[..|rs|] == rs;
  }

  /** The resume loop's update for one result, branch by branch. */
  function Bump(c: Counters, r: Entry): Counters {
    if r.gemmaSolved == Some(true) then c.(gemmaSolved := c.gemmaSolved + 1)
    else if IsDict(r.openevolve) then
      c.(gemmaFailed := c.gemmaFailed + 1, attempted := c.attempted + 1,
         openevolveSolved := c.openevolveSolved + if r.openevolveSolved == Some(true) then 1 else 0)
    else c.(gemmaFailed := c.gemmaFailed + 1)
  }

  /** The update adds the result's count. */
  lemma {:induction false} BumpCounts(c: Counters, r: Entry)
    ensures Bump(c, r) == Plus(c, Count(r))
  {
  }

  /** Folding one result further into a list. */
  lemma {:induction false} TallyPrefix(rs: seq<Entry>, k: nat)
    requires k < |rs|
    ensures Tally(rs[..k + 1]) == Plus(Tally(rs[..k]), Count(rs[k]))
  {
    assert rs[..k + 1] == rs[..k] + [rs[k]];
    TallySnoc(rs[..k], rs[k]);
  }

  /** The rebuilding loop of a resumed run. */
  method ResumeCounters(results: seq<Entry>) returns (c: Counters)
    ensures c == Tally(results)
  {
    c := NoCounts;
    var k := 0;
    while k < |results|
      invariant 0 <= k <= |results|
      invariant c == Tally(results[..k])
    {
      BumpCounts(c, results[k]);
      c := Bump(c, results[k]);
      TallyPrefix(results, k);
      k := k + 1;
    }
    assert results[..k] == results;
  }

  // ----- one problem --------------------------------------------------------

  /** The baseline record when the model could not be loaded or the
      baseline raised. */
  const BaselineError := ZeroRecord(PureGemmaError, 0.0, None)

  /** The search record when the search raised. */
  const SearchError := ZeroRecord(OpenevolveError, 0.0, None)

  /** A problem's entry: a solved baseline skips the search; otherwise the
      search's record is kept, and it solved the problem when it scored at
      least the threshold. */
  function Decide(problem: string, baseline: RunRecord, search: Option<RunRecord>): (e: Entry)
    ensures e.problem == problem && e.baseline == baseline
    ensures e.gemmaSolved == Some(Solved(baseline))
    ensures e.openevolve == Skipped <==> Solved(baseline)
    ensures !Solved(baseline) ==> e.openevolve.Ran? && e.openevolveSolved == Some(Solved(e.openevolve.record))
  {
    if Solved(baseline) then Entry(problem, baseline, Skipped, Some(true), None)
    else
      match search
      case Some(r) => Entry(problem, baseline, Ran(r), Some(false), Some(Solved(r)))
      case None => Entry(problem, baseline, Ran(SearchError), Some(false), Some(false))
  }

  /** What the outside world does for one problem: whether loading the
      model (when it is not loaded) succeeds, what the baseline returned
      and what the search returned (`None`: raised). */
  datatype Trial = Trial(modelLoads: bool, baseline: Option<RunRecord>, search: Option<RunRecord>)

  /** The steps that involve the GPU-resident model. */
  datatype Event = LoadModel | RunBaseline(index: nat) | ReleaseModel | StartSearch(index: nat, jumpstart: Option<string>)

  /** Whether the model is loaded after `events`. */
  function Held(events: seq<Event>): bool {
    if events == [] then false
    else
      match events[|events| - 1]
      case LoadModel => true
      case ReleaseModel => false
      case _ => Held(events[..|events| - 1])
  }

  /** The model is loaded only when it is not already, the baseline runs
      only with the model loaded, and the search only with it released. */
  predicate Allowed(held: bool, e: Event) {
    match e
    case LoadModel => !held
    case RunBaseline(_) => held
    case ReleaseModel => true
    case StartSearch(_, _) => !held
  }

  predicate Disciplined(events: seq<Event>) {
    forall k :: 0 <= k < |events| ==> Allowed(Held(events[..k]), events[k])
  }

  /** The driver's state between problems: the results, the counters, the
      model, the events so far, and the results file on disk. */
  datatype State = State(results: seq<Entry>, counters: Counters, modelHeld: bool,
                         events: seq<Event>, persisted: Option<seq<Entry>>)

  /** The counters agree with the results and the model flag with the
      events, which respect the model discipline. */
  predicate Consistent(st: State) {
    && st.counters == Tally(st.results)
    && st.modelHeld == Held(st.events)
    && Disciplined(st.events)
  }

  /** Record one event and its effect on the model. */
  function Emit(st: State, e: Event): State {
    st.(events := st.events + [e],
        modelHeld := match e
                     case LoadModel => true
                     case ReleaseModel => false
                     case _ => st.modelHeld)
  }

  /** An allowed event keeps the state consistent. */
  lemma {:induction false} EmitConsistent(st: State, e: Event)
    requires Consistent(st) && Allowed(st.modelHeld, e)
    ensures Consistent(Emit(st, e))
  {
    var ev := st.events + [e];
    assert ev[..|st.events|] == st.events;
    forall k | 0 <= k < |ev|
      ensures Allowed(Held(ev[..k]), ev[k])
    {
      if k < |st.events| {
        assert ev[..k] == st.events[..k];
      }
    }
  }

  /** Load the model if it is not loaded (and loading succeeds), then run
      the baseline with it. */
  function Acquire(st: State, i: nat, trial: Trial): State {
    var s1 := if !st.modelHeld && trial.modelLoads then Emit(st, LoadModel) else st;
    if s1.modelHeld then Emit(s1, RunBaseline(i)) else s1
  }

  /** The baseline's record: the error record when the model could not be
      loaded or the baseline raised. */
  function BaselineOf(st: State, trial: Trial): RunRecord {
    if st.modelHeld || trial.modelLoads then trial.baseline.GetOr(BaselineError) else BaselineError
  }

  /** The decision after the baseline: stop at a solved baseline; otherwise
      release the model, run the search (from the baseline's code when
      jump-starting) and count its outcome. The entry is appended and the
      whole list saved. */
  function Record(st: State, i: nat, problem: string, baseline: RunRecord, search: Option<RunRecord>, jumpstart: bool): State {
    if Solved(baseline) then
      var results := st.results + [Decide(problem, baseline, None)];
      var c := st.counters;
      st.(results := results, counters := c.(gemmaSolved := c.gemmaSolved + 1), persisted := Some(results))
    else
      var s3 := if st.modelHeld then Emit(st, ReleaseModel) else st;
      var s4 := Emit(s3, StartSearch(i, if jumpstart then baseline.codePath else None));
      var results := s4.results + [Decide(problem, baseline, search)];
      var c := s4.counters;
      var solvedNow := if search.Some? && Solved(search.value) then 1 else 0;
      s4.(results := results,
          counters := c.(gemmaFailed := c.gemmaFailed + 1, attempted := c.attempted + 1,
                         openevolveSolved := c.openevolveSolved + solvedNow),
          persisted := Some(results))
  }

  /** The loop body for problem `i`. */
  function Step(st: State, i: nat, problem: string, trial: Trial, jumpstart: bool): State {
    Record(Acquire(st, i, trial), i, problem, BaselineOf(st, trial), trial.search, jumpstart)
  }

  /** The entry problem `i` gets when the model is available. */
  function EntryAt(names: seq<string>, trials: seq<Trial>, i: nat): Entry
    requires i < |names| == |trials|
  {
    Decide(names[i], trials[i].baseline.GetOr(BaselineError), trials[i].search)
  }

  /** Loading and running the baseline respect the model discipline. */
  lemma {:induction false} AcquireConsistent(st: State, i: nat, trial: Trial)
    requires Consistent(st)
    ensures Consistent(Acquire(st, i, trial))
  {
    var s1 := if !st.modelHeld && trial.modelLoads then Emit(st, LoadModel) else st;
    if !st.modelHeld && trial.modelLoads {
      EmitConsistent(st, LoadModel);
    }
    if s1.modelHeld {
      EmitConsistent(s1, RunBaseline(i));
    }
  }

  /** The decision adds the new entry's count to the counters. */
  lemma {:induction false} RecordCounts(st: State, i: nat, problem: string, baseline: RunRecord, search: Option<RunRecord>, jumpstart: bool)
    ensures Record(st, i, problem, baseline, search, jumpstart).counters == Plus(st.counters, Count(Decide(problem, baseline, search)))
  {
  }

  /** The decision keeps the counters equal to the fold of the results and
      the search away from the loaded model. */
  lemma {:induction false} RecordConsistent(st: State, i: nat, problem: string, baseline: RunRecord, search: Option<RunRecord>, jumpstart: bool)
    requires Consistent(st)
    ensures Consistent(Record(st, i, problem, baseline, search, jumpstart))
  {
    RecordCounts(st, i, problem, baseline, search, jumpstart);
    TallySnoc(st.results, Decide(problem, baseline, search));
    if !Solved(baseline) {
      var s3 := if st.modelHeld then Emit(st, ReleaseModel) else st;
      if st.modelHeld {
        EmitConsistent(st, ReleaseModel);
      }
      EmitConsistent(s3, StartSearch(i, if jumpstart then baseline.codePath else None));
    }
  }

  /** The decision appends exactly the problem's entry and saves the list. */
  lemma {:induction false} RecordAppends(st: State, i: nat, problem: string, baseline: RunRecord, search: Option<RunRecord>, jumpstart: bool)
    ensures var next := Record(st, i, problem, baseline, search, jumpstart);
            && next.results == st.results + [Decide(problem, baseline, search)]
            && next.persisted == Some(next.results)
  {
  }

  /** A step keeps the state consistent. */
  lemma {:induction false} StepConsistent(st: State, i: nat, problem: string, trial: Trial, jumpstart: bool)
    requires Consistent(st)
    ensures Consistent(Step(st, i, problem, trial, jumpstart))
  {
    AcquireConsistent(st, i, trial);
    RecordConsistent(Acquire(st, i, trial), i, problem, BaselineOf(st, trial), trial.search, jumpstart);
  }

  // ----- the run -------------------------------------------------------------

  /** Every problem's model loads when asked for. */
  predicate AllLoad(trials: seq<Trial>) {
    forall k :: 0 <= k < |trials| ==> trials[k].modelLoads
  }

  /** The entries problems `lo` to `hi` (exclusive) get when the model is
      available. */
  function Entries(names: seq<string>, trials: seq<Trial>, lo: nat, hi: nat): seq<Entry>
    requires hi <= |names| == |trials|
    decreases hi
  {
    if hi <= lo then [] else Entries(names, trials, lo, hi - 1) + [EntryAt(names, trials, hi - 1)]
  }

  /** The first index the loop runs: `--start` is one-based. */
  function First(start: int): (first: nat)
    ensures start >= 1 ==> first + 1 == start
    ensures start < 1 ==> first == 0
  {
    Max(start - 1, 0)
  }

  /** The index the loop stops at: a positive `--limit` caps the count. */
  function Stop(n: nat, limit: int): (hi: nat)
    ensures hi <= n
    ensures limit <= 0 ==> hi == n
    ensures limit > 0 ==> (hi == n <==> limit >= n) && (hi < n ==> hi == limit)
  {
    if limit > 0 then Min(n, limit) else n
  }

  /** The saved results a resumed run keeps: those before the start, and
      none when starting at the first problem or when nothing is saved. */
  function Kept(saved: Option<seq<Entry>>, start: int): (kept: seq<Entry>)
    ensures saved.Some? ==> kept <= saved.value
    ensures |kept| == if start - 1 > 0 && saved.Some? then Min(start - 1, |saved.value|) else 0
  {
    if start - 1 > 0 && saved.Some? then saved.value[..Min(start - 1, |saved.value|)] else []
  }

  lemma {:induction false} EntriesLength(names: seq<string>, trials: seq<Trial>, lo: nat, hi: nat)
    requires hi <= |names| == |trials|
    ensures |Entries(names, trials, lo, hi)| == Max(hi - lo, 0)
    decreases hi
  {
    if lo < hi {
      EntriesLength(names, trials, lo, hi - 1);
    }
  }

  /** The entries of a window are the problems of that window, in order. */
  lemma {:induction false} EntriesWindow(names: seq<string>, trials: seq<Trial>, lo: nat, hi: nat)
    requires lo <= hi <= |names| == |trials|
    ensures forall k :: 0 <= k < hi - lo ==> k < |Entries(names, trials, lo, hi)| && Entries(names, trials, lo, hi)[k] == EntryAt(names, trials, lo + k)
    decreases hi
  {
    EntriesLength(names, trials, lo, hi);
    if lo < hi {
      EntriesWindow(names, trials, lo, hi - 1);
      EntriesLength(names, trials, lo, hi - 1);
    }
  }

  /** Two adjacent windows make the joined window. */
  lemma {:induction false} EntriesSplit(names: seq<string>, trials: seq<Trial>, lo: nat, mid: nat, hi: nat)
    requires lo <= mid <= hi <= |names| == |trials|
    ensures Entries(names, trials, lo, mid) + Entries(names, trials, mid, hi) == Entries(names, trials, lo, hi)
    decreases hi
  {
    if mid < hi {
      EntriesSplit(names, trials, lo, mid, hi - 1);
      AppendAssoc(Entries(names, trials, lo, mid), Entries(names, trials, mid, hi - 1), [EntryAt(names, trials, hi - 1)]);
    }
  }

  lemma AppendAssoc<T>(a: seq<T>, b: seq<T>, c: seq<T>)
    ensures (a + b) + c == a + (b + c)
  {
  }

  lemma PrefixOfAppend<T>(a: seq<T>, b: seq<T>)
    ensures (a + b)[..|a|] == a
  {
  }

  /** A problem's entry depends only on that problem: with the model
      available, one step appends exactly `EntryAt`. */
  lemma {:induction false} StepAppends(st: State, names: seq<string>, trials: seq<Trial>, i: nat, jumpstart: bool)
    requires i < |names| == |trials| && trials[i].modelLoads
    ensures Step(st, i, names[i], trials[i], jumpstart).results == st.results + [EntryAt(names, trials, i)]
    ensures Step(st, i, names[i], trials[i], jumpstart).persisted == Some(st.results + [EntryAt(names, trials, i)])
  {
    RecordAppends(Acquire(st, i, trials[i]), i, names[i], BaselineOf(st, trials[i]), trials[i].search, jumpstart);
  }

  /** What holds after the loop has passed the problems before `i`:
      `kept` are the saved results the run resumed with, `lo` the first
      problem it runs. */
  predicate Progress(st: State, names: seq<string>, trials: seq<Trial>, kept: seq<Entry>, saved: Option<seq<Entry>>, lo: nat, i: nat)
    requires i <= |names| == |trials|
  {
    && Consistent(st)
    && (AllLoad(trials) ==> st.results == kept + Entries(names, trials, lo, i))
    && st.persisted == if lo < i then Some(st.results) else saved
  }

  /** Before the loop: the kept results and their rebuilt counters, no
      model, no events and the results file as it was. */
  lemma {:induction false} StartProgress(names: seq<string>, trials: seq<Trial>, kept: seq<Entry>, saved: Option<seq<Entry>>, lo: nat)
    requires |names| == |trials|
    ensures Progress(State(kept, Tally(kept), false, [], saved), names, trials, kept, saved, lo, 0)
  {
    assert Entries(names, trials, lo, 0) == [];
    assert kept + [] == kept;
  }

  /** Passing over a problem before the first changes nothing. */
  lemma {:induction false} SkipProgress(st: State, names: seq<string>, trials: seq<Trial>, kept: seq<Entry>, saved: Option<seq<Entry>>, lo: nat, i: nat)
    requires i < lo && i < |names| == |trials|
    requires Progress(st, names, trials, kept, saved, lo, i)
    ensures Progress(st, names, trials, kept, saved, lo, i + 1)
  {
    assert Entries(names, trials, lo, i + 1) == [] == Entries(names, trials, lo, i);
  }

  /** Running problem `i` (at or after the first) keeps the progress. */
  lemma {:induction false} StepProgress(st: State, names: seq<string>, trials: seq<Trial>, kept: seq<Entry>, saved: Option<seq<Entry>>, lo: nat, i: nat, jumpstart: bool)
    requires lo <= i < |names| == |trials|
    requires Progress(st, names, trials, kept, saved, lo, i)
    ensures Progress(Step(st, i, names[i], trials[i], jumpstart), names, trials, kept, saved, lo, i + 1)
  {
    StepConsistent(st, i, names[i], trials[i], jumpstart);
    RecordAppends(Acquire(st, i, trials[i]), i, names[i], BaselineOf(st, trials[i]), trials[i].search, jumpstart);
    if AllLoad(trials) {
      StepAppends(st, names, trials, i, jumpstart);
      AppendAssoc(kept, Entries(names, trials, lo, i), [EntryAt(names, trials, i)]);
    }
  }

  /** The loop body for one problem: pass over it before the first,
      otherwise run it. */
  method Visit(st: State, names: seq<string>, trials: seq<Trial>, kept: seq<Entry>, saved: Option<seq<Entry>>, start: int, i: nat, jumpstart: bool)
    returns (next: State)
    requires i < |names| == |trials|
    requires Progress(st, names, trials, kept, saved, First(start), i)
    ensures Progress(next, names, trials, kept, saved, First(start), i + 1)
  {
    if i < start - 1 {
      SkipProgress(st, names, trials, kept, saved, First(start), i);
      return st;
    }
    StepProgress(st, names, trials, kept, saved, First(start), i, jumpstart);
    next := Step(st, i, names[i], trials[i], jumpstart);
  }

  /** Resuming: keep the saved results before `--start` (none when starting
      at the first problem or when nothing is saved) with their counters. */
  method Resume(saved: Option<seq<Entry>>, start: int) returns (results: seq<Entry>, counters: Counters)
    ensures results == Kept(saved, start)
    ensures counters == Tally(results)
  {
    results := [];
    if start - 1 > 0 && saved.Some? {
      results := saved.value[..Min(start - 1, |saved.value|)];
    }
    counters := ResumeCounters(results);
  }

  /** The driver: resume, then walk the problems, stopping at `--limit`,
      skipping those before the start, and running every other one. */
  method Run(names: seq<string>, trials: seq<Trial>, saved: Option<seq<Entry>>, start: int, limit: int, jumpstart: bool)
    returns (st: State)
    requires |names| == |trials|
    ensures Progress(st, names, trials, Kept(saved, start), saved, First(start), Stop(|names|, limit))
  {
    var results, counters := Resume(saved, start);
    st := State(results, counters, false, [], saved);
    StartProgress(names, trials, results, saved, First(start));
    var i := 0;
    while i < |names|
      invariant i <= Stop(|names|, limit)
      invariant Progress(st, names, trials, results, saved, First(start), i)
    {
      if limit > 0 && i >= limit {
        break;
      }
      st := Visit(st, names, trials, results, saved, start, i, jumpstart);
      i := i + 1;
    }
  }

  /** Resuming from any `--start` with the saved results of a complete run
      (same problems, same limit, same outcomes) reproduces that run's
      results, and so its counters. */
  lemma {:induction false} ResumeReproducesFreshRun(names: seq<string>, trials: seq<Trial>, start: int, limit: int)
    requires |names| == |trials|
    ensures var hi := Stop(|names|, limit);
            var whole := Kept(None, 1) + Entries(names, trials, First(1), hi);
            Kept(Some(whole), start) + Entries(names, trials, First(start), hi) == whole
  {
    var hi := Stop(|names|, limit);
    var all := Entries(names, trials, 0, hi);
    assert Kept(None, 1) + Entries(names, trials, First(1), hi) == all;
    EntriesLength(names, trials, 0, hi);
    var lo := First(start);
    if start - 1 > 0 && lo < hi {
      EntriesSplit(names, trials, 0, lo, hi);
      EntriesLength(names, trials, 0, lo);
      PrefixOfAppend(Entries(names, trials, 0, lo), Entries(names, trials, lo, hi));
    } else if start - 1 > 0 {
      assert Kept(Some(all), start) == all;
    }
  }

  /** A run that resumes nothing counts a search for every failed baseline:
      entries written by the loop never hold a non-record search field. */
  lemma {:induction false} FreshRunAttemptsEveryFailure(names: seq<string>, trials: seq<Trial>, lo: nat, hi: nat)
    requires hi <= |names| == |trials|
    ensures Tally(Entries(names, trials, lo, hi)).attempted == Tally(Entries(names, trials, lo, hi)).gemmaFailed
    decreases hi
  {
    if lo < hi {
      FreshRunAttemptsEveryFailure(names, trials, lo, hi - 1);
      TallySnoc(Entries(names, trials, lo, hi - 1), EntryAt(names, trials, hi - 1));
    }
  }
}
