/** The counting behind `completion_benchmark_results_chart.py`, over the
    results the completion benchmark writes: a skipped search stands in
    with the baseline's numbers, "solved" means accuracy of at least 1.0,
    and the pass rate is a percentage of the results. */
module CompletionCharts {
  import opened Common
  import opened Runs
  import opened CompletionBenchmark
  import opened BenchmarkCharts

  /** One result's numbers: baseline score and accuracy, search score and
      accuracy. */
  datatype Row = Row(baseScore: real, baseAccuracy: real, searchScore: real, searchAccuracy: real)

  /** A result's row. A skipped search copies the baseline's numbers; a
      search field that is neither a record nor `"skipped"` stops the
      script (`None`). */
  function RowOf(e: Entry): (r: Option<Row>)
    ensures r.Some? <==> e.openevolve.Skipped? || e.openevolve.Ran?
    ensures e.openevolve.Skipped? ==> r.value.searchScore == r.value.baseScore && r.value.searchAccuracy == r.value.baseAccuracy
  {
    match e.openevolve
    case Skipped => Some(Row(e.baseline.score, e.baseline.accuracy, e.baseline.score, e.baseline.accuracy))
    case Ran(s) => Some(Row(e.baseline.score, e.baseline.accuracy, s.score, s.accuracy))
    case _ => None
  }

  /** Every entry the benchmark writes has a row. */
  lemma {:induction false} WrittenEntriesChart(problem: string, baseline: RunRecord, search: Option<RunRecord>)
    ensures RowOf(Decide(problem, baseline, search)).Some?
  {
  }

  /** A skipped search is a tie, never a win or a loss. */
  lemma {:induction false} SkippedRowIsTie(e: Entry)
    requires e.openevolve.Skipped?
    ensures var r := RowOf(e).value;
            var p := Pair(r.baseScore, r.searchScore);
            Is(Tie, p) && !Is(Win, p) && !Is(ClearWin, p) && !Is(ClearLoss, p)
  {
  }

  /** The rows of all results, or `None` when one has none. */
  function Rows(es: seq<Entry>): (rows: Option<seq<Row>>)
    ensures rows.Some? <==> forall k :: 0 <= k < |es| ==> RowOf(es[k]).Some?
    ensures rows.Some? ==> |rows.value| == |es| && forall k :: 0 <= k < |es| ==> rows.value[k] == RowOf(es[k]).value
  {
    if es == [] then Some([])
    else
      match (Rows(es[..|es| - 1]), RowOf(es[|es| - 1]))
      case (Some(rs), Some(r)) => Some(rs + [r])
      case (Some(rs), None) => None
      case (None, _) => None
  }

  /** The score pairs the donut compares. */
  function Pairs(rows: seq<Row>): (ps: seq<Pair>)
    ensures |ps| == |rows|
    ensures forall k :: 0 <= k < |rows| ==> ps[k] == Pair(rows[k].baseScore, rows[k].searchScore)
  {
    if rows == [] then [] else Pairs(rows[..|rows| - 1]) + [Pair(rows[|rows| - 1].baseScore, rows[|rows| - 1].searchScore)]
  }

  /** A row's accuracy on the baseline's side or the search's. */
  function Accuracy(r: Row, searchSide: bool): real {
    if searchSide then r.searchAccuracy else r.baseAccuracy
  }

  /** How many rows are solved, by accuracy, on the baseline's side or the
      search's. */
  function Solved(rows: seq<Row>, searchSide: bool): (n: nat)
    ensures n <= |rows|
  {
    if rows == [] then 0
    else Solved(rows[..|rows| - 1], searchSide) + if Accuracy(rows[|rows| - 1], searchSide) >= 1.0 then 1 else 0
  }

  /** The rows solved on a side: those whose accuracy there is at least 1. */
  function SolvedRows(rows: seq<Row>, searchSide: bool): set<nat> {
    set k: nat | k < |rows| && Accuracy(rows[k], searchSide) >= 1.0
  }

  /** `Solved` counts exactly the rows whose accuracy on that side is at
      least 1.0; the score plays no part. */
  lemma {:induction false} SolvedCounts(rows: seq<Row>, searchSide: bool)
    ensures Solved(rows, searchSide) == |SolvedRows(rows, searchSide)|
    decreases |rows|
  {
    if rows != [] {
      var n := |rows| - 1;
      var init := rows[..n];
      SolvedCounts(init, searchSide);
      var before := SolvedRows(init, searchSide);
      var after := SolvedRows(rows, searchSide);
      if Accuracy(rows[n], searchSide) >= 1.0 {
        assert after == before + {n};
        assert n !in before;
      } else {
        assert after == before;
      }
    }
  }

  /** A search stands in for a skipped one only with the baseline's
      numbers, so with every search skipped both sides solve the same
      problems and every pair is a tie. */
  lemma {:induction false} SkippedRowsTie(rows: seq<Row>)
    requires forall k :: 0 <= k < |rows| ==> rows[k].searchScore == rows[k].baseScore && rows[k].searchAccuracy == rows[k].baseAccuracy
    ensures Outcomes(Pairs(rows)) == Split3(0, |rows|, 0)
    ensures Solved(rows, true) == Solved(rows, false)
    decreases |rows|
  {
    if rows != [] {
      SkippedRowsTie(rows[..|rows| - 1]);
      assert Pairs(rows)[..|rows| - 1] == Pairs(rows[..|rows| - 1]);
    }
  }

  /** `100 * solved / n`, and 0 for no results. */
  function PassRate(solved: nat, n: nat): real {
    if n > 0 then 100.0 * (solved as real) / (n as real) else 0.0
  }

  /** A pass rate is a percentage: 0 with no results, and 100 exactly when
      every result is solved. */
  lemma {:induction false} PassRateBounds(solved: nat, n: nat)
    requires solved <= n
    ensures 0.0 <= PassRate(solved, n) <= 100.0
    ensures n == 0 ==> PassRate(solved, n) == 0.0
    ensures n > 0 ==> (PassRate(solved, n) == 100.0 <==> solved == n)
  {
    if n > 0 {
      var q := (solved as real) / (n as real);
      assert q * (n as real) == solved as real;
      assert q <= 1.0;
      assert PassRate(solved, n) == 100.0 * q;
      assert q == 1.0 <==> solved == n;
    }
  }

  /** The figures the script shows. */
  datatype Stats = Stats(n: nat, baselineRate: real, searchRate: real, outcomes: Split3)

  /** The script's figures, or `None` when a result has no row. */
  function Summary(es: seq<Entry>): (s: Option<Stats>)
    ensures s.Some? <==> Rows(es).Some?
    ensures s.Some? ==> s.value.n == |es|
    ensures s.Some? ==> 0.0 <= s.value.baselineRate <= 100.0 && 0.0 <= s.value.searchRate <= 100.0
    ensures s.Some? ==> s.value.outcomes.wins + s.value.outcomes.ties + s.value.outcomes.losses == |es|
    ensures s.Some? ==> var rows := Rows(es).value;
            && s.value.baselineRate == PassRate(|SolvedRows(rows, false)|, |es|)
            && s.value.searchRate == PassRate(|SolvedRows(rows, true)|, |es|)
            && s.value.outcomes == Outcomes(Pairs(rows))
  {
    match Rows(es)
    case None => None
    case Some(rows) =>
      PassRateBounds(Solved(rows, false), |rows|);
      PassRateBounds(Solved(rows, true), |rows|);
      SolvedCounts(rows, false);
      SolvedCounts(rows, true);
      Some(Stats(|rows|, PassRate(Solved(rows, false), |rows|), PassRate(Solved(rows, true), |rows|), Outcomes(Pairs(rows))))
  }
}
