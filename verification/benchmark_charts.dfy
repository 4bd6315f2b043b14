/** The counting behind `benchmark_results_chart.py`: chart labels, the
    win/tie/loss split of the score pairs, and the donut's slices. Plotting
    and the averaged bars are left out. */
module BenchmarkCharts {
  import opened Common
  import opened Text

  /** `shorten_name`: `Prob` becomes `P`, the first `_` a line break and
      every other `_` a space, so no underscore is left. */
  function ShortenName(name: string): (short: string)
    ensures '_' !in short
    ensures var b := ReplaceAll(name, "Prob", "P");
            && |short| == |b|
            && forall i :: 0 <= i < |b| ==>
                 short[i] == if b[i] != '_' then b[i] else if forall j :: 0 <= j < i ==> b[j] != '_' then '\n' else ' '
  {
    var b := ReplaceAll(name, "Prob", "P");
    var broken := ReplaceFirst(b, "_", "\n");
    ReplaceAllChar(broken, '_', " ");
    ReplaceFirstCharPointwise(b, '_', '\n');
    ReplaceAllCharPointwise(broken, '_', ' ');
    ReplaceAll(broken, "_", " ")
  }

  /** A problem's baseline and search scores. */
  datatype Pair = Pair(baseline: real, search: real)

  /** The tolerance of a tie. */
  const Epsilon: real := 0.000001

  function Abs(x: real): real {
    if x < 0.0 then -x else x
  }

  /** The ways a pair is classified. `Win` and `Tie` are the tests the
      scripts count; a `NearTie` passes both; `ClearWin` and `ClearLoss`
      lie beyond the tolerance. */
  datatype Kind = Win | Tie | NearTie | ClearWin | ClearLoss

  predicate Is(kind: Kind, p: Pair) {
    match kind
    case Win => p.search > p.baseline
    case Tie => Abs(p.search - p.baseline) < Epsilon
    case NearTie => 0.0 < p.search - p.baseline < Epsilon
    case ClearWin => p.search - p.baseline >= Epsilon
    case ClearLoss => p.baseline - p.search >= Epsilon
  }

  /** How many pairs are of a kind. */
  function Count(ps: seq<Pair>, kind: Kind): (n: nat)
    ensures n <= |ps|
  {
    if ps == [] then 0 else Count(ps[..|ps| - 1], kind) + if Is(kind, ps[|ps| - 1]) then 1 else 0
  }

  /** The scripts' three numbers: wins, ties, and the rest as losses. */
  datatype Split3 = Split3(wins: int, ties: int, losses: int)

  /** As written: `losses = n - wins - ties`, where a near tie is counted
      both as a win and as a tie. */
  function OutcomesAsWritten(ps: seq<Pair>): (s: Split3)
    ensures s.wins + s.ties + s.losses == |ps|
  {
    var w := Count(ps, Win);
    var t := Count(ps, Tie);
    Split3(w, t, |ps| - w - t)
  }

  /** The losses as written are the clear losses minus the near ties, so
      every near tie hides a loss, and with more near ties than clear
      losses the count is negative. */
  lemma {:induction false} LossesAsWritten(ps: seq<Pair>)
    ensures OutcomesAsWritten(ps).losses == Count(ps, ClearLoss) - Count(ps, NearTie)
    decreases |ps|
  {
    if ps != [] {
      LossesAsWritten(ps[..|ps| - 1]);
    }
  }

  /** One near tie: one win, one tie and -1 losses. */
  lemma NegativeLosses()
    ensures OutcomesAsWritten([Pair(0.5, 0.5000005)]) == Split3(1, 1, -1)
  {
    var ps := [Pair(0.5, 0.5000005)];
    assert ps[..0] == [];
  }

  /** Corrected: a win must clear the tie tolerance, so the three classes
      partition the pairs. */
  function Outcomes(ps: seq<Pair>): (s: Split3)
    ensures s.wins + s.ties + s.losses == |ps|
    ensures s.wins >= 0 && s.ties >= 0 && s.losses >= 0
  {
    KindsPartition(ps);
    Split3(Count(ps, ClearWin), Count(ps, Tie), Count(ps, ClearLoss))
  }

  /** Every pair is exactly one of a clear win, a tie and a clear loss. */
  lemma {:induction false} KindsPartition(ps: seq<Pair>)
    ensures Count(ps, ClearWin) + Count(ps, Tie) + Count(ps, ClearLoss) == |ps|
    decreases |ps|
  {
    if ps != [] {
      KindsPartition(ps[..|ps| - 1]);
    }
  }

  /** The correction moves only the near ties: it agrees with the scripts'
      numbers whenever no pair is a near tie. */
  lemma {:induction false} OutcomesAgreeWithoutNearTies(ps: seq<Pair>)
    requires Count(ps, NearTie) == 0
    ensures Outcomes(ps) == OutcomesAsWritten(ps)
    decreases |ps|
  {
    LossesAsWritten(ps);
    WinsWithoutNearTies(ps);
  }

  lemma {:induction false} WinsWithoutNearTies(ps: seq<Pair>)
    requires Count(ps, NearTie) == 0
    ensures Count(ps, ClearWin) == Count(ps, Win)
    decreases |ps|
  {
    if ps != [] {
      WinsWithoutNearTies(ps[..|ps| - 1]);
    }
  }

  /** A donut slice: its size and its class, or the grey placeholder. */
  datatype Slice = Slice(size: int, kind: Option<Kind>)

  /** A kind's place among the donut's slices: wins, ties, then losses. */
  function Rank(kind: Kind): nat {
    match kind
    case Win => 0
    case Tie => 1
    case ClearLoss => 2
    case _ => 3
  }

  /** How many of the three counts are positive. */
  function Positives(s: Split3): nat {
    (if s.wins > 0 then 1 else 0) + (if s.ties > 0 then 1 else 0) + (if s.losses > 0 then 1 else 0)
  }

  /** The slices after the wins: the tie count, then the loss count, each
      only when positive. */
  function TiesAndLosses(s: Split3): (t: seq<Slice>)
    ensures |t| == (if s.ties > 0 then 1 else 0) + (if s.losses > 0 then 1 else 0)
    ensures forall i, j :: 0 <= i < j < |t| ==>
              t[i].kind.Some? && t[j].kind.Some? && Rank(t[i].kind.value) < Rank(t[j].kind.value)
    ensures forall k :: 0 <= k < |t| ==> t[k].kind.Some? && 1 <= Rank(t[k].kind.value) < 3 && t[k].size > 0
    ensures Slice(s.ties, Some(Tie)) in t <==> s.ties > 0
    ensures Slice(s.losses, Some(ClearLoss)) in t <==> s.losses > 0
  {
    var losses := if s.losses > 0 then [Slice(s.losses, Some(ClearLoss))] else [];
    if s.ties > 0 then [Slice(s.ties, Some(Tie))] + losses else losses
  }

  /** The slices: the positive counts in win/tie/loss order, or the
      placeholder when none is positive. */
  function Pie(s: Split3): (slices: seq<Slice>)
    ensures |slices| == Max(Positives(s), 1)
    ensures forall i, j :: 0 <= i < j < |slices| ==>
              slices[i].kind.Some? && slices[j].kind.Some? && Rank(slices[i].kind.value) < Rank(slices[j].kind.value)
    ensures forall k :: 0 <= k < |slices| && slices[k].kind.Some? ==> Rank(slices[k].kind.value) < 3
    ensures forall k :: 0 <= k < |slices| ==> slices[k].size > 0
    ensures slices == [Slice(1, None)] <==> s.wins <= 0 && s.ties <= 0 && s.losses <= 0
    ensures Slice(s.wins, Some(Win)) in slices <==> s.wins > 0
    ensures Slice(s.ties, Some(Tie)) in slices <==> s.ties > 0
    ensures Slice(s.losses, Some(ClearLoss)) in slices <==> s.losses > 0
  {
    var tail := TiesAndLosses(s);
    var kept := if s.wins > 0 then [Slice(s.wins, Some(Win))] + tail else tail;
    if kept == [] then [Slice(1, None)] else assert kept[0].kind.Some?; kept
  }
}
