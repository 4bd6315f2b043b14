/** Leftmost matching (`re.search`) of the three count patterns the scoring
    rules parse out of simulator output:
      `Mismatches: (\d+) in (\d+)`,
      `Mismatches: (\d+) in (\d+) samples` and
      `SUMMARY: Passed (\d+)/(\d+) tests`.
    Each has the shape `lead(\d+)mid(\d+)tail` where `mid`, and `tail` when it
    is not empty, begin with a non-digit; so the greedy `\d+` can only succeed
    with the whole run of digits, and a match at a position is unique. */
module CountPattern {
  import opened Common
  import opened Text
  import opened Numerals

  datatype Pattern = Pattern(lead: string, mid: string, tail: string)

  predicate WellFormed(p: Pattern) {
    |p.mid| > 0 && !IsDigit(p.mid[0]) && (|p.tail| == 0 || !IsDigit(p.tail[0]))
  }

  /** The marker the partial-credit rules look for before they parse a report. */
  const MismatchesKey := "Mismatches:"

  const Mismatches := Pattern(MismatchesKey + " ", " in ", "")
  const MismatchSamples := Pattern(MismatchesKey + " ", " in ", " samples")
  const PassedSummary := Pattern("SUMMARY: Passed ", "/", " tests")

  lemma {:induction false} PatternsWellFormed()
    ensures WellFormed(Mismatches) && WellFormed(MismatchSamples) && WellFormed(PassedSummary)
  {
  }

  /** Every character of `s[lo..hi]` is a digit. */
  predicate DigitsBetween(s: string, lo: int, hi: int) {
    forall k :: lo <= k < hi ==> 0 <= k < |s| && IsDigit(s[k])
  }

  /** The length of the run of ASCII digits starting at `i`: what a greedy
      `\d+` consumes there. */
  function DigitRun(s: string, i: nat): (n: nat)
    requires i <= |s|
    ensures i + n <= |s|
    decreases |s| - i
  {
    if i < |s| && IsDigit(s[i]) then 1 + DigitRun(s, i + 1) else 0
  }

  /** The run is made of digits and is maximal. */
  lemma {:induction false} DigitRunMaximal(s: string, i: nat)
    requires i <= |s|
    ensures var n := DigitRun(s, i);
            DigitsBetween(s, i, i + n) && (i + n == |s| || !IsDigit(s[i + n]))
    decreases |s| - i
  {
    if i < |s| && IsDigit(s[i]) {
      DigitRunMaximal(s, i + 1);
    }
  }

  /** A run of digits ending at a non-digit (or the end) is the whole run. */
  lemma {:induction false} DigitRunExact(s: string, i: nat, n: nat)
    requires i + n <= |s| && DigitsBetween(s, i, i + n)
    requires i + n == |s| || !IsDigit(s[i + n])
    ensures DigitRun(s, i) == n
    decreases n
  {
    if n > 0 {
      DigitRunExact(s, i + 1, n - 1);
    }
  }

  /** A run of digits is no longer than the whole run it starts. */
  lemma {:induction false} DigitRunCovers(s: string, i: nat, n: nat)
    requires i + n <= |s| && DigitsBetween(s, i, i + n)
    ensures DigitRun(s, i) >= n
    decreases n
  {
    if n > 0 {
      DigitRunCovers(s, i + 1, n - 1);
    }
  }

  /** The text cut from a run of digits is a digit string. */
  lemma {:induction false} CutDigits(s: string, lo: nat, hi: nat)
    requires lo <= hi <= |s| && DigitsBetween(s, lo, hi)
    ensures AllDigits(Cut(s, lo, hi))
  {
    var d := Cut(s, lo, hi);
    assert forall k :: 0 <= k < |d| ==> d[k] == s[lo + k];
  }

  /** The digits a greedy `\d+` captures at `a`: the whole run there. */
  function RunDigits(s: string, a: nat): (d: string)
    requires a <= |s|
    ensures |d| == DigitRun(s, a) && AllDigits(d) && OccursAt(s, d, a)
  {
    DigitRunMaximal(s, a);
    CutDigits(s, a, a + DigitRun(s, a));
    Cut(s, a, a + DigitRun(s, a))
  }

  /** `int(...)` of the digits captured at `a`. */
  function RunNumber(s: string, a: nat): nat
    requires a <= |s|
  {
    DigitsValue(RunDigits(s, a))
  }

  /** The two numbers of a match of `p` that begins exactly at `pos`. */
  function MatchAt(s: string, p: Pattern, pos: nat): Option<(nat, nat)> {
    if !OccursAt(s, p.lead, pos) then None else MatchGroups(s, p, pos + |p.lead|)
  }

  /** `(\d+)mid(\d+)tail` at `a`: both groups are greedy runs of digits. */
  function MatchGroups(s: string, p: Pattern, a: nat): Option<(nat, nat)>
    requires a <= |s|
  {
    var n1 := DigitRun(s, a);
    if n1 == 0 || !OccursAt(s, p.mid, a + n1) then None
    else
      match MatchLast(s, p, a + n1 + |p.mid|)
      case None => None
      case Some(v) => Some((RunNumber(s, a), v))
  }

  /** `(\d+)tail` at `c`. */
  function MatchLast(s: string, p: Pattern, c: nat): Option<nat>
    requires c <= |s|
  {
    var n2 := DigitRun(s, c);
    if n2 == 0 || !OccursAt(s, p.tail, c + n2) then None
    else Some(RunNumber(s, c))
  }

  /** The text `lead + d1 + mid + d2 + tail`, for non-empty digit strings
      `d1` and `d2`, appears in `s` at `pos`: the reading of the pattern that
      does not depend on how a regular-expression engine backtracks. It is
      stated piece by piece; `SpellsConcat` shows it is the concatenation. */
  ghost predicate Spells(s: string, p: Pattern, pos: int, d1: string, d2: string) {
    var a := pos + |p.lead|;
    var b := a + |d1|;
    var c := b + |p.mid|;
    var d := c + |d2|;
    && |d1| > 0 && |d2| > 0 && AllDigits(d1) && AllDigits(d2)
    && OccursAt(s, p.lead, pos) && OccursAt(s, d1, a) && OccursAt(s, p.mid, b)
    && OccursAt(s, d2, c) && OccursAt(s, p.tail, d)
  }

  /** The pattern is spelled exactly when the concatenated text occurs. */
  lemma {:induction false} SpellsConcat(s: string, p: Pattern, pos: int, d1: string, d2: string)
    ensures Spells(s, p, pos, d1, d2)
            <==> && |d1| > 0 && |d2| > 0 && AllDigits(d1) && AllDigits(d2)
                 && OccursAt(s, p.lead + d1 + p.mid + d2 + p.tail, pos)
  {
    OccursConcat(s, p.lead + d1 + p.mid + d2, p.tail, pos);
    OccursConcat(s, p.lead + d1 + p.mid, d2, pos);
    OccursConcat(s, p.lead + d1, p.mid, pos);
    OccursConcat(s, p.lead, d1, pos);
  }

  /** The steps of a match `MatchAt` reports. */
  lemma {:induction false} MatchAtParts(s: string, p: Pattern, pos: nat)
    requires MatchAt(s, p, pos).Some?
    ensures var a := pos + |p.lead|;
            && OccursAt(s, p.lead, pos) && a <= |s|
            && var n1 := DigitRun(s, a);
               && n1 > 0 && OccursAt(s, p.mid, a + n1)
               && var c := a + n1 + |p.mid|;
                  && DigitRun(s, c) > 0 && OccursAt(s, p.tail, c + DigitRun(s, c))
                  && MatchAt(s, p, pos).value == (RunNumber(s, a), RunNumber(s, c))
  {
    var a := pos + |p.lead|;
    DigitRunMaximal(s, a);
  }

  /** The digit strings a match of `p` at `pos` captures:
      `match.group(1)` and `match.group(2)`. */
  function Groups(s: string, p: Pattern, pos: nat): (string, string)
    requires MatchAt(s, p, pos).Some?
  {
    MatchAtParts(s, p, pos);
    var a := pos + |p.lead|;
    (RunDigits(s, a), RunDigits(s, a + DigitRun(s, a) + |p.mid|))
  }

  /** The captured digit strings spell the pattern. */
  lemma {:induction false} GroupsSpell(s: string, p: Pattern, pos: nat)
    requires MatchAt(s, p, pos).Some?
    ensures Spells(s, p, pos, Groups(s, p, pos).0, Groups(s, p, pos).1)
  {
    MatchAtParts(s, p, pos);
  }

  /** The reported numbers are the values of the captured digit strings. */
  lemma {:induction false} GroupsValue(s: string, p: Pattern, pos: nat)
    requires MatchAt(s, p, pos).Some?
    ensures AllDigits(Groups(s, p, pos).0) && MatchAt(s, p, pos).value.0 == DigitsValue(Groups(s, p, pos).0)
    ensures AllDigits(Groups(s, p, pos).1) && MatchAt(s, p, pos).value.1 == DigitsValue(Groups(s, p, pos).1)
  {
    MatchAtParts(s, p, pos);
  }

  /** A match found by `MatchAt` spells the pattern with the digits it reports. */
  lemma {:induction false} MatchAtSound(s: string, p: Pattern, pos: nat)
    requires MatchAt(s, p, pos).Some?
    ensures exists d1, d2 :: Spells(s, p, pos, d1, d2)
                             && MatchAt(s, p, pos).value == (DigitsValue(d1), DigitsValue(d2))
  {
    GroupsSpell(s, p, pos);
    GroupsValue(s, p, pos);
    var g := Groups(s, p, pos);
    assert Spells(s, p, pos, g.0, g.1);
  }

  /** The characters of a digit string found at `a` are a run of digits. */
  lemma {:induction false} OccursDigits(s: string, a: nat, d: string)
    requires OccursAt(s, d, a) && AllDigits(d)
    ensures DigitsBetween(s, a, a + |d|)
  {
    forall k | a <= k < a + |d|
      ensures IsDigit(s[k])
    {
      assert s[a + (k - a)] == d[k - a];
    }
  }

  /** A digit string found at `a` and not followed by another digit is the
      whole run of digits there. */
  lemma {:induction false} RunAt(s: string, a: nat, d: string)
    requires OccursAt(s, d, a) && AllDigits(d)
    requires a + |d| == |s| || !IsDigit(s[a + |d|])
    ensures DigitRun(s, a) == |d|
  {
    OccursDigits(s, a, d);
    DigitRunExact(s, a, |d|);
  }

  /** A digit string found at `a` is no longer than the run of digits there. */
  lemma {:induction false} RunCovers(s: string, a: nat, d: string)
    requires OccursAt(s, d, a) && AllDigits(d)
    ensures DigitRun(s, a) >= |d|
  {
    OccursDigits(s, a, d);
    DigitRunCovers(s, a, |d|);
  }

  /** The first character of an occurrence. */
  lemma {:induction false} FirstAt(s: string, t: string, i: int)
    requires OccursAt(s, t, i) && |t| > 0
    ensures i < |s| && s[i] == t[0]
  {
    assert s[i + 0] == t[0];
  }

  /** `MatchAt` succeeds when each of its steps does. */
  lemma {:induction false} MatchAtOfRuns(s: string, p: Pattern, pos: nat, n1: nat, n2: nat)
    requires OccursAt(s, p.lead, pos)
    requires var a := pos + |p.lead|; DigitRun(s, a) == n1 > 0 && OccursAt(s, p.mid, a + n1)
    requires var c := pos + |p.lead| + n1 + |p.mid|; DigitRun(s, c) == n2 > 0 && OccursAt(s, p.tail, c + n2)
    ensures MatchAt(s, p, pos).Some?
  {
  }

  /** Wherever the pattern is spelled, `MatchAt` finds it and reports the first
      number; it reports the second too when that number is not followed by
      another digit (always the case when the tail is not empty). */
  lemma {:induction false} MatchAtComplete(s: string, p: Pattern, pos: nat, d1: string, d2: string)
    requires WellFormed(p) && Spells(s, p, pos, d1, d2)
    ensures MatchAt(s, p, pos).Some?
    ensures MatchAt(s, p, pos).value.0 == DigitsValue(d1)
    ensures var e := pos + |p.lead| + |d1| + |p.mid| + |d2|;
            e == |s| || !IsDigit(s[e]) ==> MatchAt(s, p, pos).value.1 == DigitsValue(d2)
  {
    var a := pos + |p.lead|;
    var b := a + |d1|;
    var c := b + |p.mid|;
    var d := c + |d2|;
    FirstAt(s, p.mid, b);
    RunAt(s, a, d1);
    RunCovers(s, c, d2);
    CutOccurs(s, d1, a);
    var exact := |p.tail| > 0 || d == |s| || !IsDigit(s[d]);
    if exact {
      if |p.tail| > 0 {
        FirstAt(s, p.tail, d);
      }
      RunAt(s, c, d2);
      CutOccurs(s, d2, c);
      MatchAtOfRuns(s, p, pos, |d1|, |d2|);
    } else {
      assert OccursAt(s, p.tail, c + DigitRun(s, c));
      MatchAtOfRuns(s, p, pos, |d1|, DigitRun(s, c));
    }
    GroupsValue(s, p, pos);
  }

  /** A match: where it starts and the two numbers it captured. */
  datatype Found = Found(pos: nat, first: nat, second: nat)

  function SearchFrom(s: string, p: Pattern, k: nat): (r: Option<Found>)
    ensures r.Some? ==> k <= r.value.pos
                        && MatchAt(s, p, r.value.pos) == Some((r.value.first, r.value.second))
                        && forall q :: k <= q < r.value.pos ==> MatchAt(s, p, q).None?
    ensures r.None? ==> forall q :: k <= q ==> MatchAt(s, p, q).None?
    decreases |s| + 1 - k
  {
    if k > |s| then None
    else
      match MatchAt(s, p, k)
      case Some(g) => Some(Found(k, g.0, g.1))
      case None => SearchFrom(s, p, k + 1)
  }

  /** `re.search(p, s)`: the leftmost match of `p` in `s`. */
  function Search(s: string, p: Pattern): (r: Option<Found>)
    ensures r.Some? ==> MatchAt(s, p, r.value.pos) == Some((r.value.first, r.value.second))
                        && forall q :: 0 <= q < r.value.pos ==> MatchAt(s, p, q).None?
    ensures r.None? ==> forall q :: 0 <= q ==> MatchAt(s, p, q).None?
  {
    SearchFrom(s, p, 0)
  }

  /** `re.search` reports a match whenever the pattern is spelled somewhere,
      at that place or earlier. */
  lemma {:induction false} SearchComplete(s: string, p: Pattern, pos: nat, d1: string, d2: string)
    requires WellFormed(p) && Spells(s, p, pos, d1, d2)
    ensures Search(s, p).Some? && Search(s, p).value.pos <= pos
  {
    MatchAtComplete(s, p, pos, d1, d2);
  }

  /** What `re.search` reports is spelled in the text with the reported
      numbers. */
  lemma {:induction false} SearchSound(s: string, p: Pattern)
    requires Search(s, p).Some?
    ensures var f := Search(s, p).value;
            exists d1, d2 :: Spells(s, p, f.pos, d1, d2) && (f.first, f.second) == (DigitsValue(d1), DigitsValue(d2))
  {
    MatchAtSound(s, p, Search(s, p).value.pos);
  }

  /** The line a testbench prints: the pattern with the two numbers filled in. */
  function Render(p: Pattern, x: nat, y: nat): string {
    p.lead + NatToDigits(x) + p.mid + NatToDigits(y) + p.tail
  }

  /** A pattern whose first character never occurs in `s` is not found in it. */
  lemma {:induction false} SearchAbsent(s: string, p: Pattern)
    requires |p.lead| > 0 && p.lead[0] !in s
    ensures Search(s, p).None?
  {
    forall q: nat | MatchAt(s, p, q).Some?
      ensures false
    {
      FirstAt(s, p.lead, q);
    }
  }

  /** Reading back a printed line yields the printed numbers, wherever the
      line stands: parse inverts print. The text before it must not hold the
      pattern's first character, and the text after it must not extend its
      last number. */
  lemma {:induction false} SearchRendered(pre: string, p: Pattern, x: nat, y: nat, rest: string)
    requires WellFormed(p) && |p.lead| > 0 && p.lead[0] !in pre
    requires |p.tail| > 0 || rest == [] || !IsDigit(rest[0])
    ensures Search(pre + Render(p, x, y) + rest, p) == Some(Found(|pre|, x, y))
  {
    var s := pre + Render(p, x, y) + rest;
    var d1, d2 := NatToDigits(x), NatToDigits(y);
    RenderedSpells(pre, p, x, y, rest);
    var e := |pre| + |p.lead| + |d1| + |p.mid| + |d2|;
    if |p.tail| == 0 && rest != [] {
      assert s[e] == rest[0];
    }
    MatchAtComplete(s, p, |pre|, d1, d2);
    forall q: nat | q < |pre|
      ensures MatchAt(s, p, q).None?
    {
      assert s[q] == pre[q];
      FirstMismatch(s, p.lead, q);
    }
    SearchLeftmost(s, p, |pre|);
  }

  /** A rendered line spells its pattern where it stands. */
  lemma {:induction false} RenderedSpells(pre: string, p: Pattern, x: nat, y: nat, rest: string)
    ensures Spells(pre + Render(p, x, y) + rest, p, |pre|, NatToDigits(x), NatToDigits(y))
  {
    var s := pre + Render(p, x, y) + rest;
    OccursMiddle(pre, Render(p, x, y), rest);
    SpellsConcat(s, p, |pre|, NatToDigits(x), NatToDigits(y));
  }

  /** Where a mismatch report starts, the marker occurs. */
  lemma {:induction false} KeyBeforeReport(s: string, i: int)
    requires OccursAt(s, Mismatches.lead, i)
    ensures Contains(s, MismatchesKey)
  {
    OccursConcat(s, MismatchesKey, " ", i);
  }

  /** The leftmost match is at `pos` when there is one there and none before. */
  lemma {:induction false} SearchLeftmost(s: string, p: Pattern, pos: nat)
    requires MatchAt(s, p, pos).Some?
    requires forall q: nat :: q < pos ==> MatchAt(s, p, q).None?
    ensures Search(s, p) == Some(Found(pos, MatchAt(s, p, pos).value.0, MatchAt(s, p, pos).value.1))
  {
    var r := Search(s, p);
    assert r.Some? && r.value.pos == pos;
  }
}
