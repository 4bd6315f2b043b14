/** The parts of Python's `str` API the scripts rely on, over `seq<char>`:
    `strip`, `in`, `find`, `split`, `join`, `splitlines`, `lower`, `replace`,
    and `os.path.join` / `os.path.basename`. */
module Text {
  import opened Common

  /** Python's `str.isspace()`: the characters `str.strip()` removes. */
  predicate IsSpace(c: char) {
    || c == ' '
    || '\t' <= c <= '\r'
    || '\U{1c}' <= c <= '\U{1f}'
    || c == '\U{85}' || c == '\U{a0}' || c == '\U{1680}'
    || '\U{2000}' <= c <= '\U{200a}'
    || c == '\U{2028}' || c == '\U{2029}' || c == '\U{202f}' || c == '\U{205f}' || c == '\U{3000}'
  }

  /** The length of the run of whitespace that `s` starts with. */
  function LeadRun(s: string): (n: nat)
    ensures n <= |s|
    ensures forall k :: 0 <= k < n ==> IsSpace(s[k])
    ensures n < |s| ==> !IsSpace(s[n])
  {
    if |s| > 0 && IsSpace(s[0]) then 1 + LeadRun(s[1..]) else 0
  }

  /** The length of the run of whitespace that `s` ends with. */
  function TrailRun(s: string): (n: nat)
    ensures n <= |s|
    ensures forall k :: |s| - n <= k < |s| ==> IsSpace(s[k])
    ensures n < |s| ==> !IsSpace(s[|s| - n - 1])
  {
    if |s| > 0 && IsSpace(s[|s| - 1]) then 1 + TrailRun(s[..|s| - 1]) else 0
  }

  /** Python's `str.strip()`: `s` without its leading and trailing
      whitespace. The result stands at `LeadRun(s)` in `s`; every character
      of `s` outside it is whitespace, and it neither starts nor ends with
      whitespace. */
  function Strip(s: string): (r: string)
    ensures LeadRun(s) + |r| <= |s| && OccursAt(s, r, LeadRun(s))
    ensures forall k :: 0 <= k < |s| && !IsSpace(s[k]) ==> LeadRun(s) <= k < LeadRun(s) + |r|
    ensures r == [] || (!IsSpace(r[0]) && !IsSpace(r[|r| - 1]))
  {
    var a := LeadRun(s);
    if a == |s| then []
    else
      var b := |s| - TrailRun(s);
      assert a < b;
      s[a..b]
  }

  /** Stripping cannot create an occurrence. */
  lemma {:induction false} StripKeepsAbsent(s: string, t: string)
    requires !Contains(s, t)
    ensures !Contains(Strip(s), t)
  {
    var r := Strip(s);
    forall j | 0 <= j <= |r| - |t| && OccursAt(r, t, j)
      ensures false
    {
      OccursWithin(s, r, LeadRun(s), t, j);
    }
  }

  /** `t` occurs in `s` starting at index `i`. */
  predicate OccursAt(s: string, t: string, i: int) {
    0 <= i && i + |t| <= |s| && forall k :: 0 <= k < |t| ==> s[i + k] == t[k]
  }

  /** A text whose first character differs from `s[i]` does not occur at `i`. */
  lemma {:induction false} FirstMismatch(s: string, t: string, i: int)
    requires 0 <= i < |s| && |t| > 0 && s[i] != t[0]
    ensures !OccursAt(s, t, i)
  {
    assert s[i + 0] == s[i];
  }

  /** A one-character text occurs exactly where that character stands. */
  lemma {:induction false} SingleOccurs(s: string, c: char, j: int)
    requires 0 <= j < |s|
    ensures OccursAt(s, [c], j) <==> s[j] == c
  {
    assert s[j + 0] == s[j] && [c][0] == c;
  }

  /** Python's `t in s`. */
  predicate Contains(s: string, t: string) {
    exists i | 0 <= i <= |s| - |t| :: OccursAt(s, t, i)
  }

  predicate StartsWith(s: string, prefix: string) {
    |prefix| <= |s| && s[..|prefix|] == prefix
  }

  predicate EndsWith(s: string, suffix: string) {
    |suffix| <= |s| && s[|s| - |suffix|..] == suffix
  }

  /** A concatenation ends with its last part. */
  lemma {:induction false} EndsWithConcat(p: string, t: string)
    ensures EndsWith(p + t, t)
  {
    assert (p + t)[|p|..] == t;
  }

  /** A concatenation starts with its first part. */
  lemma {:induction false} StartsWithConcat(p: string, t: string)
    ensures StartsWith(p + t, p)
  {
    assert (p + t)[..|p|] == p;
  }

  lemma {:induction false} OccursInSlice(s: string, t: string, lo: int, hi: int, j: int)
    requires 0 <= lo <= hi <= |s|
    requires OccursAt(s[lo..hi], t, j)
    ensures OccursAt(s, t, lo + j)
  {
    var u := s[lo..hi];
    assert forall k :: 0 <= k < |t| ==> t[k] == u[j + k] == s[lo + j + k];
    assert s[lo + j..lo + j + |t|] == t;
  }

  lemma {:induction false} OccursInConcat(a: string, b: string, t: string, j: int)
    requires OccursAt(a, t, j)
    ensures OccursAt(a + b, t, j)
  {
    assert (a + b)[j..j + |t|] == a[j..j + |t|];
  }

  /** The characters of `s` from `lo` up to `hi`, as `s[lo:hi]` in Python. */
  function Cut(s: string, lo: nat, hi: nat): (r: string)
    requires lo <= hi <= |s|
    ensures |r| == hi - lo && OccursAt(s, r, lo)
  {
    seq(hi - lo, k requires 0 <= k < hi - lo => s[lo + k])
  }

  /** Cutting out an occurrence gives back what occurs there. */
  lemma {:induction false} CutOccurs(s: string, t: string, i: nat)
    requires OccursAt(s, t, i)
    ensures Cut(s, i, i + |t|) == t
  {
  }

  /** `u + v` occurs at `i` exactly when `u` does and `v` follows it. */
  lemma {:induction false} OccursConcat(s: string, u: string, v: string, i: int)
    ensures OccursAt(s, u + v, i) <==> OccursAt(s, u, i) && OccursAt(s, v, i + |u|)
  {
    if 0 <= i && i + |u| + |v| <= |s| {
      assert s[i..i + |u| + |v|] == s[i..i + |u|] + s[i + |u|..i + |u| + |v|];
      if s[i..i + |u| + |v|] == u + v {
        assert s[i..i + |u|] == (u + v)[..|u|];
        assert s[i + |u|..i + |u| + |v|] == (u + v)[|u|..];
      }
    }
  }

  /** An occurrence inside an occurrence is an occurrence. */
  lemma {:induction false} OccursWithin(s: string, u: string, i: int, t: string, j: int)
    requires OccursAt(s, u, i) && OccursAt(u, t, j)
    ensures OccursAt(s, t, i + j)
  {
    forall k | 0 <= k < |t|
      ensures s[i + j + k] == t[k]
    {
      assert s[i + (j + k)] == u[j + k];
    }
  }

  /** Lower-casing keeps occurrences, lower-cased. */
  lemma {:induction false} OccursLower(s: string, t: string, i: int)
    requires OccursAt(s, t, i)
    ensures OccursAt(ToLower(s), ToLower(t), i)
  {
    forall k | 0 <= k < |t|
      ensures ToLower(s)[i + k] == ToLower(t)[k]
    {
      assert s[i + k] == t[k];
    }
  }

  /** The middle part of a three-part concatenation occurs after the first. */
  lemma {:induction false} OccursMiddle(a: string, b: string, c: string)
    ensures OccursAt(a + b + c, b, |a|)
  {
    forall k | 0 <= k < |b|
      ensures (a + b + c)[|a| + k] == b[k]
    {
    }
  }

  /** A prefix of the middle part occurs in a three-part concatenation. */
  lemma {:induction false} OccursInMiddle(a: string, b: string, c: string, t: string)
    requires StartsWith(b, t)
    ensures Contains(a + b + c, t)
  {
    var s := a + b + c;
    forall k | 0 <= k < |t|
      ensures s[|a| + k] == t[k]
    {
      assert s[|a| + k] == b[k] == b[..|t|][k];
    }
    assert OccursAt(s, t, |a|);
  }

  /** A string contains a one-character string exactly when it holds that character. */
  lemma {:induction false} ContainsChar(s: string, c: char)
    ensures Contains(s, [c]) <==> c in s
  {
    if c in s {
      var i :| 0 <= i < |s| && s[i] == c;
      assert OccursAt(s, [c], i);
    }
    if Contains(s, [c]) {
      var i :| 0 <= i <= |s| - 1 && OccursAt(s, [c], i);
      assert s[i + 0] == [c][0] == c;
    }
  }

  function IndexFrom(s: string, t: string, k: nat): (r: Option<nat>)
    ensures r.Some? ==> k <= r.value && OccursAt(s, t, r.value)
                        && forall j :: k <= j < r.value ==> !OccursAt(s, t, j)
    ensures r.None? ==> forall j :: k <= j ==> !OccursAt(s, t, j)
    decreases |s| - k
  {
    if k + |t| > |s| then None
    else if OccursAt(s, t, k) then Some(k)
    else IndexFrom(s, t, k + 1)
  }

  /** Python's `s.find(t)`: the leftmost occurrence of `t` in `s`, if any. */
  function IndexOf(s: string, t: string): (r: Option<nat>)
    ensures r.Some? ==> OccursAt(s, t, r.value) && forall j :: 0 <= j < r.value ==> !OccursAt(s, t, j)
    ensures r.None? <==> !Contains(s, t)
  {
    IndexFrom(s, t, 0)
  }

  /** Nothing before the leftmost occurrence of `t` contains `t`. */
  lemma {:induction false} PrefixBeforeLeftmost(s: string, t: string, i: int)
    requires |t| > 0 && 0 <= i <= |s|
    requires forall j :: 0 <= j < i ==> !OccursAt(s, t, j)
    ensures !Contains(s[..i], t)
  {
    if Contains(s[..i], t) {
      var j :| 0 <= j <= i - |t| && OccursAt(s[..i], t, j);
      OccursInSlice(s, t, 0, i, j);
    }
  }

  /** Python's `sep.join(parts)`. */
  function Join(sep: string, parts: seq<string>): string {
    if |parts| == 0 then ""
    else if |parts| == 1 then parts[0]
    else parts[0] + sep + Join(sep, parts[1..])
  }

  /** Python's `s.split(sep)` for a non-empty separator: the pieces between
      the occurrences of `sep` found left to right without overlap. */
  function Split(s: string, sep: string): (parts: seq<string>)
    requires |sep| > 0
    ensures |parts| >= 1
    decreases |s|
  {
    match IndexOf(s, sep)
    case None => [s]
    case Some(i) => [s[..i]] + Split(s[i + |sep|..], sep)
  }

  /** Joining the pieces of a split with the separator gives back the text. */
  lemma {:induction false} SplitJoin(s: string, sep: string)
    requires |sep| > 0
    ensures Join(sep, Split(s, sep)) == s
    decreases |s|
  {
    match IndexOf(s, sep)
    case None =>
    case Some(i) =>
      var rest := s[i + |sep|..];
      SplitStep(s, sep, i);
      SplitJoin(rest, sep);
      JoinCons(sep, s[..i], Split(rest, sep));
      SplitAround(s, sep, i);
  }

  /** One step of a split at the leftmost separator. */
  lemma {:induction false} SplitStep(s: string, sep: string, i: nat)
    requires |sep| > 0 && IndexOf(s, sep) == Some(i)
    ensures Split(s, sep) == [s[..i]] + Split(s[i + |sep|..], sep)
  {
  }

  /** A text is what precedes an occurrence, the occurrence, and what
      follows it. */
  lemma {:induction false} SplitAround(s: string, t: string, i: int)
    requires OccursAt(s, t, i)
    ensures s == s[..i] + t + s[i + |t|..]
  {
    assert s[i..i + |t|] == t;
    assert s[..i + |t|] == s[..i] + s[i..i + |t|];
    assert s == s[..i + |t|] + s[i + |t|..];
  }

  /** Joining a list with a head puts the separator after the head. */
  lemma {:induction false} JoinCons(sep: string, p: string, ps: seq<string>)
    requires |ps| >= 1
    ensures Join(sep, [p] + ps) == p + sep + Join(sep, ps)
  {
    assert ([p] + ps)[1..] == ps;
  }

  /** The first piece of a split is the text before the leftmost separator,
      or the whole text when there is none; it holds no separator. */
  lemma {:induction false} SplitFirst(s: string, sep: string)
    requires |sep| > 0
    ensures var parts := Split(s, sep);
            && (|parts| == 1 <==> !Contains(s, sep))
            && parts[0] == s[..|parts[0]|] && !Contains(parts[0], sep)
            && (|parts| > 1 ==> OccursAt(s, sep, |parts[0]|))
  {
    match IndexOf(s, sep)
    case None =>
    case Some(i) =>
      PrefixBeforeLeftmost(s, sep, i);
  }

  /** Python's `s.splitlines()` when '\n' is the only line break: the pieces
      between line breaks, where a final line break does not start a new line. */
  function SplitLines(s: string): (lines: seq<string>)
    ensures |lines| == 0 <==> s == []
  {
    if s == [] then []
    else
      var parts := Split(s, "\n");
      if parts[|parts| - 1] == [] then parts[..|parts| - 1] else parts
  }

  /** An occurrence with none before it is the leftmost one. */
  lemma {:induction false} LeftmostAt(s: string, t: string, i: nat)
    requires OccursAt(s, t, i)
    requires forall j :: 0 <= j < i ==> !OccursAt(s, t, j)
    ensures IndexOf(s, t) == Some(i)
  {
    var r := IndexOf(s, t);
    assert r.Some?;
    assert r.value <= i;
  }

  /** No piece of a split holds the separator. */
  lemma {:induction false} SplitPiecesFree(s: string, sep: string)
    requires |sep| > 0
    ensures forall k :: 0 <= k < |Split(s, sep)| ==> !Contains(Split(s, sep)[k], sep)
    decreases |s|
  {
    SplitFirst(s, sep);
    match IndexOf(s, sep)
    case None =>
    case Some(i) =>
      SplitStep(s, sep, i);
      SplitPiecesFree(s[i + |sep|..], sep);
  }

  /** No line of `SplitLines` holds a line break. */
  lemma {:induction false} LinesFree(s: string)
    ensures forall k :: 0 <= k < |SplitLines(s)| ==> '\n' !in SplitLines(s)[k]
  {
    if s != [] {
      var parts := Split(s, "\n");
      SplitPiecesFree(s, "\n");
      forall k | 0 <= k < |SplitLines(s)|
        ensures '\n' !in SplitLines(s)[k]
      {
        assert SplitLines(s)[k] == parts[k];
        ContainsChar(parts[k], '\n');
      }
    }
  }

  /** Splitting a join gives the parts back when no part holds the
      separator's first character. */
  lemma {:induction false} JoinSplit(sep: string, parts: seq<string>)
    requires |sep| > 0 && |parts| >= 1
    requires forall k :: 0 <= k < |parts| ==> sep[0] !in parts[k]
    ensures Split(Join(sep, parts), sep) == parts
    decreases |parts|
  {
    var p := parts[0];
    forall j | 0 <= j < |p|
      ensures !OccursAt(p, sep, j)
    {
      FirstMismatch(p, sep, j);
    }
    if |parts| == 1 {
      assert IndexOf(p, sep).None?;
    } else {
      var rest := Join(sep, parts[1..]);
      var s := p + sep + rest;
      assert Join(sep, parts) == s;
      OccursMiddle(p, sep, rest);
      forall j | 0 <= j < |p|
        ensures !OccursAt(s, sep, j)
      {
        FirstMismatch(s, sep, j);
      }
      LeftmostAt(s, sep, |p|);
      SplitStep(s, sep, |p|);
      assert s[..|p|] == p;
      assert s[|p| + |sep|..] == rest;
      JoinSplit(sep, parts[1..]);
      assert [p] + parts[1..] == parts;
    }
  }

  /** A join holds only characters of its separator and of its parts. */
  lemma {:induction false} JoinAvoids(sep: string, parts: seq<string>, c: char)
    requires c !in sep
    requires forall k :: 0 <= k < |parts| ==> c !in parts[k]
    ensures c !in Join(sep, parts)
    decreases |parts|
  {
    if |parts| > 1 {
      JoinAvoids(sep, parts[1..], c);
    }
  }

  /** After replacing every occurrence of a character, none is left. */
  lemma {:induction false} ReplaceAllChar(s: string, c: char, replacement: string)
    requires c !in replacement
    ensures c !in ReplaceAll(s, [c], replacement)
  {
    var parts := Split(s, [c]);
    SplitPiecesFree(s, [c]);
    forall k | 0 <= k < |parts|
      ensures c !in parts[k]
    {
      ContainsChar(parts[k], c);
    }
    JoinAvoids(replacement, parts, c);
  }

  /** `len(s.strip().splitlines())`, the line count every scoring rule
      reports. The stripped text has no line break at either end, so it has
      one line more than it has line breaks (`LineCountSplitLines`). */
  function LineCount(s: string): nat {
    var t := Strip(s);
    if t == [] then 0 else multiset(t)['\n'] + 1
  }

  /** Stripping whitespace-only runs from around a text that neither starts
      nor ends with whitespace gives that text back. */
  lemma {:induction false} StripAround(a: string, t: string, b: string)
    requires forall k :: 0 <= k < |a| ==> IsSpace(a[k])
    requires forall k :: 0 <= k < |b| ==> IsSpace(b[k])
    requires t != [] && !IsSpace(t[0]) && !IsSpace(t[|t| - 1])
    ensures Strip(a + t + b) == t
  {
    var s := a + t + b;
    var r := Strip(s);
    assert s[|a|] == t[0];
    assert LeadRun(s) == |a|;
    assert s[|a| + |t| - 1] == t[|t| - 1];
    assert r == s[|a|..|a| + |t|] == t;
  }

  /** A text with a non-blank character has at least one line. */
  lemma {:induction false} LineCountPositive(s: string, i: int)
    requires 0 <= i < |s| && !IsSpace(s[i])
    ensures LineCount(s) > 0
  {
    assert LeadRun(s) <= i < LeadRun(s) + |Strip(s)|;
  }

  /** Splitting on a one-character separator gives one piece more than the
      text has separators. */
  lemma {:induction false} SplitCount(s: string, c: char)
    ensures |Split(s, [c])| == multiset(s)[c] + 1
    decreases |s|
  {
    match IndexOf(s, [c])
    case None =>
      ContainsChar(s, c);
    case Some(i) =>
      forall j | 0 <= j < i
        ensures s[j] != c
      {
        SingleOccurs(s, c, j);
      }
      assert s[i + 0] == [c][0];
      var rest := s[i + 1..];
      assert s == s[..i] + [c] + rest;
      assert c !in s[..i];
      SplitCount(rest, c);
  }

  /** A non-empty list is its front followed by its last element. */
  lemma {:induction false} LastSplit<T>(xs: seq<T>)
    requires |xs| > 0
    ensures xs == xs[..|xs| - 1] + [xs[|xs| - 1]]
  {
  }

  /** `sep.join` of a list with one more element appends the separator and it. */
  lemma {:induction false} JoinSnoc(sep: string, ps: seq<string>, p: string)
    requires |ps| >= 1
    ensures Join(sep, ps + [p]) == Join(sep, ps) + sep + p
    decreases |ps|
  {
    if |ps| == 1 {
      assert ps + [p] == [ps[0], p];
    } else {
      assert (ps + [p])[1..] == ps[1..] + [p];
      JoinSnoc(sep, ps[1..], p);
    }
  }

  /** A text is the join of all but the last piece of its split, the
      separator, and the last piece. */
  lemma {:induction false} SplitLast(s: string, sep: string)
    requires |sep| > 0
    ensures var parts := Split(s, sep); var n := |parts|;
            && (n == 1 ==> s == parts[0])
            && (n > 1 ==> s == Join(sep, parts[..n - 1]) + sep + parts[n - 1])
  {
    var parts := Split(s, sep);
    var n := |parts|;
    SplitJoin(s, sep);
    if n > 1 {
      LastSplit(parts);
      JoinSnoc(sep, parts[..n - 1], parts[n - 1]);
    }
  }

  /** The last piece of a split is empty only for the empty text or a text
      that ends with the separator. */
  lemma {:induction false} SplitLastEmpty(s: string, sep: string)
    requires |sep| > 0
    ensures var parts := Split(s, sep); parts[|parts| - 1] == [] ==> s == [] || EndsWith(s, sep)
  {
    var parts := Split(s, sep);
    var n := |parts|;
    SplitLast(s, sep);
    if n > 1 && parts[n - 1] == [] {
      var front := Join(sep, parts[..n - 1]);
      assert front + sep + parts[n - 1] == front + sep;
      EndsWithConcat(front, sep);
    }
  }

  /** The line count is the number of pieces `splitlines` cuts the stripped
      text into. */
  lemma {:induction false} LineCountSplitLines(s: string)
    ensures LineCount(s) == |SplitLines(Strip(s))|
  {
    var t := Strip(s);
    if t != [] {
      SplitCount(t, '\n');
      SplitLastEmpty(t, "\n");
      assert t[|t| - 1..] == [t[|t| - 1]];
      assert !EndsWith(t, "\n");
    }
  }

  function LowerChar(c: char): char {
    if 'A' <= c <= 'Z' then (c as int + 32) as char else c
  }

  /** `s.lower()` on ASCII letters. */
  function ToLower(s: string): (r: string)
    ensures |r| == |s| && forall i :: 0 <= i < |s| ==> r[i] == LowerChar(s[i])
  {
    seq(|s|, i requires 0 <= i < |s| => LowerChar(s[i]))
  }

  /** Python's `s.replace(pattern, replacement)` for a non-empty `pattern`. */
  function ReplaceAll(s: string, pattern: string, replacement: string): string
    requires |pattern| > 0
  {
    Join(replacement, Split(s, pattern))
  }

  /** Python's `s.replace(pattern, replacement, 1)`. */
  function ReplaceFirst(s: string, pattern: string, replacement: string): string {
    match IndexOf(s, pattern)
    case None => s
    case Some(i) => s[..i] + replacement + s[i + |pattern|..]
  }

  /** Replacing every occurrence of a character by one character maps the
      text position by position. */
  lemma {:induction false} ReplaceAllCharPointwise(s: string, c: char, d: char)
    ensures |ReplaceAll(s, [c], [d])| == |s|
    ensures forall k :: 0 <= k < |s| ==> ReplaceAll(s, [c], [d])[k] == if s[k] == c then d else s[k]
    decreases |s|
  {
    match IndexOf(s, [c])
    case None =>
      ContainsChar(s, c);
    case Some(i) =>
      var rest := s[i + 1..];
      SplitStep(s, [c], i);
      JoinCons([d], s[..i], Split(rest, [c]));
      ReplaceAllCharPointwise(rest, c, d);
      var r := ReplaceAll(s, [c], [d]);
      assert r == s[..i] + [d] + ReplaceAll(rest, [c], [d]);
      forall k | 0 <= k < |s|
        ensures r[k] == if s[k] == c then d else s[k]
      {
        if k < i {
          assert !OccursAt(s, [c], k);
          assert s[k + 0] != [c][0];
        } else if k == i {
          assert s[i + 0] == [c][0];
        } else {
          assert r[k] == ReplaceAll(rest, [c], [d])[k - i - 1];
          assert rest[k - i - 1] == s[k];
        }
      }
  }

  /** Replacing the first occurrence of a character by one character
      changes that position only. */
  lemma {:induction false} ReplaceFirstCharPointwise(s: string, c: char, d: char)
    ensures |ReplaceFirst(s, [c], [d])| == |s|
    ensures forall k :: 0 <= k < |s| ==>
              ReplaceFirst(s, [c], [d])[k] == if s[k] == c && forall j :: 0 <= j < k ==> s[j] != c then d else s[k]
  {
    var r := ReplaceFirst(s, [c], [d]);
    match IndexOf(s, [c])
    case None =>
      ContainsChar(s, c);
    case Some(i) =>
      assert s[i + 0] == [c][0];
      forall k | 0 <= k < |s|
        ensures r[k] == if s[k] == c && forall j :: 0 <= j < k ==> s[j] != c then d else s[k]
      {
        if k < i {
          assert !OccursAt(s, [c], k);
          assert s[k + 0] != [c][0];
        } else if k == i {
          forall j | 0 <= j < k
            ensures s[j] != c
          {
            assert !OccursAt(s, [c], j);
            assert s[j + 0] != [c][0];
          }
        }
      }
  }

  /** `os.path.join(a, b)` on POSIX. */
  function PathJoin(a: string, b: string): string {
    if |b| > 0 && b[0] == '/' then b
    else if a == [] then b
    else if a[|a| - 1] == '/' then a + b
    else a + "/" + b
  }

  /** Joining a relative path keeps the directory in front and the path at the end. */
  lemma {:induction false} PathJoinRelative(a: string, b: string)
    requires b == [] || b[0] != '/'
    ensures StartsWith(PathJoin(a, b), a) && EndsWith(PathJoin(a, b), b)
  {
    var r := PathJoin(a, b);
    if a != [] {
      if a[|a| - 1] == '/' {
        assert r == a + b;
      } else {
        assert r == a + "/" + b;
      }
      assert r[..|a|] == a;
      assert r[|r| - |b|..] == b;
    }
  }

  /** `os.path.basename(p)`: the text after the last '/'. */
  function Basename(p: string): string {
    var parts := Split(p, "/");
    parts[|parts| - 1]
  }

  /** The concatenation of `parts`: `"".join(parts)`. */
  function Concat(parts: seq<string>): string {
    if |parts| == 0 then "" else parts[0] + Concat(parts[1..])
  }

  /** Concatenating a list is concatenating its two halves. */
  lemma {:induction false} ConcatSplitAt(parts: seq<string>, k: nat)
    requires k <= |parts|
    ensures Concat(parts) == Concat(parts[..k]) + Concat(parts[k..])
    decreases k
  {
    if k > 0 {
      ConcatSplitAt(parts[1..], k - 1);
      assert parts[1..][..k - 1] == parts[1..k];
      assert parts[1..][k - 1..] == parts[k..];
      assert parts[..k][1..] == parts[1..k];
    } else {
      assert parts[k..] == parts;
    }
  }
}
