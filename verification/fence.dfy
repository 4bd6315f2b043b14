/** Pulling code out of an LLM reply written in markdown, as the benchmark
    drivers and the dataset converter do with two chained `split` calls:
    the text after the first fence opened with the preferred tag, or else
    after the first bare fence, up to the next fence, stripped. A reply
    without any fence is kept as it is, unstripped. */
module Fence {
  import opened Common
  import opened Text

  /** A markdown fence. */
  const Tick := "```"

  /** What stands before the next fence in `x`, stripped
      (`x.split("```")[0].strip()`); it holds no fence. */
  function BeforeFence(x: string): (code: string)
    ensures !Contains(code, Tick)
  {
    SplitFirst(x, Tick);
    StripKeepsAbsent(Split(x, Tick)[0], Tick);
    Strip(Split(x, Tick)[0])
  }

  /** The fence tags of generated Verilog and Python code. */
  const VerilogTag := "verilog"
  const PythonTag := "python"

  /** The code in `reply`: the text after the first `Tick + tag` if there
      is one, else after the first bare `Tick`, up to the next fence and
      stripped; `reply` itself when it has no fence. */
  function ExtractFenced(reply: string, tag: string): (code: string)
    ensures !Contains(reply, Tick) ==> code == reply
    ensures Contains(reply, Tick) ==> !Contains(code, Tick)
  {
    var open := Tick + tag;
    if Contains(reply, open) then
      OpenHasTick(reply, tag);
      SplitFirst(reply, open);
      BeforeFence(Split(reply, open)[1])
    else if Contains(reply, Tick) then
      SplitFirst(reply, Tick);
      BeforeFence(Split(reply, Tick)[1])
    else reply
  }

  /** A tagged fence is a fence. */
  lemma {:induction false} OpenHasTick(reply: string, tag: string)
    requires Contains(reply, Tick + tag)
    ensures Contains(reply, Tick)
  {
    var i :| 0 <= i <= |reply| - |Tick + tag| && OccursAt(reply, Tick + tag, i);
    OccursConcat(reply, Tick, tag, i);
  }

  /** Extracting twice is extracting once: extracted code holds no fence. */
  lemma {:induction false} ExtractIdempotent(reply: string, tag: string)
    ensures ExtractFenced(ExtractFenced(reply, tag), tag) == ExtractFenced(reply, tag)
  {
    var code := ExtractFenced(reply, tag);
    if Contains(code, Tick + tag) {
      OpenHasTick(code, tag);
    }
  }

  /** A fenced block as an LLM writes it: the opening fence with its tag on
      a line of its own, the body, and the closing fence on a line of its own. */
  function Fenced(tag: string, body: string): string {
    Tick + tag + "\n" + body + "\n" + Tick
  }

  /** Extraction inverts fencing: a body without backticks and without
      surrounding whitespace comes back out of its fenced block. */
  lemma {:induction false} FenceRoundTrip(tag: string, body: string)
    requires |tag| > 0 && '`' !in body
    requires body == [] || (!IsSpace(body[0]) && !IsSpace(body[|body| - 1]))
    ensures ExtractFenced(Fenced(tag, body), tag) == body
  {
    var open := Tick + tag;
    var inner := "\n" + body + "\n";
    var a := inner + Tick;
    var reply := Fenced(tag, body);
    assert reply == open + a;
    OpeningFence(open, a);
    SplitStep(reply, open, 0);
    assert reply[|open|..] == a;
    NoOpenInBlock(tag, body);
    assert Split(a, open) == [a];
    ClosingFence(inner);
    SplitStep(a, Tick, |inner|);
    assert a[..|inner|] == inner;
    StripPadded(body);
  }

  /** The opening fence stands first. */
  lemma {:induction false} OpeningFence(open: string, a: string)
    requires |open| > 0
    ensures IndexOf(open + a, open) == Some(0)
  {
    assert OccursAt(open + a, open, 0);
  }

  /** After the opening fence, no tagged fence starts before the end. */
  lemma {:induction false} NoOpenInBlock(tag: string, body: string)
    requires |tag| > 0 && '`' !in body
    ensures !Contains("\n" + body + "\n" + Tick, Tick + tag)
  {
    var a := "\n" + body + "\n" + Tick;
    forall j | 0 <= j <= |a| - |Tick + tag|
      ensures !OccursAt(a, Tick + tag, j)
    {
      assert a[j] != '`' by {
        if 0 < j <= |body| {
          assert a[j] == body[j - 1];
        }
      }
      FirstMismatch(a, Tick + tag, j);
    }
  }

  /** In a text without backticks followed by a fence, the leftmost fence
      is that one. */
  lemma {:induction false} ClosingFence(inner: string)
    requires '`' !in inner
    ensures IndexOf(inner + Tick, Tick) == Some(|inner|)
  {
    var a := inner + Tick;
    assert OccursAt(a, Tick, |inner|);
    forall j | 0 <= j < |inner|
      ensures !OccursAt(a, Tick, j)
    {
      assert a[j] == inner[j];
      FirstMismatch(a, Tick, j);
    }
    LeftmostAt(a, Tick, |inner|);
  }

  /** A body without surrounding whitespace, padded with one newline on each
      side, strips back to itself. */
  lemma {:induction false} StripPadded(body: string)
    requires body == [] || (!IsSpace(body[0]) && !IsSpace(body[|body| - 1]))
    ensures Strip("\n" + body + "\n") == body
  {
    var s := "\n" + body + "\n";
    if body == [] {
      assert s[1..] == "\n" && s[1..][1..] == [];
      assert LeadRun(s) == 2;
    } else {
      assert s[1..][0] == body[0];
      assert LeadRun(s) == 1;
      var front := s[..|s| - 1];
      assert front[|front| - 1] == body[|body| - 1];
      assert TrailRun(s) == 1;
      assert s[1..|s| - 1] == body;
    }
  }
}
