/** `convert_problems.py`: turn each `<name>_prompt.txt` of the source
    dataset whose three companion files exist into a problem directory: the
    interface becomes the initial program's skeleton, the prompt's text
    before the first `module` becomes the description, and both are indented
    into the generated configuration. File contents are inputs; copying and
    writing files is left out. */
module ProblemConversion {
  import opened Common
  import opened Text

  /** The suffix that marks a problem's prompt file. */
  const PromptSuffix := "_prompt.txt"

  /** `filename.replace("_prompt.txt", "")`: every occurrence is removed,
      not only the suffix. */
  function BaseName(filename: string): string {
    ReplaceAll(filename, PromptSuffix, "")
  }

  /** When the suffix is the only occurrence of `_prompt.txt` in a file
      name, the base name is the file name without it. */
  lemma {:induction false} BaseNameDropsSuffix(name: string)
    requires forall j :: 0 <= j < |name| ==> !OccursAt(name + PromptSuffix, PromptSuffix, j)
    ensures BaseName(name + PromptSuffix) == name
  {
    var s := name + PromptSuffix;
    assert OccursAt(s, PromptSuffix, |name|);
    LeftmostAt(s, PromptSuffix, |name|);
    SplitStep(s, PromptSuffix, |name|);
    assert s[..|name|] == name;
    assert s[|name| + |PromptSuffix|..] == [];
    assert IndexOf([], PromptSuffix).None?;
    JoinCons("", name, Split([], PromptSuffix));
  }

  /** The test bench, interface and reference files a problem needs. */
  function Companions(base: string): seq<string> {
    [base + "_test.sv", base + "_ifc.txt", base + "_ref.sv"]
  }

  /** A problem is converted only when all its companions exist. */
  predicate Convertible(base: string, files: set<string>) {
    forall k :: 0 <= k < |Companions(base)| ==> Companions(base)[k] in files
  }

  /** The base names of the prompt files, in order. */
  function BaseNames(prompts: seq<string>): (names: seq<string>)
    ensures |names| == |prompts|
    ensures forall k :: 0 <= k < |prompts| ==> names[k] == BaseName(prompts[k])
  {
    if prompts == [] then [] else BaseNames(prompts[..|prompts| - 1]) + [BaseName(prompts[|prompts| - 1])]
  }

  /** The problems converted from the prompt files `prompts`, in order: the
      ones whose companions are among `files`. */
  function Converted(prompts: seq<string>, files: set<string>): (bases: seq<string>)
    ensures |bases| <= |prompts|
  {
    if prompts == [] then []
    else
      var last := BaseName(prompts[|prompts| - 1]);
      var before := Converted(prompts[..|prompts| - 1], files);
      if Convertible(last, files) then before + [last] else before
  }

  /** A problem is converted exactly when it has a prompt file and all its
      companions. */
  lemma {:induction false} ConvertedMembers(prompts: seq<string>, files: set<string>)
    ensures forall b :: b in Converted(prompts, files) <==> b in BaseNames(prompts) && Convertible(b, files)
    decreases |prompts|
  {
    if prompts != [] {
      var shorter := prompts[..|prompts| - 1];
      ConvertedMembers(shorter, files);
      assert BaseNames(prompts) == BaseNames(shorter) + [BaseName(prompts[|prompts| - 1])];
    }
  }

  /** The conversions of a prefix of the prompt files come first among the
      conversions of all of them. */
  lemma {:induction false} ConvertedPrefix(prompts: seq<string>, files: set<string>, k: nat)
    requires k <= |prompts|
    ensures var head := Converted(prompts[..k], files);
            |head| <= |Converted(prompts, files)| && head == Converted(prompts, files)[..|head|]
    decreases |prompts|
  {
    if k < |prompts| {
      var shorter := prompts[..|prompts| - 1];
      assert shorter[..k] == prompts[..k];
      ConvertedPrefix(shorter, files, k);
    } else {
      assert prompts[..k] == prompts;
    }
  }

  /** The initial program: the stripped interface closed by `endmodule`. */
  const Footer := "\n\nendmodule\n"

  function Skeleton(interface: string): string {
    Strip(interface) + Footer
  }

  /** The closing text of the skeleton once stripped. */
  const Closing := "endmodule"

  /** Stripping the skeleton strips the interface and the closing line's
      break. */
  lemma {:induction false} SkeletonStrip(interface: string)
    ensures Strip(Skeleton(interface)) == if Strip(interface) == [] then Closing else Strip(interface) + "\n\n" + Closing
  {
    var s := Strip(interface);
    if s == [] {
      assert Skeleton(interface) == "\n\n" + Closing + "\n";
      StripAround("\n\n", Closing, "\n");
    } else {
      var t := s + "\n\n" + Closing;
      assert Skeleton(interface) == [] + t + "\n";
      StripAround([], t, "\n");
    }
  }

  /** The skeleton's lines are the interface's, a blank line and
      `endmodule`; a blank interface leaves only `endmodule`. */
  lemma {:induction false} SkeletonLines(interface: string)
    ensures LineCount(Skeleton(interface)) == LineCount(interface) + (if Strip(interface) == [] then 1 else 2)
  {
    var s := Strip(interface);
    SkeletonStrip(interface);
    assert multiset(Closing)['\n'] == 0 by {
      assert '\n' !in Closing;
    }
    if s != [] {
      assert multiset(s + "\n\n" + Closing) == multiset(s) + multiset("\n\n") + multiset(Closing);
    }
  }

  /** The index of the first `module` in `prompt`, or its length. */
  function Head(prompt: string): (n: nat)
    ensures n <= |prompt|
  {
    match IndexOf(prompt, "module")
    case None => |prompt|
    case Some(i) => i
  }

  /** The description: the prompt's text before the first `module`, or the
      whole prompt, stripped. */
  function Description(prompt: string): string {
    if Contains(prompt, "module") then Strip(Split(prompt, "module")[0]) else Strip(prompt)
  }

  /** The description is stripped text from before the first `module`, and
      it never mentions `module` itself. */
  lemma {:induction false} DescriptionBeforeModule(prompt: string)
    ensures Description(prompt) == Strip(prompt[..Head(prompt)])
    ensures var d := Description(prompt);
            && !Contains(d, "module")
            && Contains(prompt[..Head(prompt)], d)
            && (d == [] || (!IsSpace(d[0]) && !IsSpace(d[|d| - 1])))
  {
    var head := prompt[..Head(prompt)];
    match IndexOf(prompt, "module") {
      case None =>
        assert head == prompt;
      case Some(i) =>
        SplitStep(prompt, "module", i);
        SplitFirst(prompt, "module");
        assert Split(prompt, "module")[0] == head;
    }
    var d := Strip(head);
    StripKeepsAbsent(head, "module");
    assert OccursAt(head, d, LeadRun(head));
  }

  /** What follows each line break of an indented block. */
  const IndentSep := "\n    "

  /** `"\n    ".join(text.splitlines())`: every line after the first is
      indented by four spaces. */
  function Indent(text: string): string {
    Join(IndentSep, SplitLines(text))
  }

  /** The indentation can be undone: splitting at the indented line breaks
      gives back the lines. */
  lemma {:induction false} IndentRoundTrip(text: string)
    requires text != []
    ensures Split(Indent(text), IndentSep) == SplitLines(text)
  {
    LinesFree(text);
    JoinSplit(IndentSep, SplitLines(text));
  }
}
