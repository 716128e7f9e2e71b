/**
  The deterministic analyser and content generator (`MetaLLMAnalyzer`): a fixed task
  analysis, a table from component type to text, the rationale and the assembly of the
  final prompt. Nothing here reads or writes state.
 */
module MetaLlm {
  import opened Wrappers
  import opened PromptModels

  /** The dictionary returned by `analyze_task`. */
  datatype TaskAnalysis = TaskAnalysis(
    detectedTasks: seq<TaskType>,
    detectedBehaviors: seq<BehaviorType>,
    domainHint: Option<string>)

  /** The same analysis for every prompt: deduction, precision then step-by-step, no domain. */
  function AnalyzeTask(userPrompt: string): (a: TaskAnalysis)
    ensures a.detectedTasks == [Deduction]
    ensures a.detectedBehaviors == [Precision, StepByStep]
    ensures a.domainHint.None?
  {
    TaskAnalysis([Deduction], [Precision, StepByStep], None)
  }

  /** The analysis never depends on the prompt. */
  lemma AnalysisIgnoresPrompt(p1: string, p2: string)
    ensures AnalyzeTask(p1) == AnalyzeTask(p2)
  {
  }

  const InstructionLead: string := "Follow these instructions carefully to answer the query: "
  const ContextText: string := "Consider all relevant information and constraints before responding."
  const ExampleText: string :=
    "Here's an example of a good response: [Example response that demonstrates desired qualities]"
  const ConstraintText: string :=
    "Important: Your response must be factual, precise, and include step-by-step reasoning."
  const OutputFormatText: string :=
    "Format your response as follows: 1) Initial analysis, 2) Step-by-step reasoning, 3) Final answer"
  const UnknownTypeText: string := "[Content for this component type]"

  /**
    `generate_component_content`, keyed by the type's string value. The instruction
    ends with the user's prompt; every other text is fixed.
   */
  function GenerateComponentContent(componentType: string, analysis: TaskAnalysis, originalPrompt: string): (r: string)
    ensures |r| > 0
    ensures componentType == "instruction" ==>
      |originalPrompt| <= |r| && r[|r| - |originalPrompt|..] == originalPrompt
    ensures ParseComponent(componentType).None? ==> r == UnknownTypeText
    ensures ParseComponent(componentType).Some? ==> r != UnknownTypeText
  {
    if componentType == "instruction" then InstructionLead + originalPrompt
    else if componentType == "context" then ContextText
    else if componentType == "example" then ExampleText
    else if componentType == "constraint" then ConstraintText
    else if componentType == "output_format" then OutputFormatText
    else UnknownTypeText
  }

  /** Only the instruction's text depends on the prompt; no text depends on the analysis. */
  lemma ContentDependsOnlyOnTypeAndPrompt(t: string, a1: TaskAnalysis, a2: TaskAnalysis, p1: string, p2: string)
    ensures GenerateComponentContent(t, a1, p1) == GenerateComponentContent(t, a2, p1)
    ensures t != "instruction" ==> GenerateComponentContent(t, a1, p1) == GenerateComponentContent(t, a2, p2)
  {
  }

  // ---------------------------------------------------------------- joining

  /** Python's `sep.join(parts)`. */
  function Join(sep: string, parts: seq<string>): string
  {
    if |parts| == 0 then ""
    else if |parts| == 1 then parts[0]
    else parts[0] + sep + Join(sep, parts[1..])
  }

  /** Where `parts[i]` starts in `Join(sep, parts)`: the lengths of the earlier parts, each followed by `sep`. */
  function Offset(sep: string, parts: seq<string>, i: nat): nat
    requires i <= |parts|
  {
    if i == 0 then 0 else |parts[0]| + |sep| + Offset(sep, parts[1..], i - 1)
  }

  /**
    `Join(sep, parts)` is laid out as the parts in list order with `sep` between each
    neighbouring pair, and nothing else: its length is the parts' lengths plus the separators.
   */
  lemma {:induction false} JoinLayout(sep: string, parts: seq<string>, i: nat)
    requires i < |parts|
    ensures Offset(sep, parts, i) + |parts[i]| <= |Join(sep, parts)|
    ensures Join(sep, parts)[Offset(sep, parts, i)..Offset(sep, parts, i) + |parts[i]|] == parts[i]
    ensures i + 1 < |parts| ==>
      && Offset(sep, parts, i) + |parts[i]| + |sep| <= |Join(sep, parts)|
      && Join(sep, parts)[Offset(sep, parts, i) + |parts[i]|..Offset(sep, parts, i) + |parts[i]| + |sep|] == sep
    ensures i + 1 == |parts| ==> Offset(sep, parts, i) + |parts[i]| == |Join(sep, parts)|
  {
    if |parts| > 1 {
      var rest := Join(sep, parts[1..]);
      var j := Join(sep, parts);
      assert j == parts[0] + sep + rest;
      ThreeSlices(parts[0], sep, rest);
      var k := |parts[0]| + |sep|;
      if i == 0 {
        JoinLayout(sep, parts[1..], 0);
      } else {
        JoinLayout(sep, parts[1..], i - 1);
        var o := Offset(sep, parts[1..], i - 1);
        assert parts[1..][i - 1] == parts[i];
        assert Offset(sep, parts, i) == k + o;
        SuffixSlice(j, k, rest, o, o + |parts[i]|);
        if i + 1 < |parts| {
          SuffixSlice(j, k, rest, o + |parts[i]|, o + |parts[i]| + |sep|);
        }
      }
    }
  }

  lemma ThreeSlices(a: string, b: string, c: string)
    ensures (a + b + c)[..|a|] == a
    ensures (a + b + c)[|a|..|a| + |b|] == b
    ensures (a + b + c)[|a| + |b|..] == c
  {
  }

  lemma SuffixSlice(j: string, k: nat, rest: string, lo: nat, hi: nat)
    requires k <= |j| && j[k..] == rest && lo <= hi <= |rest|
    ensures j[k + lo..k + hi] == rest[lo..hi]
  {
    assert j[k + lo..k + hi] == j[k..][lo..hi];
  }

  lemma JoinEmptyAndSingle(sep: string, part: string)
    ensures Join(sep, []) == "" && Join(sep, [part]) == part
  {
  }

  // ---------------------------------------------------------------- assembly and rationale

  const PromptSeparator: string := "\n\n"

  function Contents(components: seq<PromptComponent>): (r: seq<string>)
    ensures |r| == |components| && forall i :: 0 <= i < |r| ==> r[i] == components[i].content
  {
    seq(|components|, i requires 0 <= i < |components| => components[i].content)
  }

  /** `assemble_prompt`: the contents in list order, separated by a blank line. */
  function AssemblePrompt(components: seq<PromptComponent>): (r: string)
    ensures components == [] ==> r == ""
    ensures |components| == 1 ==> r == components[0].content
  {
    Join(PromptSeparator, Contents(components))
  }

  /** Each component's content stands in the assembled prompt at its place in the list. */
  lemma AssemblePromptLayout(components: seq<PromptComponent>, i: nat)
    requires i < |components|
    ensures var o := Offset(PromptSeparator, Contents(components), i);
      && o + |components[i].content| <= |AssemblePrompt(components)|
      && AssemblePrompt(components)[o..o + |components[i].content|] == components[i].content
      && (i + 1 < |components| ==>
           && o + |components[i].content| + 2 <= |AssemblePrompt(components)|
           && AssemblePrompt(components)[o + |components[i].content|..o + |components[i].content| + 2] == PromptSeparator)
  {
    JoinLayout(PromptSeparator, Contents(components), i);
  }

  lemma {:induction false} OffsetStep(sep: string, parts: seq<string>, i: nat)
    requires i < |parts|
    ensures Offset(sep, parts, i + 1) == Offset(sep, parts, i) + |parts[i]| + |sep|
  {
    if i > 0 {
      OffsetStep(sep, parts[1..], i - 1);
    }
  }

  function TypeValues(components: seq<PromptComponent>): (r: seq<string>)
    ensures |r| == |components| && forall i :: 0 <= i < |r| ==> r[i] == ComponentValue(components[i].componentType)
  {
    seq(|components|, i requires 0 <= i < |components| => ComponentValue(components[i].componentType))
  }

  const RationaleLead: string := "This prompt structure (ordering: "
  const RationaleMiddle: string :=
    ") was chosen because it optimizes for the detected reasoning tasks and desired behaviors. The effectiveness score is "

  /** What follows the list of types: the fixed middle, the rendered score and a full stop. */
  function RationaleTail(scoreText: string): string
  {
    RationaleMiddle + scoreText + "."
  }

  /**
    `generate_rationale`: the fixed lead, the type values joined by ", ", then the tail.
    `scoreText` is the score as rendered by `:.2f`, which this model leaves to the caller.
   */
  function GenerateRationale(components: seq<PromptComponent>, analysis: TaskAnalysis, scoreText: string): (w: string)
    ensures var n := |RationaleLead| + |Join(", ", TypeValues(components))|;
      && n <= |w|
      && w[..|RationaleLead|] == RationaleLead
      && w[|RationaleLead|..n] == Join(", ", TypeValues(components))
      && w[n..] == RationaleTail(scoreText)
  {
    var w := RationaleLead + Join(", ", TypeValues(components)) + RationaleTail(scoreText);
    ThreeSlices(RationaleLead, Join(", ", TypeValues(components)), RationaleTail(scoreText));
    w
  }

  /**
    The rationale names the component types in list order: each type value stands at its
    offset after the lead, followed by ", " when another type follows and by the tail
    (the score sentence) after the last one.
   */
  lemma RationaleListsTypesInOrder(components: seq<PromptComponent>, analysis: TaskAnalysis, scoreText: string, i: nat)
    requires i < |components|
    ensures var w := GenerateRationale(components, analysis, scoreText);
      var o := |RationaleLead| + Offset(", ", TypeValues(components), i);
      var e := o + |ComponentValue(components[i].componentType)|;
      && e <= |w|
      && w[o..e] == ComponentValue(components[i].componentType)
      && (i + 1 < |components| ==> e + 2 <= |w| && w[e..e + 2] == ", ")
      && (i + 1 == |components| ==> w[e..] == RationaleTail(scoreText))
  {
    var values := TypeValues(components);
    var j := Join(", ", values);
    var w := GenerateRationale(components, analysis, scoreText);
    var lead := |RationaleLead|;
    JoinLayout(", ", values, i);
    var o := Offset(", ", values, i);
    var e := o + |values[i]|;
    assert values[i] == ComponentValue(components[i].componentType);
    InnerSlice(w, lead, j, o, e);
    if i + 1 < |components| {
      InnerSlice(w, lead, j, e, e + 2);
    }
  }

  /** A slice of a piece `j` that stands at `start` in `w` is that slice of `w`, shifted. */
  lemma InnerSlice(w: string, start: nat, j: string, lo: nat, hi: nat)
    requires start + |j| <= |w| && w[start..start + |j|] == j && lo <= hi <= |j|
    ensures w[start + lo..start + hi] == j[lo..hi]
  {
    forall k | 0 <= k < hi - lo
      ensures w[start + lo..start + hi][k] == j[lo..hi][k]
    {
      assert j[lo + k] == w[start..start + |j|][lo + k];
    }
  }
}
