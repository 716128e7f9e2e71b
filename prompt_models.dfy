/**
  The domain types of the prompt optimiser: the three closed enumerations with their
  string values, the request with its defaults, and the component and result records.
 */
module PromptModels {
  import opened Wrappers

  predicate IsSnakeCase(s: string) {
    forall i :: 0 <= i < |s| ==> ('a' <= s[i] <= 'z') || s[i] == '_'
  }

  // ---------------------------------------------------------------- ComponentType

  datatype ComponentType = Instruction | Context | Example | Constraint | OutputFormat

  /** `ComponentType.X.value`. */
  function ComponentValue(c: ComponentType): (s: string)
    ensures |s| > 0 && IsSnakeCase(s)
  {
    match c
    case Instruction => "instruction"
    case Context => "context"
    case Example => "example"
    case Constraint => "constraint"
    case OutputFormat => "output_format"
  }

  /** `ComponentType(s)`: `None` where Python raises `ValueError`. */
  function ParseComponent(s: string): (r: Option<ComponentType>)
    ensures r.Some? ==> ComponentValue(r.value) == s
    ensures r.None? ==> forall c :: ComponentValue(c) != s
  {
    if s == "instruction" then Some(Instruction)
    else if s == "context" then Some(Context)
    else if s == "example" then Some(Example)
    else if s == "constraint" then Some(Constraint)
    else if s == "output_format" then Some(OutputFormat)
    else None
  }

  /** The members in declaration order: five of them, with pairwise distinct values. */
  function AllComponents(): (cs: seq<ComponentType>)
    ensures |cs| == 5
    ensures forall i, j :: 0 <= i < j < |cs| ==> ComponentValue(cs[i]) != ComponentValue(cs[j])
  {
    [Instruction, Context, Example, Constraint, OutputFormat]
  }

  /** Where a component stands in `AllComponents()`: every component is listed. */
  function ComponentIndex(c: ComponentType): (i: nat)
    ensures i < 5 && AllComponents()[i] == c
  {
    match c
    case Instruction => 0
    case Context => 1
    case Example => 2
    case Constraint => 3
    case OutputFormat => 4
  }

  lemma ParseComponentValue(c: ComponentType)
    ensures ParseComponent(ComponentValue(c)) == Some(c)
  {
    match c
    case Instruction =>
    case Context =>
    case Example =>
    case Constraint =>
    case OutputFormat =>
  }

  // ---------------------------------------------------------------- TaskType

  datatype TaskType = Deduction | Induction | Abduction | Comparison | Counterfactual

  function TaskValue(t: TaskType): (s: string)
    ensures |s| > 0 && IsSnakeCase(s)
  {
    match t
    case Deduction => "deduction"
    case Induction => "induction"
    case Abduction => "abduction"
    case Comparison => "comparison"
    case Counterfactual => "counterfactual"
  }

  function ParseTask(s: string): (r: Option<TaskType>)
    ensures r.Some? ==> TaskValue(r.value) == s
    ensures r.None? ==> forall t :: TaskValue(t) != s
  {
    if s == "deduction" then Some(Deduction)
    else if s == "induction" then Some(Induction)
    else if s == "abduction" then Some(Abduction)
    else if s == "comparison" then Some(Comparison)
    else if s == "counterfactual" then Some(Counterfactual)
    else None
  }

  function AllTasks(): (ts: seq<TaskType>)
    ensures |ts| == 5
    ensures forall i, j :: 0 <= i < j < |ts| ==> TaskValue(ts[i]) != TaskValue(ts[j])
  {
    [Deduction, Induction, Abduction, Comparison, Counterfactual]
  }

  /** Where a task stands in `AllTasks()`: every task is listed. */
  function TaskIndex(t: TaskType): (i: nat)
    ensures i < 5 && AllTasks()[i] == t
  {
    match t
    case Deduction => 0
    case Induction => 1
    case Abduction => 2
    case Comparison => 3
    case Counterfactual => 4
  }

  lemma ParseTaskValue(t: TaskType)
    ensures ParseTask(TaskValue(t)) == Some(t)
  {
    match t
    case Deduction =>
    case Induction =>
    case Abduction =>
    case Comparison =>
    case Counterfactual =>
  }

  // ---------------------------------------------------------------- BehaviorType

  datatype BehaviorType = Precision | Creativity | StepByStep | Conciseness | ErrorChecking

  function BehaviorValue(b: BehaviorType): (s: string)
    ensures |s| > 0 && IsSnakeCase(s)
  {
    match b
    case Precision => "precision"
    case Creativity => "creativity"
    case StepByStep => "step_by_step"
    case Conciseness => "conciseness"
    case ErrorChecking => "error_checking"
  }

  function ParseBehavior(s: string): (r: Option<BehaviorType>)
    ensures r.Some? ==> BehaviorValue(r.value) == s
    ensures r.None? ==> forall b :: BehaviorValue(b) != s
  {
    if s == "precision" then Some(Precision)
    else if s == "creativity" then Some(Creativity)
    else if s == "step_by_step" then Some(StepByStep)
    else if s == "conciseness" then Some(Conciseness)
    else if s == "error_checking" then Some(ErrorChecking)
    else None
  }

  function AllBehaviors(): (bs: seq<BehaviorType>)
    ensures |bs| == 5
    ensures forall i, j :: 0 <= i < j < |bs| ==> BehaviorValue(bs[i]) != BehaviorValue(bs[j])
  {
    [Precision, Creativity, StepByStep, Conciseness, ErrorChecking]
  }

  /** Where a behaviour stands in `AllBehaviors()`: every behaviour is listed. */
  function BehaviorIndex(b: BehaviorType): (i: nat)
    ensures i < 5 && AllBehaviors()[i] == b
  {
    match b
    case Precision => 0
    case Creativity => 1
    case StepByStep => 2
    case Conciseness => 3
    case ErrorChecking => 4
  }

  lemma ParseBehaviorValue(b: BehaviorType)
    ensures ParseBehavior(BehaviorValue(b)) == Some(b)
  {
    match b
    case Precision =>
    case Creativity =>
    case StepByStep =>
    case Conciseness =>
    case ErrorChecking =>
  }

  /** No task and no behaviour share a string value, so one name space serves both. */
  lemma TaskAndBehaviorValuesDisjoint(t: TaskType, b: BehaviorType)
    ensures TaskValue(t) != BehaviorValue(b)
  {
    match t
    case Deduction =>
    case Induction =>
    case Abduction =>
    case Comparison =>
    case Counterfactual =>
  }

  /** The `Union[TaskType, BehaviorType]` argument of the efficacy table. */
  datatype TaskOrBehavior = Task(task: TaskType) | Behavior(behavior: BehaviorType)

  function TaskOrBehaviorValue(g: TaskOrBehavior): string {
    match g
    case Task(t) => TaskValue(t)
    case Behavior(b) => BehaviorValue(b)
  }

  // ---------------------------------------------------------------- records

  datatype OptimizationRequest = OptimizationRequest(
    userPrompt: string,
    targetTasks: seq<TaskType>,
    targetBehaviors: seq<BehaviorType>,
    targetModel: string,
    domain: Option<string>)

  /** `OptimizationRequest(user_prompt=p)`: only the prompt is required. */
  function NewRequest(userPrompt: string): (r: OptimizationRequest)
    ensures r.userPrompt == userPrompt
    ensures r.targetTasks == [] && r.targetBehaviors == []
    ensures r.targetModel == "gpt-4" && r.domain == None
  {
    OptimizationRequest(userPrompt, [], [], "gpt-4", None)
  }

  datatype PromptComponent = PromptComponent(componentType: ComponentType, content: string, position: int)

  datatype OptimizedPrompt = OptimizedPrompt(
    components: seq<PromptComponent>,
    fullPrompt: string,
    rationale: string,
    effectivenessScore: real)
}
