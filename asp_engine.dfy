/**
  `ASPEngine`: the efficacy tables it keeps, the facts it hands to the program of
  `AspProgram`, the extraction of the solver's answer, and the updates of its tables
  from feedback and from the database.
 */
module AspEngine {
  import opened Wrappers
  import opened PromptModels
  import opened Dicts
  import opened AspProgram
  import opened EfficacyStore

  // ---------------------------------------------------------------- tables

  /** The five dict attributes of the engine, as values. */
  datatype Tables = Tables(
    componentEfficacy: Dict<EfficacyKey, real>,
    positionEffects: Dict<PositionKey, real>,
    weights: Dict<WeightKey, real>,
    modelAdjustments: Dict<string, Dict<AdjustmentKey, real>>,
    domainAdjustments: Dict<string, Dict<AdjustmentKey, real>>)

  predicate ValidTables(t: Tables) {
    && UniqueKeys(t.componentEfficacy)
    && UniqueKeys(t.positionEffects)
    && UniqueKeys(t.weights)
    && NestedUniqueKeys(t.modelAdjustments)
    && NestedUniqueKeys(t.domainAdjustments)
  }

  /** Lines 71-80: the default efficacy of components for tasks and behaviours. */
  function DefaultEfficacy(): Dict<EfficacyKey, real> {
    [ ((Instruction, Task(Deduction)), 0.8),
      ((Example, Task(Deduction)), 0.9),
      ((Constraint, Behavior(Precision)), 0.7),
      ((OutputFormat, Behavior(StepByStep)), 0.8),
      ((Instruction, Behavior(Precision)), 0.7),
      ((Context, Task(Abduction)), 0.75),
      ((Example, Behavior(StepByStep)), 0.85) ]
  }

  /** Lines 83-87: the default position effects. */
  function DefaultPositionEffects(): Dict<PositionKey, real> {
    [ ((Instruction, 1), 0.9),
      ((Context, 2), 0.7),
      ((Example, 3), 0.8) ]
  }

  /** Lines 90-102: the default weights. */
  function DefaultWeightTable(): Dict<WeightKey, real> {
    [ (PositionWeight, 0.5),
      (TaskWeight(Deduction), 1.0),
      (TaskWeight(Induction), 1.0),
      (TaskWeight(Abduction), 1.0),
      (TaskWeight(Comparison), 1.0),
      (TaskWeight(Counterfactual), 1.0),
      (BehaviorWeight(Precision), 1.0),
      (BehaviorWeight(Creativity), 1.0),
      (BehaviorWeight(StepByStep), 1.0),
      (BehaviorWeight(Conciseness), 1.0),
      (BehaviorWeight(ErrorChecking), 1.0) ]
  }

  /** Lines 105-115: the default model adjustments. */
  function DefaultModelAdjustments(): Dict<string, Dict<AdjustmentKey, real>> {
    [ ("gpt-4", [((Instruction, Precision), 0.9)]),
      ("claude", [((Example, Precision), 0.85)]),
      ("llama", [((Constraint, Precision), 0.75)]) ]
  }

  /** Lines 118-128: the default domain adjustments. */
  function DefaultDomainAdjustments(): Dict<string, Dict<AdjustmentKey, real>> {
    [ ("legal", [((Context, Precision), 0.95)]),
      ("medical", [((Constraint, StepByStep), 0.9)]),
      ("code", [((Example, Precision), 0.85)]) ]
  }

  /** The tables the constructor starts from, before any load. */
  function DefaultTables(): Tables {
    Tables(DefaultEfficacy(), DefaultPositionEffects(), DefaultWeightTable(),
           DefaultModelAdjustments(), DefaultDomainAdjustments())
  }

  lemma DefaultEfficacyValid()
    ensures UniqueKeys(DefaultEfficacy())
  {
  }

  lemma DefaultWeightTableValid()
    ensures UniqueKeys(DefaultWeightTable())
  {
  }

  lemma DefaultAdjustmentsValid()
    ensures NestedUniqueKeys(DefaultModelAdjustments()) && NestedUniqueKeys(DefaultDomainAdjustments())
  {
  }

  /** The defaults are proper dicts: no key is listed twice, in any table or nested table. */
  lemma DefaultTablesValid()
    ensures ValidTables(DefaultTables())
  {
    DefaultEfficacyValid();
    DefaultWeightTableValid();
    DefaultAdjustmentsValid();
  }

  /** A weight table laid out as the default one is: lookups find the listed weights. */
  lemma WeightLookups(w: Dict<WeightKey, real>)
    requires UniqueKeys(w) && |w| == 11 && w[0] == (PositionWeight, 0.5)
    requires forall t :: w[1 + TaskIndex(t)] == (TaskWeight(t), 1.0)
    requires forall b :: w[6 + BehaviorIndex(b)] == (BehaviorWeight(b), 1.0)
    ensures Get(w, PositionWeight) == Some(0.5)
    ensures forall t :: Get(w, TaskWeight(t)) == Some(1.0)
    ensures forall b :: Get(w, BehaviorWeight(b)) == Some(1.0)
  {
    GetEntry(w, 0);
    forall t ensures Get(w, TaskWeight(t)) == Some(1.0) {
      GetEntry(w, 1 + TaskIndex(t));
    }
    forall b ensures Get(w, BehaviorWeight(b)) == Some(1.0) {
      GetEntry(w, 6 + BehaviorIndex(b));
    }
  }

  /** Every task and behaviour weighs 1.0 by default, and the position weight is 0.5. */
  lemma DefaultWeights()
    ensures Get(DefaultTables().weights, PositionWeight) == Some(0.5)
    ensures forall t :: Get(DefaultTables().weights, TaskWeight(t)) == Some(1.0)
    ensures forall b :: Get(DefaultTables().weights, BehaviorWeight(b)) == Some(1.0)
  {
    var w := DefaultWeightTable();
    DefaultWeightTableValid();
    forall t ensures w[1 + TaskIndex(t)] == (TaskWeight(t), 1.0) {
      match t
      case Deduction =>
      case Induction =>
      case Abduction =>
      case Comparison =>
      case Counterfactual =>
    }
    forall b ensures w[6 + BehaviorIndex(b)] == (BehaviorWeight(b), 1.0) {
      match b
      case Precision =>
      case Creativity =>
      case StepByStep =>
      case Conciseness =>
      case ErrorChecking =>
    }
    WeightLookups(w);
  }

  // ---------------------------------------------------------------- facts

  /** Python truthiness of an optional string: present and non-empty. */
  predicate Truthy(s: Option<string>) {
    s.Some? && s.value != ""
  }

  function MapFacts<A>(xs: seq<A>, f: A -> Fact): (r: seq<Fact>)
    ensures |r| == |xs| && forall i :: 0 <= i < |xs| ==> r[i] == f(xs[i])
  {
    seq(|xs|, i requires 0 <= i < |xs| => f(xs[i]))
  }

  lemma MapFactsSnoc<A>(xs: seq<A>, f: A -> Fact, i: nat)
    requires i < |xs|
    ensures MapFacts(xs[..i + 1], f) == MapFacts(xs[..i], f) + [f(xs[i])]
  {
  }

  function TaskFact(t: TaskType): Fact { TargetTask(t) }
  function BehaviorFact(b: BehaviorType): Fact { TargetBehavior(b) }
  function EfficacyFact(e: (EfficacyKey, real)): Fact { ComponentEfficacy(e.0.0, e.0.1, e.1) }
  function PositionFact(e: (PositionKey, real)): Fact { PositionEffect(e.0.0, e.0.1, e.1) }
  function WeightFact(e: (WeightKey, real)): Fact { Weight(e.0, e.1) }

  function ModelFact(model: string): ((AdjustmentKey, real)) -> Fact {
    (e: (AdjustmentKey, real)) => ModelSpecificEfficacy(model, e.0.0, e.0.1, e.1)
  }

  function DomainFact(domain: string): ((AdjustmentKey, real)) -> Fact {
    (e: (AdjustmentKey, real)) => DomainEfficacy(domain, e.0.0, e.0.1, e.1)
  }

  /** Lines 146-150: one `target_task` per task, then one `target_behavior` per behaviour. */
  function TargetFacts(tasks: seq<TaskType>, behaviors: seq<BehaviorType>): seq<Fact> {
    MapFacts(tasks, TaskFact) + MapFacts(behaviors, BehaviorFact)
  }

  /** Lines 153-169: the three tables, each in dict order. */
  function TableFacts(t: Tables): seq<Fact> {
    MapFacts(t.componentEfficacy, EfficacyFact) + MapFacts(t.positionEffects, PositionFact) + MapFacts(t.weights, WeightFact)
  }

  /** The facts every request gets. */
  function CoreFacts(t: Tables, tasks: seq<TaskType>, behaviors: seq<BehaviorType>): seq<Fact> {
    TargetFacts(tasks, behaviors) + TableFacts(t)
  }

  /** Lines 172-175: only for a truthy model name that is a key of `model_adjustments`. */
  function ModelFacts(t: Tables, model: Option<string>): seq<Fact> {
    if Truthy(model) && HasKey(t.modelAdjustments, model.value) then
      [TargetModel(model.value)] + MapFacts(Get(t.modelAdjustments, model.value).value, ModelFact(model.value))
    else []
  }

  /** Lines 178-181: only for a truthy domain that is a key of `domain_adjustments`. */
  function DomainFacts(t: Tables, domain: Option<string>): seq<Fact> {
    if Truthy(domain) && HasKey(t.domainAdjustments, domain.value) then
      [TargetDomain(domain.value)] + MapFacts(Get(t.domainAdjustments, domain.value).value, DomainFact(domain.value))
    else []
  }

  /** `generate_asp_facts`, as a list of facts rather than their text. */
  function AspFacts(t: Tables, tasks: seq<TaskType>, behaviors: seq<BehaviorType>, model: Option<string>, domain: Option<string>): seq<Fact> {
    CoreFacts(t, tasks, behaviors) + ModelFacts(t, model) + DomainFacts(t, domain)
  }

  /** No fact after the targets is a `target_task` or a `target_behavior`. */
  lemma NoTargetsAfterTargets(t: Tables, model: Option<string>, domain: Option<string>)
    ensures var x := TableFacts(t) + ModelFacts(t, model) + DomainFacts(t, domain);
      forall i :: 0 <= i < |x| ==> !x[i].TargetTask? && !x[i].TargetBehavior?
  {
    var a := MapFacts(t.componentEfficacy, EfficacyFact);
    var b := MapFacts(t.positionEffects, PositionFact);
    var c := MapFacts(t.weights, WeightFact);
    var m := ModelFacts(t, model);
    var d := DomainFacts(t, domain);
    assert TableFacts(t) + m + d == a + b + c + m + d;
    assert forall i :: 0 <= i < |a| ==> a[i].ComponentEfficacy?;
    assert forall i :: 0 <= i < |b| ==> b[i].PositionEffect?;
    assert forall i :: 0 <= i < |c| ==> c[i].Weight?;
    assert forall i :: 0 <= i < |m| ==> m[i].TargetModel? || m[i].ModelSpecificEfficacy?;
    assert forall i :: 0 <= i < |d| ==> d[i].TargetDomain? || d[i].DomainEfficacy?;
  }

  lemma TargetsUpFront(tasks: seq<TaskType>, behaviors: seq<BehaviorType>, rest: seq<Fact>)
    requires forall i :: 0 <= i < |rest| ==> !rest[i].TargetTask? && !rest[i].TargetBehavior?
    ensures var f := TargetFacts(tasks, behaviors) + rest;
      && |tasks| + |behaviors| <= |f|
      && (forall i :: 0 <= i < |tasks| ==> f[i] == TargetTask(tasks[i]))
      && (forall i :: 0 <= i < |behaviors| ==> f[|tasks| + i] == TargetBehavior(behaviors[i]))
      && (forall x :: TargetTask(x) in f <==> x in tasks)
      && (forall x :: TargetBehavior(x) in f <==> x in behaviors)
  {
    var f := TargetFacts(tasks, behaviors) + rest;
    TargetsLayout(tasks, behaviors, rest);
    forall x ensures TargetTask(x) in f <==> x in tasks {
      TargetTaskMember(tasks, behaviors, rest, x);
    }
    forall x ensures TargetBehavior(x) in f <==> x in behaviors {
      TargetBehaviorMember(tasks, behaviors, rest, x);
    }
  }

  lemma TargetsLayout(tasks: seq<TaskType>, behaviors: seq<BehaviorType>, rest: seq<Fact>)
    ensures var f := TargetFacts(tasks, behaviors) + rest;
      && |f| == |tasks| + |behaviors| + |rest|
      && (forall i :: 0 <= i < |tasks| ==> f[i] == TargetTask(tasks[i]))
      && (forall i :: 0 <= i < |behaviors| ==> f[|tasks| + i] == TargetBehavior(behaviors[i]))
      && (forall i :: 0 <= i < |rest| ==> f[|tasks| + |behaviors| + i] == rest[i])
  {
    var a, b := MapFacts(tasks, TaskFact), MapFacts(behaviors, BehaviorFact);
    var f := a + b + rest;
    assert TargetFacts(tasks, behaviors) + rest == f;
    forall i | 0 <= i < |tasks| ensures f[i] == TargetTask(tasks[i]) {
      assert f[i] == a[i];
    }
    forall i | 0 <= i < |behaviors| ensures f[|tasks| + i] == TargetBehavior(behaviors[i]) {
      assert f[|a| + i] == b[i];
    }
    forall i | 0 <= i < |rest| ensures f[|tasks| + |behaviors| + i] == rest[i] {
      assert f[|a| + |b| + i] == rest[i];
    }
  }

  lemma TargetTaskMember(tasks: seq<TaskType>, behaviors: seq<BehaviorType>, rest: seq<Fact>, x: TaskType)
    requires forall i :: 0 <= i < |rest| ==> !rest[i].TargetTask? && !rest[i].TargetBehavior?
    ensures TargetTask(x) in TargetFacts(tasks, behaviors) + rest <==> x in tasks
  {
    var f := TargetFacts(tasks, behaviors) + rest;
    TargetsLayout(tasks, behaviors, rest);
    if TargetTask(x) in f {
      var i :| 0 <= i < |f| && f[i] == TargetTask(x);
      assert i < |tasks|;
      assert tasks[i] == x;
    }
    if x in tasks {
      var i :| 0 <= i < |tasks| && tasks[i] == x;
      assert f[i] == TargetTask(x);
    }
  }

  lemma TargetBehaviorMember(tasks: seq<TaskType>, behaviors: seq<BehaviorType>, rest: seq<Fact>, x: BehaviorType)
    requires forall i :: 0 <= i < |rest| ==> !rest[i].TargetTask? && !rest[i].TargetBehavior?
    ensures TargetBehavior(x) in TargetFacts(tasks, behaviors) + rest <==> x in behaviors
  {
    var f := TargetFacts(tasks, behaviors) + rest;
    TargetsLayout(tasks, behaviors, rest);
    if TargetBehavior(x) in f {
      var i :| 0 <= i < |f| && f[i] == TargetBehavior(x);
      assert |tasks| <= i < |tasks| + |behaviors|;
      assert behaviors[i - |tasks|] == x;
    }
    if x in behaviors {
      var i :| 0 <= i < |behaviors| && behaviors[i] == x;
      assert f[|tasks| + i] == TargetBehavior(x);
    }
  }

  /** The facts open with one `target_task` per requested task and one `target_behavior` per behaviour, in input order. */
  lemma AspFactsTargets(t: Tables, tasks: seq<TaskType>, behaviors: seq<BehaviorType>, model: Option<string>, domain: Option<string>)
    ensures var f := AspFacts(t, tasks, behaviors, model, domain);
      && |tasks| + |behaviors| <= |f|
      && (forall i :: 0 <= i < |tasks| ==> f[i] == TargetTask(tasks[i]))
      && (forall i :: 0 <= i < |behaviors| ==> f[|tasks| + i] == TargetBehavior(behaviors[i]))
      && (forall x :: TargetTask(x) in f <==> x in tasks)
      && (forall x :: TargetBehavior(x) in f <==> x in behaviors)
  {
    var rest := TableFacts(t) + ModelFacts(t, model) + DomainFacts(t, domain);
    assert AspFacts(t, tasks, behaviors, model, domain) == TargetFacts(tasks, behaviors) + rest;
    NoTargetsAfterTargets(t, model, domain);
    TargetsUpFront(tasks, behaviors, rest);
  }

  /**
    `target_model(m)` is emitted exactly when the request names a truthy model `m` that
    is a key of `model_adjustments`, and likewise `target_domain(d)`; an absent, empty
    or unknown name emits nothing.
   */
  lemma TargetModelAndDomainFacts(t: Tables, tasks: seq<TaskType>, behaviors: seq<BehaviorType>, model: Option<string>, domain: Option<string>)
    ensures var f := AspFacts(t, tasks, behaviors, model, domain);
      && (forall m :: TargetModel(m) in f <==> Truthy(model) && HasKey(t.modelAdjustments, model.value) && m == model.value)
      && (forall d :: TargetDomain(d) in f <==> Truthy(domain) && HasKey(t.domainAdjustments, domain.value) && d == domain.value)
      && ((!(Truthy(model) && HasKey(t.modelAdjustments, model.value)) && !(Truthy(domain) && HasKey(t.domainAdjustments, domain.value)))
            ==> f == CoreFacts(t, tasks, behaviors))
  {
    var core := CoreFacts(t, tasks, behaviors);
    var mf := ModelFacts(t, model);
    var df := DomainFacts(t, domain);
    assert AspFacts(t, tasks, behaviors, model, domain) == core + mf + df;
    assert forall i :: 0 <= i < |core| ==> !core[i].TargetModel? && !core[i].TargetDomain?;
    assert forall i :: 0 < i < |mf| ==> mf[i].ModelSpecificEfficacy?;
    assert forall i :: 0 < i < |df| ==> df[i].DomainEfficacy?;
    forall m ensures TargetModel(m) in core + mf + df <==> mf != [] && mf[0] == TargetModel(m) {
      TargetModelIn(core, mf, df, m);
    }
    forall d ensures TargetDomain(d) in core + mf + df <==> df != [] && df[0] == TargetDomain(d) {
      TargetDomainIn(core, mf, df, d);
    }
  }

  /** The only `target_model` fact is the one that opens the model facts. */
  lemma TargetModelIn(core: seq<Fact>, mf: seq<Fact>, df: seq<Fact>, m: string)
    requires forall i :: 0 <= i < |core| ==> !core[i].TargetModel?
    requires forall i :: 0 < i < |mf| ==> mf[i].ModelSpecificEfficacy?
    requires forall i :: 0 <= i < |df| ==> df[i].TargetDomain? || df[i].DomainEfficacy?
    ensures TargetModel(m) in core + mf + df <==> mf != [] && mf[0] == TargetModel(m)
  {
    var f := core + mf + df;
    if TargetModel(m) in f {
      var i :| 0 <= i < |f| && f[i] == TargetModel(m);
      assert |core| <= i < |core| + |mf|;
      assert mf[i - |core|] == TargetModel(m);
    }
    if mf != [] && mf[0] == TargetModel(m) {
      assert f[|core|] == TargetModel(m);
    }
  }

  /** The only `target_domain` fact is the one that opens the domain facts. */
  lemma TargetDomainIn(core: seq<Fact>, mf: seq<Fact>, df: seq<Fact>, d: string)
    requires forall i :: 0 <= i < |core| ==> !core[i].TargetDomain?
    requires forall i :: 0 <= i < |mf| ==> mf[i].TargetModel? || mf[i].ModelSpecificEfficacy?
    requires forall i :: 0 < i < |df| ==> df[i].DomainEfficacy?
    ensures TargetDomain(d) in core + mf + df <==> df != [] && df[0] == TargetDomain(d)
  {
    var f := core + mf + df;
    if TargetDomain(d) in f {
      var i :| 0 <= i < |f| && f[i] == TargetDomain(d);
      assert |core| + |mf| <= i;
      assert df[i - |core| - |mf|] == TargetDomain(d);
    }
    if df != [] && df[0] == TargetDomain(d) {
      assert f[|core| + |mf|] == TargetDomain(d);
    }
  }

  /** Everything after the core facts is a model or domain fact. */
  lemma AdjustmentFactsFollowCore(t: Tables, tasks: seq<TaskType>, behaviors: seq<BehaviorType>, model: Option<string>, domain: Option<string>)
    ensures var extra := ModelFacts(t, model) + DomainFacts(t, domain);
      && AspFacts(t, tasks, behaviors, model, domain) == CoreFacts(t, tasks, behaviors) + extra
      && forall i :: 0 <= i < |extra| ==> IsAdjustmentFact(extra[i])
  {
  }

  /**
    The model and the domain of a request change neither the score of any answer nor
    the answer the solver reports.
   */
  lemma ModelAndDomainDoNotMatter(t: Tables, tasks: seq<TaskType>, behaviors: seq<BehaviorType>,
                                  m1: Option<string>, d1: Option<string>, m2: Option<string>, d2: Option<string>)
    ensures forall a :: Score(AspFacts(t, tasks, behaviors, m1, d1), a) == Score(AspFacts(t, tasks, behaviors, m2, d2), a)
    ensures Optimum(AspFacts(t, tasks, behaviors, m1, d1)) == Optimum(AspFacts(t, tasks, behaviors, m2, d2))
  {
    var core := CoreFacts(t, tasks, behaviors);
    var f1 := AspFacts(t, tasks, behaviors, m1, d1);
    var f2 := AspFacts(t, tasks, behaviors, m2, d2);
    AdjustmentFactsFollowCore(t, tasks, behaviors, m1, d1);
    AdjustmentFactsFollowCore(t, tasks, behaviors, m2, d2);
    forall a ensures Score(f1, a) == Score(f2, a) {
      AdjustmentFactsUnread(core, ModelFacts(t, m1) + DomainFacts(t, d1), a);
      AdjustmentFactsUnread(core, ModelFacts(t, m2) + DomainFacts(t, d2), a);
    }
    OptimumDependsOnlyOnScores(f1, f2);
  }

  // ---------------------------------------------------------------- answer extraction

  function UpperChar(ch: char): char {
    if 'a' <= ch <= 'z' then (ch as int - 32) as char else ch
  }

  /** `str.upper` on the ASCII letters the enum values are made of. */
  function Upper(s: string): (r: string)
    ensures |r| == |s| && forall i :: 0 <= i < |s| ==> r[i] == UpperChar(s[i])
  {
    seq(|s|, i requires 0 <= i < |s| => UpperChar(s[i]))
  }

  /** Line 218: the placeholder content of a component. */
  function Placeholder(c: ComponentType): string {
    "[" + Upper(ComponentValue(c)) + " CONTENT]"
  }

  lemma UpperComponentValues()
    ensures Upper("instruction") == "INSTRUCTION" && Upper("context") == "CONTEXT"
    ensures Upper("example") == "EXAMPLE" && Upper("constraint") == "CONSTRAINT"
    ensures Upper("output_format") == "OUTPUT_FORMAT"
  {
    assert Upper("instruction") == "INSTRUCTION";
    assert Upper("context") == "CONTEXT";
    assert Upper("example") == "EXAMPLE";
    assert Upper("constraint") == "CONSTRAINT";
    assert Upper("output_format") == "OUTPUT_FORMAT";
  }

  /** Each component type has its own placeholder, e.g. `[OUTPUT_FORMAT CONTENT]`. */
  lemma PlaceholderValues(c1: ComponentType, c2: ComponentType)
    ensures Placeholder(OutputFormat) == "[OUTPUT_FORMAT CONTENT]"
    ensures c1 != c2 ==> Placeholder(c1) != Placeholder(c2)
  {
    UpperComponentValues();
    if c1 != c2 {
      assert Placeholder(c1)[1] != Placeholder(c2)[1] || Placeholder(c1)[2] != Placeholder(c2)[2]
          || |Placeholder(c1)| != |Placeholder(c2)|;
    }
  }

  /** The components of an answer, one per `prompt_position` atom, in component order. */
  function ExtractComponents(p: Placement): (cs: seq<PromptComponent>)
    requires |p| == 5
    ensures |cs| == 5 && forall i :: 0 <= i < 5 ==>
      cs[i] == PromptComponent(AllComponents()[i], Placeholder(AllComponents()[i]), p[i])
  {
    seq(5, i requires 0 <= i < 5 => PromptComponent(AllComponents()[i], Placeholder(AllComponents()[i]), p[i]))
  }

  predicate SortedByPosition(cs: seq<PromptComponent>) {
    forall i, j :: 0 <= i < j < |cs| ==> cs[i].position <= cs[j].position
  }

  /** Insert `x` after every component whose position is at most its own. */
  function InsertByPosition(x: PromptComponent, cs: seq<PromptComponent>): (r: seq<PromptComponent>)
    requires SortedByPosition(cs)
    ensures SortedByPosition(r) && multiset(r) == multiset(cs) + multiset{x}
  {
    if cs == [] then [x]
    else if x.position < cs[0].position then
      ConsSorted(x, cs);
      [x] + cs
    else
      var rest := InsertByPosition(x, cs[1..]);
      InsertBehindFirst(x, cs, rest);
      [cs[0]] + rest
  }

  /** The first component stays in front when `x` goes further in. */
  lemma InsertBehindFirst(x: PromptComponent, cs: seq<PromptComponent>, rest: seq<PromptComponent>)
    requires SortedByPosition(cs) && cs != [] && cs[0].position <= x.position
    requires SortedByPosition(rest) && multiset(rest) == multiset(cs[1..]) + multiset{x}
    ensures SortedByPosition([cs[0]] + rest) && multiset([cs[0]] + rest) == multiset(cs) + multiset{x}
  {
    assert cs == [cs[0]] + cs[1..];
    assert multiset(rest) == multiset(cs[1..] + [x]);
    LowerBoundKept(cs[0].position, cs[1..] + [x], rest);
    ConsSorted(cs[0], rest);
  }

  lemma ConsSorted(h: PromptComponent, cs: seq<PromptComponent>)
    requires SortedByPosition(cs)
    requires forall k :: 0 <= k < |cs| ==> h.position <= cs[k].position
    ensures SortedByPosition([h] + cs)
  {
    var r := [h] + cs;
    forall i, j | 0 <= i < j < |r| ensures r[i].position <= r[j].position {
      assert r[j] == cs[j - 1];
      if i > 0 {
        assert r[i] == cs[i - 1];
      }
    }
  }

  /** A rearrangement keeps a lower bound on the positions. */
  lemma LowerBoundKept(lo: int, xs: seq<PromptComponent>, ys: seq<PromptComponent>)
    requires multiset(ys) == multiset(xs)
    requires forall k :: 0 <= k < |xs| ==> lo <= xs[k].position
    ensures forall k :: 0 <= k < |ys| ==> lo <= ys[k].position
  {
    forall k | 0 <= k < |ys| ensures lo <= ys[k].position {
      assert ys[k] in multiset(xs);
    }
  }

  /** `components.sort(key=position)`: a stable sort by position. */
  function SortByPosition(cs: seq<PromptComponent>): (r: seq<PromptComponent>)
    ensures SortedByPosition(r) && multiset(r) == multiset(cs)
    decreases |cs|
  {
    if cs == [] then []
    else
      assert cs == cs[..|cs| - 1] + [cs[|cs| - 1]];
      InsertByPosition(cs[|cs| - 1], SortByPosition(cs[..|cs| - 1]))
  }

  lemma TwoOccurrences<T>(s: seq<T>, i: nat, j: nat)
    requires i < j < |s| && s[i] == s[j]
    ensures multiset(s)[s[i]] >= 2
  {
    assert s == s[..j] + [s[j]] + s[j + 1..];
    assert s[..j][i] == s[i];
    assert s[i] in multiset(s[..j]);
  }

  lemma {:induction false} DistinctOnce<T>(s: seq<T>, x: T)
    requires forall i, j :: 0 <= i < j < |s| ==> s[i] != s[j]
    ensures multiset(s)[x] <= 1
  {
    if s != [] {
      assert s == [s[0]] + s[1..];
      assert s[0] !in s[1..];
      DistinctOnce(s[1..], x);
    }
  }

  /** A sorted rearrangement of components with pairwise distinct positions is strictly increasing. */
  lemma SortedDistinctPositions(cs: seq<PromptComponent>, e: seq<PromptComponent>)
    requires SortedByPosition(cs) && multiset(cs) == multiset(e)
    requires forall i, j :: 0 <= i < j < |e| ==> e[i].position != e[j].position
    ensures forall i, j :: 0 <= i < j < |cs| ==> cs[i].position < cs[j].position
  {
    forall i, j | 0 <= i < j < |cs| ensures cs[i].position < cs[j].position {
      if cs[i].position == cs[j].position {
        assert cs[i] in multiset(e) && cs[j] in multiset(e);
        var a :| 0 <= a < |e| && e[a] == cs[i];
        var b :| 0 <= b < |e| && e[b] == cs[j];
        assert a == b;
        TwoOccurrences(cs, i, j);
        DistinctOnce(e, cs[i]);
        assert false;
      }
    }
  }

  /** Five strictly increasing positions in 1..5 are 1, 2, 3, 4, 5. */
  lemma IncreasingPositionsFill(cs: seq<PromptComponent>)
    requires |cs| == 5 && forall k :: 0 <= k < 5 ==> 1 <= cs[k].position <= 5
    requires forall i, j :: 0 <= i < j < 5 ==> cs[i].position < cs[j].position
    ensures forall k :: 0 <= k < 5 ==> cs[k].position == k + 1
  {
    assert cs[0].position < cs[1].position < cs[2].position < cs[3].position < cs[4].position;
  }

  /**
    Sorting the components of a permutation lists them at positions 1, 2, 3, 4, 5: each
    component once, with its own placeholder and its position in the answer.
   */
  lemma SortedComponentsOfPermutation(p: Placement)
    requires IsPermutation(p)
    ensures var cs := SortByPosition(ExtractComponents(p));
      && |cs| == 5
      && (forall k :: 0 <= k < 5 ==> cs[k].position == k + 1 && cs[k].content == Placeholder(cs[k].componentType))
      && (forall c :: PromptComponent(c, Placeholder(c), p[ComponentIndex(c)]) in cs)
  {
    var e := ExtractComponents(p);
    var cs := SortByPosition(e);
    assert |cs| == |multiset(cs)| == |multiset(e)| == 5;
    forall k | 0 <= k < 5
      ensures cs[k].content == Placeholder(cs[k].componentType) && 1 <= cs[k].position <= 5
    {
      assert cs[k] in multiset(e);
    }
    SortedDistinctPositions(cs, e);
    IncreasingPositionsFill(cs);
    forall c ensures PromptComponent(c, Placeholder(c), p[ComponentIndex(c)]) in cs {
      assert e[ComponentIndex(c)] in multiset(cs);
    }
  }

  // ---------------------------------------------------------------- table updates

  /** `self.component_efficacy[(c, g)] = v`. */
  function UpdatedTables(t: Tables, c: ComponentType, g: TaskOrBehavior, v: real): (r: Tables)
    ensures Get(r.componentEfficacy, (c, g)) == Some(v)
    ensures forall k :: k != (c, g) ==> Get(r.componentEfficacy, k) == Get(t.componentEfficacy, k)
    ensures r.positionEffects == t.positionEffects && r.weights == t.weights
    ensures r.modelAdjustments == t.modelAdjustments && r.domainAdjustments == t.domainAdjustments
  {
    t.(componentEfficacy := Put(t.componentEfficacy, (c, g), v))
  }

  lemma UpdateIdempotent(t: Tables, c: ComponentType, g: TaskOrBehavior, v: real)
    ensures UpdatedTables(UpdatedTables(t, c, g, v), c, g, v) == UpdatedTables(t, c, g, v)
  {
    PutIdempotent(t.componentEfficacy, (c, g), v);
  }

  lemma UpdateKeepsValid(t: Tables, c: ComponentType, g: TaskOrBehavior, v: real)
    requires ValidTables(t)
    ensures ValidTables(UpdatedTables(t, c, g, v))
  {
    PutKeepsUniqueKeys(t.componentEfficacy, (c, g), v);
  }

  /**
    The tables after `load_efficacy_from_db`, when the first `queriesOk` of its four
    queries succeed: each succeeded query's rows are written over the tables in row
    order, and whatever was written before a failing query stays.
   */
  function LoadedTables(t: Tables, s: StoredRows, queriesOk: nat): Tables {
    var t1 := if queriesOk >= 1 then t.(componentEfficacy := PutAll(t.componentEfficacy, EfficacyUpdates(s.efficacy))) else t;
    var t2 := if queriesOk >= 2 then t1.(positionEffects := PutAll(t1.positionEffects, PositionUpdates(s.positions))) else t1;
    var t3 := if queriesOk >= 3 then t2.(modelAdjustments := PutAllNested(t2.modelAdjustments, ModelUpdates(s.models))) else t2;
    if queriesOk >= 4 then t3.(domainAdjustments := PutAllNested(t3.domainAdjustments, DomainUpdates(s.domains))) else t3
  }

  /**
    A full load: each key holds the value of the last row stored under it, or else its
    old value; a model or domain first seen in storage gets a table of its own; the
    weights are never loaded.
   */
  lemma LoadOverlay(t: Tables, s: StoredRows)
    ensures var r := LoadedTables(t, s, 4);
      && (forall k :: Get(r.componentEfficacy, k) ==
            if LastValue(EfficacyUpdates(s.efficacy), k).Some? then LastValue(EfficacyUpdates(s.efficacy), k) else Get(t.componentEfficacy, k))
      && (forall k :: Get(r.positionEffects, k) ==
            if LastValue(PositionUpdates(s.positions), k).Some? then LastValue(PositionUpdates(s.positions), k) else Get(t.positionEffects, k))
      && (forall m, k :: GetNested(r.modelAdjustments, m, k) ==
            if LastValue(ModelUpdates(s.models), (m, k)).Some? then LastValue(ModelUpdates(s.models), (m, k)) else GetNested(t.modelAdjustments, m, k))
      && (forall d, k :: GetNested(r.domainAdjustments, d, k) ==
            if LastValue(DomainUpdates(s.domains), (d, k)).Some? then LastValue(DomainUpdates(s.domains), (d, k)) else GetNested(t.domainAdjustments, d, k))
      && r.weights == t.weights
  {
    forall k ensures Get(LoadedTables(t, s, 4).componentEfficacy, k) ==
      if LastValue(EfficacyUpdates(s.efficacy), k).Some? then LastValue(EfficacyUpdates(s.efficacy), k) else Get(t.componentEfficacy, k)
    {
      GetPutAll(t.componentEfficacy, EfficacyUpdates(s.efficacy), k);
    }
    forall k ensures Get(LoadedTables(t, s, 4).positionEffects, k) ==
      if LastValue(PositionUpdates(s.positions), k).Some? then LastValue(PositionUpdates(s.positions), k) else Get(t.positionEffects, k)
    {
      GetPutAll(t.positionEffects, PositionUpdates(s.positions), k);
    }
    forall m, k ensures GetNested(LoadedTables(t, s, 4).modelAdjustments, m, k) ==
      if LastValue(ModelUpdates(s.models), (m, k)).Some? then LastValue(ModelUpdates(s.models), (m, k)) else GetNested(t.modelAdjustments, m, k)
    {
      GetNestedPutAllNested(t.modelAdjustments, ModelUpdates(s.models), m, k);
    }
    forall d, k ensures GetNested(LoadedTables(t, s, 4).domainAdjustments, d, k) ==
      if LastValue(DomainUpdates(s.domains), (d, k)).Some? then LastValue(DomainUpdates(s.domains), (d, k)) else GetNested(t.domainAdjustments, d, k)
    {
      GetNestedPutAllNested(t.domainAdjustments, DomainUpdates(s.domains), d, k);
    }
  }

  lemma LoadKeepsValid(t: Tables, s: StoredRows, queriesOk: nat)
    requires ValidTables(t)
    ensures ValidTables(LoadedTables(t, s, queriesOk))
  {
    PutAllKeepsUniqueKeys(t.componentEfficacy, EfficacyUpdates(s.efficacy));
    PutAllKeepsUniqueKeys(t.positionEffects, PositionUpdates(s.positions));
    PutAllNestedKeepsUniqueKeys(t.modelAdjustments, ModelUpdates(s.models));
    PutAllNestedKeepsUniqueKeys(t.domainAdjustments, DomainUpdates(s.domains));
  }

  /**
    A committed `update_efficacy(c, g, v)` is what a later full load reads back: the
    stored rows, once overlaid on any tables, hold `v` under `(c, g)`.
   */
  lemma UpdateThenLoad(t: Tables, s: StoredRows, c: ComponentType, g: TaskOrBehavior, v: real, queriesOk: nat)
    requires WellFormedRows(s.efficacy) && queriesOk >= 1
    ensures Get(LoadedTables(t, s.(efficacy := Upsert(s.efficacy, c, g, v)), queriesOk).componentEfficacy, (c, g)) == Some(v)
  {
    UpsertThenLoad(s.efficacy, c, g, v);
    GetPutAll(t.componentEfficacy, EfficacyUpdates(Upsert(s.efficacy, c, g, v)), (c, g));
  }

  const LoadError: string := "could not load efficacy values from database"
  const CommitError: string := "database commit failed"
  const NoSolution: string := "No solution found"

  /** Append `f(x)` for each `x` of `xs`, in order. */
  method AppendFacts<A>(facts: seq<Fact>, xs: seq<A>, f: A -> Fact) returns (r: seq<Fact>)
    ensures r == facts + MapFacts(xs, f)
  {
    r := facts;
    for i := 0 to |xs|
      invariant r == facts + MapFacts(xs[..i], f)
    {
      MapFactsSnoc(xs, f, i);
      r := r + [f(xs[i])];
    }
    assert xs[..|xs|] == xs;
  }

  /** The loop of `solve` over the answer's atoms, one component per atom, in component order. */
  method CollectComponents(p: Placement) returns (components: seq<PromptComponent>)
    requires |p| == 5
    ensures components == ExtractComponents(p)
  {
    components := [];
    for i := 0 to 5
      invariant components == ExtractComponents(p)[..i]
    {
      var c := AllComponents()[i];
      components := components + [PromptComponent(c, Placeholder(c), p[i])];
    }
  }

  // ---------------------------------------------------------------- the engine

  class Engine {
    var componentEfficacy: Dict<EfficacyKey, real>
    var positionEffects: Dict<PositionKey, real>
    var weights: Dict<WeightKey, real>
    var modelAdjustments: Dict<string, Dict<AdjustmentKey, real>>
    var domainAdjustments: Dict<string, Dict<AdjustmentKey, real>>

    function Snapshot(): Tables
      reads this
    {
      Tables(componentEfficacy, positionEffects, weights, modelAdjustments, domainAdjustments)
    }

    predicate Valid()
      reads this
    {
      ValidTables(Snapshot())
    }

    /**
      `ASPEngine(load_from_db)`: the defaults, then a load whose failure is caught; the
      tables keep whatever the load wrote before it failed.
     */
    constructor(loadFromDb: bool, db: EfficacyDatabase, queriesOk: nat)
      ensures Valid()
      ensures Snapshot() == if loadFromDb then LoadedTables(DefaultTables(), db.Rows(), queriesOk) else DefaultTables()
    {
      var d := DefaultTables();
      componentEfficacy := d.componentEfficacy;
      positionEffects := d.positionEffects;
      weights := d.weights;
      modelAdjustments := d.modelAdjustments;
      domainAdjustments := d.domainAdjustments;
      new;
      DefaultTablesValid();
      if loadFromDb {
        var _ := LoadEfficacyFromDb(db, queriesOk);
      }
    }

    /** The first five loops of `generate_asp_facts`: the targets, then the three tables. */
    method GenerateCoreFacts(tasks: seq<TaskType>, behaviors: seq<BehaviorType>) returns (facts: seq<Fact>)
      ensures facts == CoreFacts(Snapshot(), tasks, behaviors)
    {
      facts := AppendFacts([], tasks, TaskFact);
      facts := AppendFacts(facts, behaviors, BehaviorFact);
      assert facts == TargetFacts(tasks, behaviors);
      ghost var targets := facts;
      facts := AppendFacts(facts, componentEfficacy, EfficacyFact);
      facts := AppendFacts(facts, positionEffects, PositionFact);
      facts := AppendFacts(facts, weights, WeightFact);
      assert facts == targets + TableFacts(Snapshot());
    }

    /** `generate_asp_facts`, appending the facts one loop at a time. */
    method GenerateAspFacts(tasks: seq<TaskType>, behaviors: seq<BehaviorType>, model: Option<string>, domain: Option<string>)
      returns (facts: seq<Fact>)
      ensures facts == AspFacts(Snapshot(), tasks, behaviors, model, domain)
    {
      facts := GenerateCoreFacts(tasks, behaviors);
      var modelFacts := GenerateModelFacts(model);
      var domainFacts := GenerateDomainFacts(domain);
      facts := facts + modelFacts + domainFacts;
    }

    /** Lines 172-175 of `generate_asp_facts`. */
    method GenerateModelFacts(model: Option<string>) returns (facts: seq<Fact>)
      ensures facts == ModelFacts(Snapshot(), model)
    {
      facts := [];
      if Truthy(model) && HasKey(modelAdjustments, model.value) {
        var m := model.value;
        facts := AppendFacts([TargetModel(m)], Get(modelAdjustments, m).value, ModelFact(m));
      }
    }

    /** Lines 178-181 of `generate_asp_facts`. */
    method GenerateDomainFacts(domain: Option<string>) returns (facts: seq<Fact>)
      ensures facts == DomainFacts(Snapshot(), domain)
    {
      facts := [];
      if Truthy(domain) && HasKey(domainAdjustments, domain.value) {
        var d := domain.value;
        facts := AppendFacts([TargetDomain(d)], Get(domainAdjustments, d).value, DomainFact(d));
      }
    }

    /**
      `solve`: the components of the program's optimal answer, sorted by position, each
      with its placeholder content, and the answer's score; "No solution found" when the
      program has no answer.
     */
    method Solve(tasks: seq<TaskType>, behaviors: seq<BehaviorType>, model: Option<string>, domain: Option<string>)
      returns (r: Result<(seq<PromptComponent>, real), string>)
      ensures var facts := AspFacts(Snapshot(), tasks, behaviors, model, domain);
        && (r.Failure? <==> Optimum(facts).None?)
        && (r.Failure? ==> r.error == NoSolution)
        && (r.Success? ==>
              && |Optimum(facts).value| == 5
              && r.value.0 == SortByPosition(ExtractComponents(Optimum(facts).value))
              && r.value.1 == Score(facts, AtomsOf(Optimum(facts).value)))
    {
      var facts := GenerateAspFacts(tasks, behaviors, model, domain);
      var best := Optimum(facts);
      if best.None? {
        return Failure(NoSolution);
      }
      var p := best.value;
      var components := CollectComponents(p);
      components := SortByPosition(components);
      r := Success((components, Score(facts, AtomsOf(p))));
    }

    /**
      `update_efficacy`: the in-memory table is written first and keeps the new value
      even when the database write fails; the record is then upserted and committed, or
      rolled back and the error raised again.
     */
    method UpdateEfficacy(db: EfficacyDatabase, c: ComponentType, g: TaskOrBehavior, v: real, commitOk: bool)
      returns (r: Result<(), string>)
      requires Valid() && db.Valid()
      modifies this, db
      ensures Valid() && db.Valid()
      ensures Snapshot() == UpdatedTables(old(Snapshot()), c, g, v)
      ensures commitOk <==> r.Success?
      ensures r.Failure? ==> r.error == CommitError
      ensures db.Rows() == if commitOk then old(db.Rows()).(efficacy := Upsert(old(db.efficacyRows), c, g, v)) else old(db.Rows())
    {
      SetEfficacy(c, g, v);
      db.CommitEfficacy(c, g, v, commitOk);
      if commitOk {
        r := Success(());
      } else {
        r := Failure(CommitError);
      }
    }

    /** The in-memory half of `update_efficacy`: `component_efficacy[(c, g)] = v`. */
    method SetEfficacy(c: ComponentType, g: TaskOrBehavior, v: real)
      requires Valid()
      modifies this
      ensures Valid()
      ensures Snapshot() == UpdatedTables(old(Snapshot()), c, g, v)
    {
      UpdateKeepsValid(Snapshot(), c, g, v);
      componentEfficacy := Put(componentEfficacy, (c, g), v);
    }

    /** The first query's loop: each row with a task or a behaviour sets that efficacy. */
    method LoadEfficacyRows(rows: seq<EfficacyRow>)
      modifies this
      ensures Snapshot() == old(Snapshot()).(componentEfficacy := PutAll(old(componentEfficacy), EfficacyUpdates(rows)))
    {
      ghost var start := componentEfficacy;
      for i := 0 to |rows|
        invariant Snapshot() == old(Snapshot()).(componentEfficacy := PutAll(start, EfficacyUpdates(rows[..i])))
      {
        var row := rows[i];
        ghost var ups := EfficacyUpdates(rows[..i]);
        EfficacyUpdatesSnoc(rows, i);
        if row.task.Some? {
          var key := (row.component, Task(row.task.value));
          assert RowKey(row) == Some(key);
          PutAllSnoc(start, ups, key, row.value);
          componentEfficacy := Put(componentEfficacy, key, row.value);
        } else if row.behavior.Some? {
          var key := (row.component, Behavior(row.behavior.value));
          assert RowKey(row) == Some(key);
          PutAllSnoc(start, ups, key, row.value);
          componentEfficacy := Put(componentEfficacy, key, row.value);
        } else {
          assert RowKey(row).None?;
          assert EfficacyUpdates(rows[..i + 1]) == ups + [] == ups;
        }
      }
      assert rows[..|rows|] == rows;
    }

    /** The second query's loop: each row sets the effect of a component at a position. */
    method LoadPositionRows(rows: seq<PositionRow>)
      modifies this
      ensures Snapshot() == old(Snapshot()).(positionEffects := PutAll(old(positionEffects), PositionUpdates(rows)))
    {
      ghost var start := positionEffects;
      for i := 0 to |rows|
        invariant Snapshot() == old(Snapshot()).(positionEffects := PutAll(start, PositionUpdates(rows[..i])))
      {
        var row := rows[i];
        PositionUpdatesSnoc(rows, i);
        PutAllSnoc(start, PositionUpdates(rows[..i]), (row.component, row.position), row.value);
        positionEffects := Put(positionEffects, (row.component, row.position), row.value);
      }
      assert rows[..|rows|] == rows;
    }

    /** The third query's loop: each row sets an entry of its model's table, creating the table first. */
    method LoadModelRows(rows: seq<ModelRow>)
      modifies this
      ensures Snapshot() == old(Snapshot()).(modelAdjustments := PutAllNested(old(modelAdjustments), ModelUpdates(rows)))
    {
      ghost var start := modelAdjustments;
      for i := 0 to |rows|
        invariant Snapshot() == old(Snapshot()).(modelAdjustments := PutAllNested(start, ModelUpdates(rows[..i])))
      {
        var row := rows[i];
        ModelUpdatesSnoc(rows, i);
        PutAllNestedSnoc(start, ModelUpdates(rows[..i]), row.model, (row.component, row.behavior), row.value);
        var inner := if HasKey(modelAdjustments, row.model) then Get(modelAdjustments, row.model).value else [];
        modelAdjustments := Put(modelAdjustments, row.model, Put(inner, (row.component, row.behavior), row.value));
      }
      assert rows[..|rows|] == rows;
    }

    /** The fourth query's loop: each row sets an entry of its domain's table, creating the table first. */
    method LoadDomainRows(rows: seq<DomainRow>)
      modifies this
      ensures Snapshot() == old(Snapshot()).(domainAdjustments := PutAllNested(old(domainAdjustments), DomainUpdates(rows)))
    {
      ghost var start := domainAdjustments;
      for i := 0 to |rows|
        invariant Snapshot() == old(Snapshot()).(domainAdjustments := PutAllNested(start, DomainUpdates(rows[..i])))
      {
        var row := rows[i];
        DomainUpdatesSnoc(rows, i);
        PutAllNestedSnoc(start, DomainUpdates(rows[..i]), row.domain, (row.component, row.behavior), row.value);
        var inner := if HasKey(domainAdjustments, row.domain) then Get(domainAdjustments, row.domain).value else [];
        domainAdjustments := Put(domainAdjustments, row.domain, Put(inner, (row.component, row.behavior), row.value));
      }
      assert rows[..|rows|] == rows;
    }

    /**
      `load_efficacy_from_db`: four queries, each followed by a loop that writes its rows
      over a table; the first `queriesOk` queries succeed and the next one raises.
     */
    method LoadEfficacyFromDb(db: EfficacyDatabase, queriesOk: nat) returns (r: Result<(), string>)
      requires Valid()
      modifies this
      ensures Valid()
      ensures Snapshot() == LoadedTables(old(Snapshot()), db.Rows(), queriesOk)
      ensures r.Failure? <==> queriesOk < 4
      ensures r.Failure? ==> r.error == LoadError
    {
      LoadKeepsValid(Snapshot(), db.Rows(), queriesOk);
      if queriesOk == 0 {
        return Failure(LoadError);
      }
      LoadEfficacyRows(db.efficacyRows);
      if queriesOk == 1 {
        return Failure(LoadError);
      }
      LoadPositionRows(db.positionRows);
      if queriesOk == 2 {
        return Failure(LoadError);
      }
      LoadModelRows(db.modelRows);
      if queriesOk == 3 {
        return Failure(LoadError);
      }
      LoadDomainRows(db.domainRows);
      r := Success(());
    }
  }
}
