/**
  `PromptOptimizer`: picks the targets of a request, asks the engine for the best
  structure, fills each component with generated text, assembles the prompt and the
  rationale, and records the result in the history database.
 */
module PromptOptimizer {
  import opened Wrappers
  import opened PromptModels
  import opened MetaLlm
  import opened AspProgram
  import opened EfficacyStore
  import opened AspEngine

  // ---------------------------------------------------------------- target selection

  /** The tasks, behaviours and domain handed to the solver. */
  datatype Targets = Targets(tasks: seq<TaskType>, behaviors: seq<BehaviorType>, domain: Option<string>)

  /**
    Lines 25-27: a non-empty request list wins over the detected one, and a truthy
    request domain over the analysis's domain hint.
   */
  function ResolveTargets(request: OptimizationRequest, analysis: TaskAnalysis): (t: Targets)
    ensures request.targetTasks != [] ==> t.tasks == request.targetTasks
    ensures request.targetTasks == [] ==> t.tasks == analysis.detectedTasks
    ensures request.targetBehaviors != [] ==> t.behaviors == request.targetBehaviors
    ensures request.targetBehaviors == [] ==> t.behaviors == analysis.detectedBehaviors
    ensures Truthy(request.domain) ==> t.domain == request.domain
    ensures !Truthy(request.domain) ==> t.domain == analysis.domainHint
  {
    Targets(
      if request.targetTasks != [] then request.targetTasks else analysis.detectedTasks,
      if request.targetBehaviors != [] then request.targetBehaviors else analysis.detectedBehaviors,
      if Truthy(request.domain) then request.domain else analysis.domainHint)
  }

  /**
    With the analyser's fixed analysis the solver always gets at least one task and one
    behaviour, and a domain only when the request names a non-empty one.
   */
  lemma ResolvedTargetsNonEmpty(request: OptimizationRequest)
    ensures var t := ResolveTargets(request, AnalyzeTask(request.userPrompt));
      && t.tasks != [] && t.behaviors != []
      && (t.domain.Some? <==> Truthy(request.domain))
  {
  }

  // ---------------------------------------------------------------- content fill

  /** The generated text for a component of type `c`. */
  function ContentFor(c: ComponentType, analysis: TaskAnalysis, userPrompt: string): string {
    GenerateComponentContent(ComponentValue(c), analysis, userPrompt)
  }

  /** The components after lines 38-41: same types, positions and order, generated contents. */
  function Filled(components: seq<PromptComponent>, analysis: TaskAnalysis, userPrompt: string): (r: seq<PromptComponent>)
    ensures |r| == |components|
    ensures forall i :: 0 <= i < |r| ==> r[i].componentType == components[i].componentType && r[i].position == components[i].position
    ensures forall i :: 0 <= i < |r| ==> r[i].content == ContentFor(components[i].componentType, analysis, userPrompt)
  {
    seq(|components|, i requires 0 <= i < |components| =>
      components[i].(content := ContentFor(components[i].componentType, analysis, userPrompt)))
  }

  /** Lines 38-41: the loop that overwrites each component's content in place. */
  method FillContents(components: seq<PromptComponent>, analysis: TaskAnalysis, userPrompt: string)
    returns (filled: seq<PromptComponent>)
    ensures filled == Filled(components, analysis, userPrompt)
  {
    ghost var target := Filled(components, analysis, userPrompt);
    filled := components;
    for i := 0 to |filled|
      invariant |filled| == |components|
      invariant forall k :: 0 <= k < i ==> filled[k] == target[k]
      invariant forall k :: i <= k < |filled| ==> filled[k] == components[k]
    {
      filled := filled[i := filled[i].(content := ContentFor(filled[i].componentType, analysis, userPrompt))];
    }
    assert filled == target;
  }

  /** A generated text is never the text of an unknown type, and the instruction's ends with the prompt. */
  lemma ContentForKnownTypes(c: ComponentType, analysis: TaskAnalysis, userPrompt: string)
    ensures ContentFor(c, analysis, userPrompt) != UnknownTypeText
    ensures var s := ContentFor(Instruction, analysis, userPrompt);
      |userPrompt| <= |s| && s[|s| - |userPrompt|..] == userPrompt
  {
    ParseComponentValue(c);
  }

  /** Positions 1 to 5 in order, and each component type at the position `p` gives it. */
  predicate LaidOut(cs: seq<PromptComponent>, p: Placement)
    requires IsPermutation(p)
  {
    && |cs| == 5
    && (forall k :: 0 <= k < 5 ==> cs[k].position == k + 1)
    && (forall c :: cs[p[ComponentIndex(c)] - 1].componentType == c)
  }

  /** Five components at positions 1 to 5 that include every type at its position in `p` are laid out by `p`. */
  lemma LaidOutOfMembers(cs: seq<PromptComponent>, p: Placement)
    requires IsPermutation(p) && |cs| == 5
    requires forall k :: 0 <= k < 5 ==> cs[k].position == k + 1
    requires forall c :: PromptComponent(c, Placeholder(c), p[ComponentIndex(c)]) in cs
    ensures LaidOut(cs, p)
  {
    forall c ensures cs[p[ComponentIndex(c)] - 1].componentType == c {
      var x := PromptComponent(c, Placeholder(c), p[ComponentIndex(c)]);
      assert x in cs;
      var k :| 0 <= k < |cs| && cs[k] == x;
      assert k == p[ComponentIndex(c)] - 1;
    }
  }

  /** The sorted components of a permutation are laid out by it. */
  lemma SortedLaidOut(p: Placement)
    requires IsPermutation(p)
    ensures LaidOut(SortByPosition(ExtractComponents(p)), p)
  {
    SortedComponentsOfPermutation(p);
    LaidOutOfMembers(SortByPosition(ExtractComponents(p)), p);
  }

  /** A layout depends only on the types and positions, entry by entry. */
  lemma LaidOutByShape(a: seq<PromptComponent>, b: seq<PromptComponent>, p: Placement)
    requires IsPermutation(p) && LaidOut(a, p) && |b| == |a|
    requires forall i :: 0 <= i < |b| ==> b[i].componentType == a[i].componentType && b[i].position == a[i].position
    ensures LaidOut(b, p)
  {
  }

  /**
    The components `optimize` returns for a permutation keep the layout of the sorted
    answer: positions 1 to 5 in order, each component type once, at its position.
   */
  lemma FilledLayout(p: Placement, analysis: TaskAnalysis, userPrompt: string)
    requires IsPermutation(p)
    ensures LaidOut(Filled(SortByPosition(ExtractComponents(p)), analysis, userPrompt), p)
  {
    var sorted := SortByPosition(ExtractComponents(p));
    SortedLaidOut(p);
    LaidOutByShape(sorted, Filled(sorted, analysis, userPrompt), p);
  }

  /** Every filled text is a known type's text, and the instruction's ends with the prompt. */
  lemma FilledContents(cs: seq<PromptComponent>, analysis: TaskAnalysis, userPrompt: string)
    ensures var r := Filled(cs, analysis, userPrompt);
      && (forall k :: 0 <= k < |r| ==> r[k].content != UnknownTypeText)
      && (forall k :: 0 <= k < |r| && r[k].componentType == Instruction ==>
            |userPrompt| <= |r[k].content| && r[k].content[|r[k].content| - |userPrompt|..] == userPrompt)
  {
    var r := Filled(cs, analysis, userPrompt);
    forall k | 0 <= k < |r| ensures r[k].content != UnknownTypeText {
      ContentForKnownTypes(cs[k].componentType, analysis, userPrompt);
    }
    ContentForKnownTypes(Instruction, analysis, userPrompt);
  }

  // ---------------------------------------------------------------- history records

  /** The `optimized_prompts` and `prompt_components` rows, in the order they are added. */
  datatype HistoryRecord =
    | PromptRecord(id: nat, userPrompt: string, optimizedPrompt: string, targetModel: string,
                   effectivenessScore: real, rationale: string)
    | ComponentRecord(promptId: nat, componentType: string, content: string, position: int)

  /** Lines 95-102: one row per component, carrying the prompt's id. */
  function ComponentRecords(id: nat, components: seq<PromptComponent>): (rs: seq<HistoryRecord>)
    ensures |rs| == |components|
    ensures forall i :: 0 <= i < |rs| ==>
      rs[i] == ComponentRecord(id, ComponentValue(components[i].componentType), components[i].content, components[i].position)
  {
    seq(|components|, i requires 0 <= i < |components| =>
      ComponentRecord(id, ComponentValue(components[i].componentType), components[i].content, components[i].position))
  }

  /** What a successful `_save_to_db` commits: the prompt row, then its component rows. */
  function SavedRecords(id: nat, userPrompt: string, optimizedPrompt: string, components: seq<PromptComponent>,
                        targetModel: string, score: real, rationale: string): seq<HistoryRecord>
  {
    [PromptRecord(id, userPrompt, optimizedPrompt, targetModel, score, rationale)] + ComponentRecords(id, components)
  }

  /** A component row read back: its type column parsed into the enum, its content and position as stored. */
  function RestoreComponent(r: HistoryRecord): Option<PromptComponent> {
    match r
    case PromptRecord(_, _, _, _, _, _) => None
    case ComponentRecord(_, t, content, position) =>
      match ParseComponent(t)
      case None => None
      case Some(c) => Some(PromptComponent(c, content, position))
  }

  /**
    The committed rows hold the whole result: one prompt row first, then exactly one row
    per component, in list order, each restoring to that component.
   */
  lemma SavedRecordsRoundTrip(id: nat, userPrompt: string, optimizedPrompt: string, components: seq<PromptComponent>,
                              targetModel: string, score: real, rationale: string)
    ensures var rs := SavedRecords(id, userPrompt, optimizedPrompt, components, targetModel, score, rationale);
      && |rs| == |components| + 1
      && rs[0] == PromptRecord(id, userPrompt, optimizedPrompt, targetModel, score, rationale)
      && (forall i :: 1 <= i < |rs| ==> rs[i].ComponentRecord? && rs[i].promptId == id)
      && (forall i :: 0 <= i < |components| ==> RestoreComponent(rs[i + 1]) == Some(components[i]))
  {
    var rs := SavedRecords(id, userPrompt, optimizedPrompt, components, targetModel, score, rationale);
    forall i | 0 <= i < |components| ensures RestoreComponent(rs[i + 1]) == Some(components[i]) {
      ParseComponentValue(components[i].componentType);
    }
  }

  /** The history tables; `nextId` is the id the next prompt row receives on flush. */
  class HistoryDatabase {
    var records: seq<HistoryRecord>
    var nextId: nat

    constructor()
      ensures records == [] && nextId == 1
    {
      records := [];
      nextId := 1;
    }
  }

  /**
    `_save_to_db`: the prompt row is added and flushed for its id, each component row is
    added, and the session is committed; a failing commit is rolled back and swallowed,
    leaving the tables as they were.
   */
  method SaveToDb(db: HistoryDatabase, userPrompt: string, optimizedPrompt: string, components: seq<PromptComponent>,
                  targetModel: string, score: real, rationale: string, commitOk: bool)
    modifies db
    ensures db.records == old(db.records) +
      (if commitOk then SavedRecords(old(db.nextId), userPrompt, optimizedPrompt, components, targetModel, score, rationale) else [])
    ensures db.nextId == old(db.nextId) + (if commitOk then 1 else 0)
  {
    var id := db.nextId;
    var pending := [PromptRecord(id, userPrompt, optimizedPrompt, targetModel, score, rationale)];
    for i := 0 to |components|
      invariant pending == [PromptRecord(id, userPrompt, optimizedPrompt, targetModel, score, rationale)] + ComponentRecords(id, components[..i])
    {
      var c := components[i];
      assert ComponentRecords(id, components[..i + 1]) == ComponentRecords(id, components[..i]) +
        [ComponentRecord(id, ComponentValue(c.componentType), c.content, c.position)];
      pending := pending + [ComponentRecord(id, ComponentValue(c.componentType), c.content, c.position)];
    }
    assert components[..|components|] == components;
    if commitOk {
      db.records := db.records + pending;
      db.nextId := id + 1;
    }
  }

  // ---------------------------------------------------------------- the optimiser

  /** The facts `optimize` hands to the solver for a request. */
  function RequestFacts(t: Tables, request: OptimizationRequest): seq<Fact> {
    var targets := ResolveTargets(request, AnalyzeTask(request.userPrompt));
    AspFacts(t, targets.tasks, targets.behaviors, Some(request.targetModel), targets.domain)
  }

  /** The result of `optimize` over tables `t`, with the score printed by `renderScore`. */
  function Optimized(t: Tables, request: OptimizationRequest, renderScore: real -> string): Result<OptimizedPrompt, string> {
    var analysis := AnalyzeTask(request.userPrompt);
    var facts := RequestFacts(t, request);
    match Optimum(facts)
    case None => Failure(NoSolution)
    case Some(best) =>
      var components := Filled(SortByPosition(ExtractComponents(best)), analysis, request.userPrompt);
      var score := Score(facts, AtomsOf(best));
      Success(OptimizedPrompt(components, AssemblePrompt(components),
                              GenerateRationale(components, analysis, renderScore(score)), score))
  }

  /** `optimize` for a request whose facts have the answer `best`. */
  lemma OptimizedOf(t: Tables, request: OptimizationRequest, renderScore: real -> string, best: Placement)
    requires Optimum(RequestFacts(t, request)) == Some(best)
    ensures |best| == 5
    ensures var analysis := AnalyzeTask(request.userPrompt);
      var components := Filled(SortByPosition(ExtractComponents(best)), analysis, request.userPrompt);
      var score := Score(RequestFacts(t, request), AtomsOf(best));
      Optimized(t, request, renderScore) ==
        Success(OptimizedPrompt(components, AssemblePrompt(components),
                                GenerateRationale(components, analysis, renderScore(score)), score))
  {
  }

  /**
    `optimize` always succeeds; its score is the best any answer reaches for the request's
    facts, and its components are the filled components of that answer.
   */
  lemma OptimizedIsBest(t: Tables, request: OptimizationRequest, renderScore: real -> string)
    ensures var r := Optimized(t, request, renderScore);
      var facts := RequestFacts(t, request);
      && r.Success? && Optimum(facts).Some?
      && r.value.effectivenessScore == Score(facts, AtomsOf(Optimum(facts).value))
      && (forall a :: IsAnswer(a) ==> Score(facts, a) <= r.value.effectivenessScore)
      && r.value.components == Filled(SortByPosition(ExtractComponents(Optimum(facts).value)), AnalyzeTask(request.userPrompt), request.userPrompt)
      && r.value.fullPrompt == AssemblePrompt(r.value.components)
  {
    OptimumIsOptimal(RequestFacts(t, request));
  }

  /** Neither the target model nor the domain of a request changes what `optimize` returns. */
  lemma OptimizedIgnoresModelAndDomain(t: Tables, request: OptimizationRequest, model: string, domain: Option<string>,
                                       renderScore: real -> string)
    ensures Optimized(t, request.(targetModel := model, domain := domain), renderScore) == Optimized(t, request, renderScore)
  {
    var other := request.(targetModel := model, domain := domain);
    var analysis := AnalyzeTask(request.userPrompt);
    var t1 := ResolveTargets(request, analysis);
    var t2 := ResolveTargets(other, analysis);
    assert t1.tasks == t2.tasks && t1.behaviors == t2.behaviors;
    ModelAndDomainDoNotMatter(t, t1.tasks, t1.behaviors, Some(model), t2.domain, Some(request.targetModel), t1.domain);
  }

  /** The save step of `optimize`: a result is written through `_save_to_db`; a failure saves nothing. */
  method Record(history: HistoryDatabase, request: OptimizationRequest, r: Result<OptimizedPrompt, string>, commitOk: bool)
    modifies history
    ensures history.records == old(history.records) +
      (if r.Success? && commitOk
       then SavedRecords(old(history.nextId), request.userPrompt, r.value.fullPrompt, r.value.components,
                         request.targetModel, r.value.effectivenessScore, r.value.rationale)
       else [])
    ensures history.nextId == old(history.nextId) + (if r.Success? && commitOk then 1 else 0)
  {
    if r.Success? {
      var p := r.value;
      SaveToDb(history, request.userPrompt, p.fullPrompt, p.components, request.targetModel, p.effectivenessScore, p.rationale, commitOk);
    }
  }

  class Optimizer {
    const engine: Engine

    predicate Valid()
      reads this, engine
    {
      engine.Valid()
    }

    /** `PromptOptimizer()`: an engine that loads its tables from the database. */
    constructor(db: EfficacyDatabase, queriesOk: nat)
      ensures Valid() && fresh(engine)
      ensures engine.Snapshot() == LoadedTables(DefaultTables(), db.Rows(), queriesOk)
    {
      engine := new Engine(true, db, queriesOk);
    }

    /**
      The part of `optimize` before the save: analysis, targets, the engine's answer, content,
      assembly and rationale; `tables` names the engine's tables for the contract.
     */
    method Answer(ghost tables: Tables, request: OptimizationRequest, renderScore: real -> string)
      returns (r: Result<OptimizedPrompt, string>)
      requires tables == engine.Snapshot()
      ensures r == Optimized(tables, request, renderScore)
    {
      var analysis := AnalyzeTask(request.userPrompt);
      var t := ResolveTargets(request, analysis);
      ghost var facts := RequestFacts(tables, request);
      assert facts == AspFacts(engine.Snapshot(), t.tasks, t.behaviors, Some(request.targetModel), t.domain);
      var solved := engine.Solve(t.tasks, t.behaviors, Some(request.targetModel), t.domain);
      if solved.Failure? {
        return Failure(solved.error);
      }
      ghost var best := Optimum(facts).value;
      OptimizedOf(tables, request, renderScore, best);
      var components := FillContents(solved.value.0, analysis, request.userPrompt);
      var score := solved.value.1;
      var fullPrompt := AssemblePrompt(components);
      var rationale := GenerateRationale(components, analysis, renderScore(score));
      r := Success(OptimizedPrompt(components, fullPrompt, rationale, score));
    }

    /**
      `optimize`: the engine's answer for the resolved targets, its components filled with
      generated text, the assembled prompt and the rationale, recorded in the history
      database when the commit succeeds. A failure of `solve` propagates and nothing is
      saved; `OptimizedIsBest` shows that this failure never happens.
     */
    method Optimize(request: OptimizationRequest, history: HistoryDatabase, commitOk: bool, renderScore: real -> string)
      returns (r: Result<OptimizedPrompt, string>)
      modifies history
      ensures r == Optimized(old(engine.Snapshot()), request, renderScore)
      ensures history.records == old(history.records) +
        (if r.Success? && commitOk
         then SavedRecords(old(history.nextId), request.userPrompt, r.value.fullPrompt, r.value.components,
                           request.targetModel, r.value.effectivenessScore, r.value.rationale)
         else [])
      ensures history.nextId == old(history.nextId) + (if r.Success? && commitOk then 1 else 0)
    {
      r := Answer(engine.Snapshot(), request, renderScore);
      Record(history, request, r, commitOk);
    }

    /** `provide_feedback`: the same arguments, handed on to `update_efficacy`. */
    method ProvideFeedback(db: EfficacyDatabase, c: ComponentType, g: TaskOrBehavior, effectiveness: real, commitOk: bool)
      returns (r: Result<(), string>)
      requires Valid() && db.Valid()
      modifies engine, db
      ensures Valid() && db.Valid()
      ensures engine.Snapshot() == UpdatedTables(old(engine.Snapshot()), c, g, effectiveness)
      ensures commitOk <==> r.Success?
      ensures r.Failure? ==> r.error == CommitError
      ensures db.Rows() == if commitOk then old(db.Rows()).(efficacy := Upsert(old(db.efficacyRows), c, g, effectiveness)) else old(db.Rows())
    {
      r := engine.UpdateEfficacy(db, c, g, effectiveness, commitOk);
    }
  }
}
