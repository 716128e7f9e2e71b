/**
  The meaning of the answer-set program that `ASPEngine` hands to its solver.

  The program's input is a list of facts (`target_task`, `component_efficacy`, ...).
  Its rules guess one `prompt_position(C, P)` atom per component, reject guesses that
  share a position or break a dependency, and score each surviving answer by a weighted
  sum that the solver maximises. This module states the rules as predicates on a set of
  atoms, the score as a function of the facts and the atoms, enumerates every guess the
  choice rule allows, and picks the first answer of highest score.
 */
module AspProgram {
  import opened Wrappers
  import opened PromptModels

  // ---------------------------------------------------------------- input facts

  /** The first argument of `weight/2`: the constant `position`, a task or a behaviour. */
  datatype WeightKey = PositionWeight | TaskWeight(task: TaskType) | BehaviorWeight(behavior: BehaviorType)

  datatype Fact =
    | TargetTask(task: TaskType)
    | TargetBehavior(behavior: BehaviorType)
    | ComponentEfficacy(component: ComponentType, goal: TaskOrBehavior, efficacy: real)
    | PositionEffect(component: ComponentType, position: int, effect: real)
    | Weight(key: WeightKey, weight: real)
    | TargetModel(model: string)
    | ModelSpecificEfficacy(model: string, component: ComponentType, behavior: BehaviorType, efficacy: real)
    | TargetDomain(domain: string)
    | DomainEfficacy(domain: string, component: ComponentType, behavior: BehaviorType, efficacy: real)

  /** The model- and domain-specific facts: no rule of the program mentions their predicates. */
  predicate IsAdjustmentFact(f: Fact) {
    f.TargetModel? || f.ModelSpecificEfficacy? || f.TargetDomain? || f.DomainEfficacy?
  }

  /** The value of the first fact that `select` picks out. */
  function Find(facts: seq<Fact>, select: Fact -> Option<real>): Option<real> {
    if facts == [] then None
    else if select(facts[0]).Some? then select(facts[0])
    else Find(facts[1..], select)
  }

  /** Picks `component_efficacy(c, g, E)` and yields `E`. */
  function EfficacyOf(c: ComponentType, g: TaskOrBehavior): Fact -> Option<real> {
    (f: Fact) => if f.ComponentEfficacy? && f.component == c && f.goal == g then Some(f.efficacy) else None
  }

  /** Picks `position_effect(c, p, E)` and yields `E`. */
  function EffectOf(c: ComponentType, p: int): Fact -> Option<real> {
    (f: Fact) => if f.PositionEffect? && f.component == c && f.position == p then Some(f.effect) else None
  }

  /** Picks `weight(k, W)` and yields `W`. */
  function WeightOf(k: WeightKey): Fact -> Option<real> {
    (f: Fact) => if f.Weight? && f.key == k then Some(f.weight) else None
  }

  lemma {:induction false} FindAppend(xs: seq<Fact>, ys: seq<Fact>, select: Fact -> Option<real>)
    ensures Find(xs + ys, select) == if Find(xs, select).Some? then Find(xs, select) else Find(ys, select)
  {
    if xs == [] {
      assert xs + ys == ys;
    } else {
      assert (xs + ys)[0] == xs[0];
      assert (xs + ys)[1..] == xs[1..] + ys;
      FindAppend(xs[1..], ys, select);
    }
  }

  lemma {:induction false} FindNothing(xs: seq<Fact>, select: Fact -> Option<real>)
    requires forall i :: 0 <= i < |xs| ==> select(xs[i]).None?
    ensures Find(xs, select) == None
  {
    if xs != [] {
      FindNothing(xs[1..], select);
    }
  }

  // ---------------------------------------------------------------- answers and rules

  datatype Atom = PromptPosition(component: ComponentType, position: int)

  /** A candidate answer set, restricted to its `prompt_position/2` atoms. */
  type Answer = set<Atom>

  /** `prompt_position(c, _)` holds. */
  predicate Placed(a: Answer, c: ComponentType) {
    exists x :: x in a && x.component == c
  }

  /**
    Line 34, `1 { prompt_position(C, P) : P = 1..5 } 1 :- component(C).`: every atom
    has a position in 1..5, and every component has exactly one atom.
   */
  predicate ChoiceRule(a: Answer) {
    && (forall x :: x in a ==> 1 <= x.position <= 5)
    && (forall c :: c in AllComponents() ==> Placed(a, c))
    && (forall x, y :: x in a && y in a && x.component == y.component ==> x.position == y.position)
  }

  /** Line 35: no two components share a position. */
  predicate NoSharedPosition(a: Answer) {
    forall x, y :: x in a && y in a && x.position == y.position ==> x.component == y.component
  }

  /** Line 38: an example needs an instruction. */
  predicate ExampleNeedsInstruction(a: Answer) {
    Placed(a, Example) ==> Placed(a, Instruction)
  }

  /** Line 39: a constraint needs an instruction. */
  predicate ConstraintNeedsInstruction(a: Answer) {
    Placed(a, Constraint) ==> Placed(a, Instruction)
  }

  predicate IsAnswer(a: Answer) {
    ChoiceRule(a) && NoSharedPosition(a) && ExampleNeedsInstruction(a) && ConstraintNeedsInstruction(a)
  }

  /** Lines 38-39 never reject an answer: the choice rule alone already places `instruction`. */
  lemma DependencyConstraintsNeverPrune(a: Answer)
    requires ChoiceRule(a) && NoSharedPosition(a)
    ensures IsAnswer(a)
  {
    assert Instruction == AllComponents()[ComponentIndex(Instruction)];
  }

  // ---------------------------------------------------------------- placements

  /** `p[i]` is the position of `AllComponents()[i]`. */
  type Placement = seq<int>

  predicate InRange(p: Placement) {
    forall i :: 0 <= i < |p| ==> 1 <= p[i] <= 5
  }

  /** Five positions in 1..5, pairwise distinct. */
  predicate IsPermutation(p: Placement) {
    |p| == 5 && InRange(p) && forall i, j :: 0 <= i < j < 5 ==> p[i] != p[j]
  }

  function AtomsOf(p: Placement): Answer
    requires |p| == 5
  {
    set i | 0 <= i < 5 :: PromptPosition(AllComponents()[i], p[i])
  }

  lemma ComponentsDistinct(i: nat, j: nat)
    requires i < 5 && j < 5 && AllComponents()[i] == AllComponents()[j]
    ensures i == j
  {
  }

  lemma AtomsOfMember(p: Placement, c: ComponentType, q: int)
    requires |p| == 5
    ensures PromptPosition(c, q) in AtomsOf(p) <==> q == p[ComponentIndex(c)]
  {
    var k := ComponentIndex(c);
    if PromptPosition(c, q) in AtomsOf(p) {
      var i :| 0 <= i < 5 && PromptPosition(AllComponents()[i], p[i]) == PromptPosition(c, q);
      ComponentsDistinct(i, k);
    }
    assert PromptPosition(AllComponents()[k], p[k]) in AtomsOf(p);
  }

  /** A permutation of 1..5 satisfies every rule of the program. */
  lemma PermutationIsAnswer(p: Placement)
    requires IsPermutation(p)
    ensures IsAnswer(AtomsOf(p))
  {
    var a := AtomsOf(p);
    forall c | c in AllComponents() ensures Placed(a, c) {
      AtomsOfMember(p, c, p[ComponentIndex(c)]);
    }
    forall x, y | x in a && y in a && x.component == y.component ensures x.position == y.position {
      AtomsOfMember(p, x.component, x.position);
      AtomsOfMember(p, y.component, y.position);
    }
    forall x, y | x in a && y in a && x.position == y.position ensures x.component == y.component {
      AtomsOfMember(p, x.component, x.position);
      AtomsOfMember(p, y.component, y.position);
      ComponentsDistinct(ComponentIndex(x.component), ComponentIndex(y.component));
    }
    assert ChoiceRule(a) by {
      forall x | x in a ensures 1 <= x.position <= 5 {
        AtomsOfMember(p, x.component, x.position);
      }
    }
    DependencyConstraintsNeverPrune(a);
  }

  ghost function PositionIn(a: Answer, c: ComponentType): int
    requires Placed(a, c)
  {
    var x :| x in a && x.component == c; x.position
  }

  /** The position vector an answer describes. */
  ghost function PlacementOf(a: Answer): (p: Placement)
    requires ChoiceRule(a)
    ensures |p| == 5
  {
    seq(5, i requires 0 <= i < 5 => PositionIn(a, AllComponents()[i]))
  }

  /**
    Every answer of the program is a full permutation: each of the five components sits
    at its own position in 1..5, so every position is used.
   */
  lemma AnswerIsPermutation(a: Answer)
    requires IsAnswer(a)
    ensures IsPermutation(PlacementOf(a)) && AtomsOf(PlacementOf(a)) == a
  {
    var p := PlacementOf(a);
    forall i | 0 <= i < 5
      ensures PromptPosition(AllComponents()[i], p[i]) in a && 1 <= p[i] <= 5
    {
      assert AllComponents()[i] in AllComponents();
    }
    forall i, j | 0 <= i < j < 5 ensures p[i] != p[j] {
      if p[i] == p[j] {
        var x := PromptPosition(AllComponents()[i], p[i]);
        var y := PromptPosition(AllComponents()[j], p[j]);
        assert x in a && y in a;
        ComponentsDistinct(i, j);
      }
    }
    forall x | x in a ensures x in AtomsOf(p) {
      var k := ComponentIndex(x.component);
      assert PromptPosition(AllComponents()[k], p[k]) in a;
    }
  }

  // ---------------------------------------------------------------- the objective, lines 42-60

  function Sum<T>(xs: seq<T>, f: T -> real): real {
    if xs == [] then 0.0 else f(xs[0]) + Sum(xs[1..], f)
  }

  lemma {:induction false} SumCongruence<T>(xs: seq<T>, f: T -> real, g: T -> real)
    requires forall i :: 0 <= i < |xs| ==> f(xs[i]) == g(xs[i])
    ensures Sum(xs, f) == Sum(xs, g)
  {
    if xs != [] {
      SumCongruence(xs[1..], f, g);
    }
  }

  /** `E*W` when both the efficacy or effect fact and the weight fact exist; a missing one joins with nothing. */
  function Product(e: Option<real>, w: Option<real>): real {
    if e.Some? && w.Some? then e.value * w.value else 0.0
  }

  function Positions(): seq<int> {
    [1, 2, 3, 4, 5]
  }

  /** Per target task `t` (a `target_task(t)` fact): `E*W` for `component_efficacy(c, t, E)`, `weight(t, W)`. */
  function TaskTerm(facts: seq<Fact>, c: ComponentType): TaskType -> real {
    t => if TargetTask(t) in facts
         then Product(Find(facts, EfficacyOf(c, Task(t))), Find(facts, WeightOf(TaskWeight(t))))
         else 0.0
  }

  /** Per target behaviour `b`: `E*W` for `component_efficacy(c, b, E)`, `weight(b, W)`. */
  function BehaviorTerm(facts: seq<Fact>, c: ComponentType): BehaviorType -> real {
    b => if TargetBehavior(b) in facts
         then Product(Find(facts, EfficacyOf(c, Behavior(b))), Find(facts, WeightOf(BehaviorWeight(b))))
         else 0.0
  }

  /** Per position `q` with `prompt_position(c, q)`: `E*W` for `position_effect(c, q, E)`, `weight(position, W)`. */
  function PositionTerm(facts: seq<Fact>, a: Answer, c: ComponentType): int -> real {
    q => if PromptPosition(c, q) in a
         then Product(Find(facts, EffectOf(c, q)), Find(facts, WeightOf(PositionWeight)))
         else 0.0
  }

  function TaskSumFor(facts: seq<Fact>, a: Answer): ComponentType -> real {
    c => if Placed(a, c) then Sum(AllTasks(), TaskTerm(facts, c)) else 0.0
  }

  function BehaviorSumFor(facts: seq<Fact>, a: Answer): ComponentType -> real {
    c => if Placed(a, c) then Sum(AllBehaviors(), BehaviorTerm(facts, c)) else 0.0
  }

  function PositionSumFor(facts: seq<Fact>, a: Answer): ComponentType -> real {
    c => Sum(Positions(), PositionTerm(facts, a, c))
  }

  /** The first `#sum`: task efficacy times task weight, over placed components and target tasks. */
  function TaskSum(facts: seq<Fact>, a: Answer): real {
    Sum(AllComponents(), TaskSumFor(facts, a))
  }

  /** The second `#sum`: position effect times the position weight, over placed components. */
  function PositionSum(facts: seq<Fact>, a: Answer): real {
    Sum(AllComponents(), PositionSumFor(facts, a))
  }

  /** The third `#sum`: behaviour efficacy times behaviour weight, over placed components and target behaviours. */
  function BehaviorSum(facts: seq<Fact>, a: Answer): real {
    Sum(AllComponents(), BehaviorSumFor(facts, a))
  }

  /** `effectiveness(Score)`, lines 42-60. */
  function Score(facts: seq<Fact>, a: Answer): real {
    TaskSum(facts, a) + PositionSum(facts, a) + BehaviorSum(facts, a)
  }

  function PlacedTaskSumFor(facts: seq<Fact>): ComponentType -> real {
    c => Sum(AllTasks(), TaskTerm(facts, c))
  }

  function PlacedBehaviorSumFor(facts: seq<Fact>): ComponentType -> real {
    c => Sum(AllBehaviors(), BehaviorTerm(facts, c))
  }

  /** The task sum with every component placed. */
  function FullTaskSum(facts: seq<Fact>): real {
    Sum(AllComponents(), PlacedTaskSumFor(facts))
  }

  /** The behaviour sum with every component placed. */
  function FullBehaviorSum(facts: seq<Fact>): real {
    Sum(AllComponents(), PlacedBehaviorSumFor(facts))
  }

  /**
    Because the choice rule places every component, the task and behaviour sums are
    the same for every guess: only the position sum can tell two answers apart.
   */
  lemma PlacementIndependentSums(facts: seq<Fact>, a: Answer)
    requires ChoiceRule(a)
    ensures TaskSum(facts, a) == FullTaskSum(facts)
    ensures BehaviorSum(facts, a) == FullBehaviorSum(facts)
  {
    forall i | 0 <= i < 5
      ensures TaskSumFor(facts, a)(AllComponents()[i]) == PlacedTaskSumFor(facts)(AllComponents()[i])
      ensures BehaviorSumFor(facts, a)(AllComponents()[i]) == PlacedBehaviorSumFor(facts)(AllComponents()[i])
    {
      assert AllComponents()[i] in AllComponents();
    }
    SumCongruence(AllComponents(), TaskSumFor(facts, a), PlacedTaskSumFor(facts));
    SumCongruence(AllComponents(), BehaviorSumFor(facts, a), PlacedBehaviorSumFor(facts));
  }

  lemma OnlyPositionsSeparate(facts: seq<Fact>, a: Answer, b: Answer)
    requires ChoiceRule(a) && ChoiceRule(b)
    ensures Score(facts, a) - Score(facts, b) == PositionSum(facts, a) - PositionSum(facts, b)
  {
    PlacementIndependentSums(facts, a);
    PlacementIndependentSums(facts, b);
  }

  /** Appending facts that no rule mentions changes no lookup the rules make. */
  lemma AdjustmentFactsUnreadByLookups(facts: seq<Fact>, extra: seq<Fact>, c: ComponentType)
    requires forall i :: 0 <= i < |extra| ==> IsAdjustmentFact(extra[i])
    ensures forall g :: Find(facts + extra, EfficacyOf(c, g)) == Find(facts, EfficacyOf(c, g))
    ensures forall q :: Find(facts + extra, EffectOf(c, q)) == Find(facts, EffectOf(c, q))
    ensures forall k :: Find(facts + extra, WeightOf(k)) == Find(facts, WeightOf(k))
    ensures forall t :: TargetTask(t) in facts + extra <==> TargetTask(t) in facts
    ensures forall b :: TargetBehavior(b) in facts + extra <==> TargetBehavior(b) in facts
  {
    forall g ensures Find(facts + extra, EfficacyOf(c, g)) == Find(facts, EfficacyOf(c, g)) {
      FindAppend(facts, extra, EfficacyOf(c, g));
      FindNothing(extra, EfficacyOf(c, g));
    }
    forall q ensures Find(facts + extra, EffectOf(c, q)) == Find(facts, EffectOf(c, q)) {
      FindAppend(facts, extra, EffectOf(c, q));
      FindNothing(extra, EffectOf(c, q));
    }
    forall k ensures Find(facts + extra, WeightOf(k)) == Find(facts, WeightOf(k)) {
      FindAppend(facts, extra, WeightOf(k));
      FindNothing(extra, WeightOf(k));
    }
  }

  lemma ComponentSumsUnread(facts: seq<Fact>, extra: seq<Fact>, a: Answer, c: ComponentType)
    requires forall i :: 0 <= i < |extra| ==> IsAdjustmentFact(extra[i])
    ensures TaskSumFor(facts + extra, a)(c) == TaskSumFor(facts, a)(c)
    ensures BehaviorSumFor(facts + extra, a)(c) == BehaviorSumFor(facts, a)(c)
    ensures PositionSumFor(facts + extra, a)(c) == PositionSumFor(facts, a)(c)
  {
    TaskTermsUnread(facts, extra, c);
    BehaviorTermsUnread(facts, extra, c);
    PositionTermsUnread(facts, extra, a, c);
  }

  lemma TaskTermsUnread(facts: seq<Fact>, extra: seq<Fact>, c: ComponentType)
    requires forall i :: 0 <= i < |extra| ==> IsAdjustmentFact(extra[i])
    ensures Sum(AllTasks(), TaskTerm(facts + extra, c)) == Sum(AllTasks(), TaskTerm(facts, c))
  {
    AdjustmentFactsUnreadByLookups(facts, extra, c);
    SumCongruence(AllTasks(), TaskTerm(facts + extra, c), TaskTerm(facts, c));
  }

  lemma BehaviorTermsUnread(facts: seq<Fact>, extra: seq<Fact>, c: ComponentType)
    requires forall i :: 0 <= i < |extra| ==> IsAdjustmentFact(extra[i])
    ensures Sum(AllBehaviors(), BehaviorTerm(facts + extra, c)) == Sum(AllBehaviors(), BehaviorTerm(facts, c))
  {
    AdjustmentFactsUnreadByLookups(facts, extra, c);
    SumCongruence(AllBehaviors(), BehaviorTerm(facts + extra, c), BehaviorTerm(facts, c));
  }

  lemma PositionTermsUnread(facts: seq<Fact>, extra: seq<Fact>, a: Answer, c: ComponentType)
    requires forall i :: 0 <= i < |extra| ==> IsAdjustmentFact(extra[i])
    ensures Sum(Positions(), PositionTerm(facts + extra, a, c)) == Sum(Positions(), PositionTerm(facts, a, c))
  {
    AdjustmentFactsUnreadByLookups(facts, extra, c);
    SumCongruence(Positions(), PositionTerm(facts + extra, a, c), PositionTerm(facts, a, c));
  }

  /**
    The `target_model`, `model_specific_efficacy`, `target_domain` and `domain_efficacy`
    facts are read by no rule: appending them leaves every answer's score unchanged.
   */
  lemma AdjustmentFactsUnread(facts: seq<Fact>, extra: seq<Fact>, a: Answer)
    requires forall i :: 0 <= i < |extra| ==> IsAdjustmentFact(extra[i])
    ensures Score(facts + extra, a) == Score(facts, a)
  {
    TaskSumUnread(facts, extra, a);
    BehaviorSumUnread(facts, extra, a);
    PositionSumUnread(facts, extra, a);
  }

  lemma TaskSumUnread(facts: seq<Fact>, extra: seq<Fact>, a: Answer)
    requires forall i :: 0 <= i < |extra| ==> IsAdjustmentFact(extra[i])
    ensures TaskSum(facts + extra, a) == TaskSum(facts, a)
  {
    var all := facts + extra;
    forall i | 0 <= i < |AllComponents()|
      ensures TaskSumFor(all, a)(AllComponents()[i]) == TaskSumFor(facts, a)(AllComponents()[i])
    {
      ComponentSumsUnread(facts, extra, a, AllComponents()[i]);
    }
    SumCongruence(AllComponents(), TaskSumFor(all, a), TaskSumFor(facts, a));
  }

  lemma BehaviorSumUnread(facts: seq<Fact>, extra: seq<Fact>, a: Answer)
    requires forall i :: 0 <= i < |extra| ==> IsAdjustmentFact(extra[i])
    ensures BehaviorSum(facts + extra, a) == BehaviorSum(facts, a)
  {
    var all := facts + extra;
    forall i | 0 <= i < |AllComponents()|
      ensures BehaviorSumFor(all, a)(AllComponents()[i]) == BehaviorSumFor(facts, a)(AllComponents()[i])
    {
      ComponentSumsUnread(facts, extra, a, AllComponents()[i]);
    }
    SumCongruence(AllComponents(), BehaviorSumFor(all, a), BehaviorSumFor(facts, a));
  }

  lemma PositionSumUnread(facts: seq<Fact>, extra: seq<Fact>, a: Answer)
    requires forall i :: 0 <= i < |extra| ==> IsAdjustmentFact(extra[i])
    ensures PositionSum(facts + extra, a) == PositionSum(facts, a)
  {
    var all := facts + extra;
    forall i | 0 <= i < |AllComponents()|
      ensures PositionSumFor(all, a)(AllComponents()[i]) == PositionSumFor(facts, a)(AllComponents()[i])
    {
      ComponentSumsUnread(facts, extra, a, AllComponents()[i]);
    }
    SumCongruence(AllComponents(), PositionSumFor(all, a), PositionSumFor(facts, a));
  }

  // ---------------------------------------------------------------- grounding the choice rule

  function Pow5(n: nat): nat {
    if n == 0 then 1 else 5 * Pow5(n - 1)
  }

  /** The `n` base-5 digits of `code`, most significant first, each plus one. */
  function Decode(code: nat, n: nat): (p: Placement)
    ensures |p| == n && InRange(p)
  {
    if n == 0 then [] else Decode(code / 5, n - 1) + [code % 5 + 1]
  }

  /** The code of a position vector: its entries minus one, read as base-5 digits. */
  function Encode(p: Placement): nat
    requires InRange(p)
  {
    if p == [] then 0 else 5 * Encode(p[..|p| - 1]) + (p[|p| - 1] - 1)
  }

  lemma {:induction false} DecodeEncode(p: Placement)
    requires InRange(p)
    ensures Encode(p) < Pow5(|p|) && Decode(Encode(p), |p|) == p
  {
    if p != [] {
      var front := p[..|p| - 1];
      DecodeEncode(front);
      var d := p[|p| - 1] - 1;
      var e := Encode(front);
      assert Encode(p) == 5 * e + d;
      AppendDigit(e, d, Pow5(|front|));
      assert p == front + [p[|p| - 1]];
    }
  }

  /** One more base-5 digit: it is what `% 5` reads back, `/ 5` drops it, and the bound grows fivefold. */
  lemma AppendDigit(e: nat, d: int, bound: nat)
    requires 0 <= d < 5 && e < bound
    ensures (5 * e + d) / 5 == e && (5 * e + d) % 5 == d && 5 * e + d < 5 * bound
  {
  }

  lemma {:induction false} EncodeDecode(code: nat, n: nat)
    requires code < Pow5(n)
    ensures Encode(Decode(code, n)) == code
  {
    if n > 0 {
      EncodeDecode(code / 5, n - 1);
      var p := Decode(code, n);
      assert p[..|p| - 1] == Decode(code / 5, n - 1);
    }
  }

  /** Every guess the choice rule can make, before any constraint: all 5^5 position vectors. */
  function Grounding(): (g: seq<Placement>)
    ensures |g| == 3125
  {
    seq(3125, k requires 0 <= k < 3125 => Decode(k, 5))
  }

  /**
    `g` lists every five-entry position vector over 1..5 exactly once, in the order of
    their codes.
   */
  ghost predicate EnumeratesPlacements(g: seq<Placement>) {
    && |g| == 3125
    && (forall k :: 0 <= k < 3125 ==> |g[k]| == 5 && InRange(g[k]) && Encode(g[k]) == k)
    && (forall p :: |p| == 5 && InRange(p) ==> Encode(p) < 3125 && g[Encode(p)] == p)
  }

  lemma GroundingEnumerates()
    ensures EnumeratesPlacements(Grounding())
  {
    var g := Grounding();
    assert Pow5(5) == 3125;
    forall k | 0 <= k < 3125 ensures |g[k]| == 5 && InRange(g[k]) && Encode(g[k]) == k {
      EncodeDecode(k, 5);
    }
    forall p | |p| == 5 && InRange(p) ensures Encode(p) < 3125 && g[Encode(p)] == p {
      DecodeEncode(p);
    }
  }

  // ---------------------------------------------------------------- `#maximize`, line 63

  /**
    The first of `cands[..n]` that `admits` and whose `value` is highest: every other
    admitted candidate has no higher value, and every earlier one a strictly lower value.
   */
  function BestAmong<T>(cands: seq<T>, n: nat, admits: T -> bool, value: T -> real): (r: Option<nat>)
    requires n <= |cands|
    ensures r.None? <==> forall i :: 0 <= i < n ==> !admits(cands[i])
    ensures r.Some? ==> r.value < n && admits(cands[r.value])
    ensures r.Some? ==> forall i :: 0 <= i < n && admits(cands[i]) ==> value(cands[i]) <= value(cands[r.value])
    ensures r.Some? ==> forall i :: 0 <= i < r.value && admits(cands[i]) ==> value(cands[i]) < value(cands[r.value])
  {
    if n == 0 then None
    else
      var r := BestAmong(cands, n - 1, admits, value);
      if admits(cands[n - 1]) && (r.None? || value(cands[n - 1]) > value(cands[r.value]))
      then Some(n - 1)
      else r
  }

  /** The guesses that survive every rule. */
  function Admits(): Placement -> bool {
    p => |p| == 5 && IsAnswer(AtomsOf(p))
  }

  function ScoreOf(facts: seq<Fact>): Placement -> real {
    p => if |p| == 5 then Score(facts, AtomsOf(p)) else 0.0
  }

  /** The first answer in grounding order that no other answer beats on `value`. */
  function OptimumBy(value: Placement -> real): (o: Option<Placement>)
    ensures o.Some? ==> |o.value| == 5 && InRange(o.value)
  {
    GroundingEnumerates();
    var g := Grounding();
    match BestAmong(g, |g|, Admits(), value)
    case None => None
    case Some(k) => Some(g[k])
  }

  /** The answer the solver reports for the given facts. */
  function Optimum(facts: seq<Fact>): (o: Option<Placement>)
    ensures o.Some? ==> |o.value| == 5 && InRange(o.value)
  {
    OptimumBy(ScoreOf(facts))
  }

  /** The identity placement is a permutation: the program has at least one answer. */
  lemma SomePermutation() returns (p: Placement)
    ensures IsPermutation(p)
  {
    p := [1, 2, 3, 4, 5];
  }

  /** A guess survives every rule exactly when it is a permutation. */
  lemma AdmitsPermutations(p: Placement)
    requires |p| == 5
    ensures Admits()(p) <==> IsPermutation(p)
  {
    if IsPermutation(p) {
      PermutationIsAnswer(p);
    }
    if IsAnswer(AtomsOf(p)) {
      AnswerIsPermutation(AtomsOf(p));
      PlacementsDetermineAtoms(PlacementOf(AtomsOf(p)), p);
    }
  }

  lemma AdmitsExactlyPermutations()
    ensures forall p :: |p| == 5 ==> (Admits()(p) <==> IsPermutation(p))
  {
    forall p | |p| == 5 ensures Admits()(p) <==> IsPermutation(p) {
      AdmitsPermutations(p);
    }
  }

  /**
    Over any enumeration of the position vectors, with admission meaning "is a permutation"
    and any scoring, the search finds a permutation no permutation outscores, and the one
    with the smallest code among those of equal score.
   */
  lemma SearchFindsFirstBest(g: seq<Placement>, admits: Placement -> bool, value: Placement -> real)
    requires EnumeratesPlacements(g)
    requires forall p :: |p| == 5 ==> (admits(p) <==> IsPermutation(p))
    ensures var r := BestAmong(g, |g|, admits, value);
      && r.Some? && IsPermutation(g[r.value]) && Encode(g[r.value]) == r.value
      && (forall p :: IsPermutation(p) ==> value(p) <= value(g[r.value]))
      && (forall p :: IsPermutation(p) && value(p) == value(g[r.value]) ==> r.value <= Encode(p))
  {
    var q := SomePermutation();
    assert admits(g[Encode(q)]);
    var r := BestAmong(g, |g|, admits, value);
    forall p | IsPermutation(p) ensures value(p) <= value(g[r.value]) {
      assert admits(g[Encode(p)]);
    }
    forall p | IsPermutation(p) && value(p) == value(g[r.value]) ensures r.value <= Encode(p) {
      assert admits(g[Encode(p)]);
    }
  }

  /**
    The reported answer is a permutation: the program always has an answer, and the search
    finds the first grounded permutation of highest score.
   */
  lemma OptimumIsFirstBest(facts: seq<Fact>)
    ensures Optimum(facts).Some? && IsPermutation(Optimum(facts).value)
    ensures forall p :: IsPermutation(p) ==> ScoreOf(facts)(p) <= ScoreOf(facts)(Optimum(facts).value)
    ensures forall p :: IsPermutation(p) && ScoreOf(facts)(p) == ScoreOf(facts)(Optimum(facts).value) ==>
      Encode(Optimum(facts).value) <= Encode(p)
  {
    OptimumByIsFirstBest(ScoreOf(facts));
  }

  lemma OptimumByIsFirstBest(value: Placement -> real)
    ensures OptimumBy(value).Some? && IsPermutation(OptimumBy(value).value)
    ensures forall p :: IsPermutation(p) ==> value(p) <= value(OptimumBy(value).value)
    ensures forall p :: IsPermutation(p) && value(p) == value(OptimumBy(value).value) ==>
      Encode(OptimumBy(value).value) <= Encode(p)
  {
    GroundingEnumerates();
    AdmitsExactlyPermutations();
    var g, admits := Grounding(), Admits();
    SearchFindsFirstBest(g, admits, value);
    var r := BestAmong(g, |g|, admits, value);
    assert OptimumBy(value) == Some(g[r.value]);
  }

  /** No answer scores more than the reported one. */
  lemma OptimumBeatsEveryAnswer(facts: seq<Fact>, a: Answer)
    requires IsAnswer(a)
    ensures Optimum(facts).Some? && Score(facts, a) <= Score(facts, AtomsOf(Optimum(facts).value))
  {
    OptimumIsFirstBest(facts);
    AnswerIsPermutation(a);
    var p := PlacementOf(a);
    assert ScoreOf(facts)(p) == Score(facts, a);
  }

  /**
    The program always has an answer; the reported one is a permutation of 1..5 whose
    score no answer exceeds, and among the permutations of that score it has the smallest
    code (the lexicographically smallest position vector, instruction's position first).
   */
  lemma OptimumIsOptimal(facts: seq<Fact>)
    ensures Optimum(facts).Some?
    ensures IsPermutation(Optimum(facts).value)
    ensures forall a :: IsAnswer(a) ==> Score(facts, a) <= Score(facts, AtomsOf(Optimum(facts).value))
    ensures forall q :: IsPermutation(q) && Score(facts, AtomsOf(q)) == Score(facts, AtomsOf(Optimum(facts).value)) ==>
      Encode(Optimum(facts).value) <= Encode(q)
  {
    OptimumIsFirstBest(facts);
    var best := Optimum(facts).value;
    forall a | IsAnswer(a) ensures Score(facts, a) <= Score(facts, AtomsOf(best)) {
      OptimumBeatsEveryAnswer(facts, a);
    }
    forall q | IsPermutation(q) && Score(facts, AtomsOf(q)) == Score(facts, AtomsOf(best))
      ensures Encode(best) <= Encode(q)
    {
      assert ScoreOf(facts)(q) == ScoreOf(facts)(best);
    }
  }

  lemma {:induction false} BestAmongSameValues<T>(cands: seq<T>, n: nat, admits: T -> bool, v1: T -> real, v2: T -> real)
    requires n <= |cands| && forall i :: 0 <= i < n ==> v1(cands[i]) == v2(cands[i])
    ensures BestAmong(cands, n, admits, v1) == BestAmong(cands, n, admits, v2)
  {
    if n > 0 {
      BestAmongSameValues(cands, n - 1, admits, v1, v2);
    }
  }

  /** Facts that give every answer the same score make the solver report the same answer. */
  lemma OptimumDependsOnlyOnScores(f1: seq<Fact>, f2: seq<Fact>)
    requires forall a :: Score(f1, a) == Score(f2, a)
    ensures Optimum(f1) == Optimum(f2)
  {
    ScoresAgree(f1, f2);
    OptimumBySameValues(ScoreOf(f1), ScoreOf(f2));
  }

  lemma OptimumBySameValues(v1: Placement -> real, v2: Placement -> real)
    requires forall p :: v1(p) == v2(p)
    ensures OptimumBy(v1) == OptimumBy(v2)
  {
    SameValuesSameBest(Grounding(), Admits(), v1, v2);
  }

  lemma SameValuesSameBest<T>(cands: seq<T>, admits: T -> bool, v1: T -> real, v2: T -> real)
    requires forall x :: v1(x) == v2(x)
    ensures BestAmong(cands, |cands|, admits, v1) == BestAmong(cands, |cands|, admits, v2)
  {
    BestAmongSameValues(cands, |cands|, admits, v1, v2);
  }

  lemma ScoresAgree(f1: seq<Fact>, f2: seq<Fact>)
    requires forall a :: Score(f1, a) == Score(f2, a)
    ensures forall p :: ScoreOf(f1)(p) == ScoreOf(f2)(p)
  {
    forall p ensures ScoreOf(f1)(p) == ScoreOf(f2)(p) {
      if |p| == 5 {
        assert Score(f1, AtomsOf(p)) == Score(f2, AtomsOf(p));
      }
    }
  }

  /** Two position vectors with the same atoms are equal. */
  lemma PlacementsDetermineAtoms(p: Placement, q: Placement)
    requires |p| == 5 && |q| == 5 && AtomsOf(p) == AtomsOf(q)
    ensures p == q
  {
    forall i | 0 <= i < 5 ensures p[i] == q[i] {
      var c := AllComponents()[i];
      AtomsOfMember(p, c, p[i]);
      AtomsOfMember(q, c, p[i]);
      ComponentsDistinct(i, ComponentIndex(c));
    }
  }
}
