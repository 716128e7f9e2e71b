# inferprompt prompt-structure optimiser in Dafny

This project models the core of the inferprompt service, which turns a user prompt into a
structured prompt. The service has five components: instruction, context, example,
constraint and output format. It chooses a position 1..5 for each of them by solving a
small answer-set program, fills each component with generated text and joins the texts.
It records the result in a history database, and it learns from feedback by rewriting
its efficacy tables.

The model has one Dafny module per concern:

- `Wrappers`: `Option` and `Result`.
- `PromptModels` (`app/models/prompt.py`):
  - the three enums with their string values and parsers, and their round trip;
  - the request and its defaults;
  - the component and result records.
- `Dicts`: Python dicts as insertion-ordered lists of entries.
  - `d[k] = v` overwrites an entry where it stands and appends a new key at the end.
  - A nested dict gets a fresh inner table on first use.
- `MetaLlm` (`app/services/meta_llm.py`): the fixed analysis, the type-to-text table, `join`, the prompt assembly and the rationale.
- `AspProgram` (lines 34-63 of `app/core/asp_engine.py`): the declarative meaning of the answer-set program.
  - It covers the facts, the rules as predicates on sets of atoms and the score.
  - It enumerates all 5^5 guesses of the choice rule.
  - It picks the first answer of highest score.
- `EfficacyStore`: the stored efficacy rows, the record-level upsert of `update_efficacy`, the row-by-row overlays of `load_efficacy_from_db`, and a database class holding the four tables.
- `AspEngine` (`app/core/asp_engine.py`):
  - the default tables and the facts handed to the program;
  - answer extraction and the sort by position;
  - the `Engine` class, whose dict fields are rewritten in place by `UpdateEfficacy` and the four load loops.
- `PromptOptimizer` (`app/services/prompt_optimizer.py`):
  - target selection and the in-place content fill;
  - the history records and the `_save_to_db` loop;
  - the `Optimizer` class with `Optimize` and `ProvideFeedback`.

The central results:

- Every answer of the program is a permutation of 1..5, so the two dependency constraints never remove a candidate.
- The task and behaviour sums are the same for every answer. Only `position_effect` separates candidates.
- The model- and domain-specific facts are read by no rule. So neither the target model nor the domain changes the score or the chosen structure, down to `optimize`'s result.
- The reported answer outscores or ties every answer. Among ties it is the one with the smallest base-5 code.
- The declarative program always has an answer, so in the model `optimize` always succeeds.
  - Its score is that best score.
  - Its components are the answer's components sorted by position, with generated contents.
  - Its prompt is their contents joined by a blank line.
- An `update_efficacy` sets exactly one key and is idempotent. Once committed, a later database load reads the new value back.

The model follows the code where the repository's own tests expect something else:

- On a solver failure, the code raises "No solution found" (asp_engine.py lines 203-204).
  - The model returns that error. It proves that the declarative program always has an answer, so the error is never returned.
  - `tests/unit/app/core/test_asp_engine.py` (lines 82-144) expects a `_fallback_solve` with score 100.0, which the code does not have.
- When the load at start-up fails, the constructor only catches the exception (asp_engine.py lines 131-135).
  - The tables keep whatever the load wrote before the failing query.
  - So the defaults are guaranteed to remain unchanged only when the first query fails.
- `assemble_prompt` joins the contents in list order (meta_llm.py line 54), and the model does the same.
  - `test_assemble_prompt` in `tests/unit/app/services/test_meta_llm.py` expects sorting by position.
  - In `optimize` the list is already sorted by `solve`, so the two agree there.
- The tests call a `cache_clear` on `generate_asp_facts` and use an optimisation cache. The code has neither, so neither is modelled.

The efficacy database is assumed to hold at most one row per key, for each
(component, task) and (component, behaviour) pair. `Engine.UpdateEfficacy` and
`Optimizer.ProvideFeedback` require this as `db.Valid()`, and `UpsertKeepsWellFormed`
proves that the upsert preserves it. The schema (app/models/database.py) leaves "exactly
one of task or behaviour" to the application, and the code only ever writes rows through
this upsert.

## Model

Four specification functions carry no contract of their own. The rows that specify them are:

- `AspProgram.IsAnswer` (asp_engine.py:34-39): `PermutationIsAnswer`, `AnswerIsPermutation`, `AdmitsPermutations` and `DependencyConstraintsNeverPrune`.
- `AspProgram.Score` (asp_engine.py:42-60): `PlacementIndependentSums`, `OnlyPositionsSeparate`, `AdjustmentFactsUnread` and the three `...SumUnread` lemmas.
- `EfficacyStore.Upsert` (asp_engine.py:240-267): `UpsertOverwrites`, `UpsertInserts`, `UpsertIdempotent`, `UpsertKeepsWellFormed` and `UpsertThenLoad`.
- `AspEngine.LoadedTables` (asp_engine.py:276-324): `LoadOverlay`, `LoadKeepsValid`, `UpdateThenLoad` and `Engine.LoadEfficacyFromDb`.

| member | source | states |
|---|---|---|
| PromptModels.ComponentValue | app/models/prompt.py:6-11 | every component value is a non-empty lower-case snake_case string |
| PromptModels.ParseComponent | app/models/prompt.py:6-11 | `ComponentType(s)` yields a member whose value is `s`; `None` (ValueError) exactly when no member has value `s` |
| PromptModels.ParseComponentValue | app/models/prompt.py:6-11 | parsing a member's value gives the member back |
| PromptModels.AllComponents | app/models/prompt.py:6-11 | the enum has five members with pairwise distinct values |
| PromptModels.ComponentIndex | app/models/prompt.py:6-11 | every component is one of the five listed members |
| PromptModels.TaskValue | app/models/prompt.py:14-19 | every task value is a non-empty snake_case string |
| PromptModels.ParseTask | app/models/prompt.py:14-19 | `TaskType(s)` succeeds only with a member whose value is `s`, and fails exactly when none has it |
| PromptModels.ParseTaskValue | app/models/prompt.py:14-19 | parsing a task's value gives the task back |
| PromptModels.AllTasks | app/models/prompt.py:14-19 | five tasks with pairwise distinct values |
| PromptModels.TaskIndex | app/models/prompt.py:14-19 | every task is one of the five listed members |
| PromptModels.BehaviorValue | app/models/prompt.py:22-27 | every behaviour value is a non-empty snake_case string |
| PromptModels.ParseBehavior | app/models/prompt.py:22-27 | `BehaviorType(s)` succeeds only with a member whose value is `s`, and fails exactly when none has it |
| PromptModels.ParseBehaviorValue | app/models/prompt.py:22-27 | parsing a behaviour's value gives the behaviour back |
| PromptModels.AllBehaviors | app/models/prompt.py:22-27 | five behaviours with pairwise distinct values |
| PromptModels.BehaviorIndex | app/models/prompt.py:22-27 | every behaviour is one of the five listed members |
| PromptModels.TaskAndBehaviorValuesDisjoint | app/models/prompt.py:14-27 | no task shares its value with a behaviour, so `weight/2` and `component_efficacy/3` keys never clash |
| PromptModels.NewRequest | app/models/prompt.py:30-35 | a request built from a prompt alone has no tasks, no behaviours, model "gpt-4" and no domain |
| Dicts.Get | app/core/asp_engine.py:172 | `d.get(k)` is absent exactly when `k` is not a key, and a found value is stored under `k` |
| Dicts.GetEntry | app/core/asp_engine.py:153 | in a dict without repeated keys, each entry is what a lookup of its key finds |
| Dicts.Put | app/core/asp_engine.py:231 | after `d[k] = v`, `k` holds `v` and every other key holds what it held; an existing key keeps its place, a new one is appended |
| Dicts.PutKeepsUniqueKeys | app/core/asp_engine.py:231 | an assignment never creates a repeated key |
| Dicts.PutIdempotent | app/core/asp_engine.py:231 | repeating `d[k] = v` changes nothing |
| Dicts.GetPutAll | app/core/asp_engine.py:282-300 | after a run of assignments a key holds the last value assigned to it, or else its old value |
| Dicts.PutAllKeepsUniqueKeys | app/core/asp_engine.py:282-300 | a run of assignments never creates a repeated key |
| Dicts.LastValueSingle | app/core/asp_engine.py:282-300 | when exactly one assignment of a run targets a key, that assignment's value is the one the key ends with |
| Dicts.PutNested | app/core/asp_engine.py:306-312 | `d[name][k] = v` with the inner dict created on first use sets that one entry, changes no other, and a new name gets a one-entry table |
| Dicts.GetNestedPutAllNested | app/core/asp_engine.py:303-324 | after a run of nested assignments an entry holds the last value assigned to it, or else its old value |
| Dicts.PutNestedKeepsUniqueKeys | app/core/asp_engine.py:306-312 | a nested assignment keeps outer and inner keys unique |
| Dicts.PutAllNestedKeepsUniqueKeys | app/core/asp_engine.py:303-324 | a run of nested assignments keeps every key unique |
| MetaLlm.AnalyzeTask | app/services/meta_llm.py:12-20 | the detected tasks are exactly [deduction], the detected behaviours exactly [precision, step_by_step] in that order, and there is no domain hint |
| MetaLlm.GenerateComponentContent | app/services/meta_llm.py:22-38 | the text is non-empty; the instruction's text ends with the original prompt; an unknown type gets "[Content for this component type]" and a known one never does |
| MetaLlm.ContentDependsOnlyOnTypeAndPrompt | app/services/meta_llm.py:22-38 | the analysis never affects the text, and only the instruction's text depends on the prompt |
| MetaLlm.JoinLayout | app/services/meta_llm.py:54 | `sep.join(parts)` holds each part at its offset, with `sep` between neighbours and nothing after the last part |
| MetaLlm.JoinEmptyAndSingle | app/services/meta_llm.py:54 | joining no parts gives "" and joining one part gives the part |
| MetaLlm.AssemblePrompt | app/services/meta_llm.py:52-54 | no components assemble to "" and one component to its content unchanged |
| MetaLlm.AssemblePromptLayout | app/services/meta_llm.py:52-54 | each component's content stands in the prompt in list order, followed by "\n\n" unless it is the last |
| MetaLlm.AnalysisIgnoresPrompt | app/services/meta_llm.py:12-20 | two prompts always get the same analysis |
| MetaLlm.GenerateRationale | app/services/meta_llm.py:40-50 | the rationale is the fixed lead, then the component type values joined by ", ", then the fixed middle, the rendered score and a full stop |
| MetaLlm.RationaleListsTypesInOrder | app/services/meta_llm.py:40-50 | each component's type value stands at its offset after the lead, in list order; ", " follows it when another type follows, and after the last one comes the score sentence |
| AspProgram.DependencyConstraintsNeverPrune | app/core/asp_engine.py:34-39 | any guess satisfying lines 34-35 also satisfies lines 38-39, since instruction is always placed |
| AspProgram.AtomsOfMember | app/core/asp_engine.py:34 | a position vector places component `c` at `q` exactly when its entry for `c` is `q` |
| AspProgram.PermutationIsAnswer | app/core/asp_engine.py:34-39 | every permutation of 1..5 satisfies every rule of the program |
| AspProgram.AnswerIsPermutation | app/core/asp_engine.py:34-35 | every answer is a permutation of 1..5, and its position vector gives back exactly its atoms |
| AspProgram.PlacementsDetermineAtoms | app/core/asp_engine.py:34 | distinct position vectors give distinct atom sets |
| AspProgram.PlacementIndependentSums | app/core/asp_engine.py:42-60 | the task and behaviour sums of every guess allowed by the choice rule equal their values with all five components placed |
| AspProgram.OnlyPositionsSeparate | app/core/asp_engine.py:42-60 | two answers' scores differ exactly by their position sums |
| AspProgram.AdjustmentFactsUnreadByLookups | app/core/asp_engine.py:42-60 | appending model or domain facts changes no efficacy, effect or weight lookup and no target fact |
| AspProgram.AdjustmentFactsUnread | app/core/asp_engine.py:42-60 | appending model or domain facts leaves every answer's score unchanged |
| AspProgram.TaskSumUnread | app/core/asp_engine.py:43-48 | the first `#sum` ignores model and domain facts |
| AspProgram.PositionSumUnread | app/core/asp_engine.py:49-53 | the second `#sum` ignores model and domain facts |
| AspProgram.BehaviorSumUnread | app/core/asp_engine.py:54-59 | the third `#sum` ignores model and domain facts |
| AspProgram.Decode | app/core/asp_engine.py:34 | each code is a vector of the given length over 1..5 |
| AspProgram.DecodeEncode | app/core/asp_engine.py:34 | every vector over 1..5 has a code below 5^n that decodes back to it |
| AspProgram.EncodeDecode | app/core/asp_engine.py:34 | every code below 5^n is the code of its decoded vector |
| AspProgram.Grounding | app/core/asp_engine.py:34 | the grounding of the choice rule has 5^5 = 3125 guesses |
| AspProgram.GroundingEnumerates | app/core/asp_engine.py:34 | the grounding lists every five-entry vector over 1..5 exactly once, in code order |
| AspProgram.BestAmong | app/core/asp_engine.py:63 | the search finds nothing only when no candidate is admitted; otherwise an admitted candidate no admitted one outscores, and every earlier admitted one scores strictly less |
| AspProgram.AdmitsPermutations | app/core/asp_engine.py:34-39 | a guess survives every rule exactly when it is a permutation |
| AspProgram.SearchFindsFirstBest | app/core/asp_engine.py:63 | over any enumeration of the guesses, the search returns a permutation no permutation outscores, with the smallest code among equal scores |
| AspProgram.OptimumBy | app/core/asp_engine.py:63 | the reported answer, when there is one, is a five-entry vector over 1..5 |
| AspProgram.Optimum | app/core/asp_engine.py:63 | the reported answer for a set of facts, when there is one, is a five-entry vector over 1..5 |
| AspProgram.OptimumIsFirstBest | app/core/asp_engine.py:42-63 | there is always a reported answer; it is a permutation that outscores or ties every permutation, and it has the smallest code among those that tie it |
| AspProgram.OptimumBeatsEveryAnswer | app/core/asp_engine.py:42-63 | no answer of the program scores more than the reported one |
| AspProgram.OptimumIsOptimal | app/core/asp_engine.py:34-63 | the declarative program always has an answer; the reported answer is a permutation whose score no answer exceeds, and it has the smallest code among equal scores |
| AspProgram.OptimumDependsOnlyOnScores | app/core/asp_engine.py:63 | two fact lists that give every answer the same score make the solver report the same answer |
| AspEngine.DefaultEfficacyValid | app/core/asp_engine.py:71-80 | the default efficacy table lists no key twice |
| AspEngine.DefaultWeightTableValid | app/core/asp_engine.py:90-102 | the default weight table lists no key twice |
| AspEngine.DefaultAdjustmentsValid | app/core/asp_engine.py:105-128 | the default model and domain tables and their inner tables list no key twice |
| AspEngine.DefaultTablesValid | app/core/asp_engine.py:71-128 | all default tables are proper dicts |
| AspEngine.DefaultWeights | app/core/asp_engine.py:90-102 | by default the position weight is 0.5 and every task and behaviour weighs 1.0 |
| AspEngine.MapFacts | app/core/asp_engine.py:146-181 | one fact per item, in the items' order |
| AspEngine.NoTargetsAfterTargets | app/core/asp_engine.py:152-181 | no fact after the target facts is a `target_task` or `target_behavior` |
| AspEngine.TargetsUpFront | app/core/asp_engine.py:146-150 | the facts open with one `target_task` per task and one `target_behavior` per behaviour in input order, and a target fact is present exactly when requested |
| AspEngine.TargetTaskMember | app/core/asp_engine.py:146-147 | `target_task(t)` is among the facts exactly when `t` is requested |
| AspEngine.TargetBehaviorMember | app/core/asp_engine.py:149-150 | `target_behavior(b)` is among the facts exactly when `b` is requested |
| AspEngine.AspFactsTargets | app/core/asp_engine.py:146-150 | the full fact list opens with the requested targets in order, and a target fact is present exactly when requested |
| AspEngine.TargetModelAndDomainFacts | app/core/asp_engine.py:172-181 | `target_model(m)` is emitted exactly for a truthy model name that is a key of `model_adjustments`, likewise for domains, and otherwise only the core facts are emitted |
| AspEngine.AdjustmentFactsFollowCore | app/core/asp_engine.py:171-181 | the facts are the core facts followed only by model and domain facts |
| AspEngine.ModelAndDomainDoNotMatter | app/core/asp_engine.py:137-183 | any two models and domains give every answer the same score and make the solver report the same answer |
| AspEngine.Upper | app/core/asp_engine.py:218 | on ASCII text, which is all it is applied to (the enum values), `upper()` maps each letter a-z to its capital and keeps every other character |
| AspEngine.UpperComponentValues | app/core/asp_engine.py:218 | the upper-cased component values are INSTRUCTION, CONTEXT, EXAMPLE, CONSTRAINT and OUTPUT_FORMAT |
| AspEngine.PlaceholderValues | app/core/asp_engine.py:218 | the placeholder is e.g. "[OUTPUT_FORMAT CONTENT]", and distinct types get distinct placeholders |
| AspEngine.InsertByPosition | app/core/asp_engine.py:224 | inserting into a sorted list keeps it sorted by position and adds exactly the one component |
| AspEngine.SortByPosition | app/core/asp_engine.py:224 | the sort returns a rearrangement of its input that is sorted by position |
| AspEngine.SortedComponentsOfPermutation | app/core/asp_engine.py:209-224 | the sorted components of an answer sit at positions 1..5 in order, each with its own placeholder, and each component appears at its answer position |
| AspEngine.UpdatedTables | app/core/asp_engine.py:231 | after `component_efficacy[(c, g)] = v`, `(c, g)` holds `v`, every other key is unchanged and the other tables are untouched |
| AspEngine.UpdateIdempotent | app/core/asp_engine.py:231 | repeating the same update leaves the same tables |
| AspEngine.UpdateKeepsValid | app/core/asp_engine.py:231 | an update keeps every table a proper dict |
| AspEngine.LoadOverlay | app/core/asp_engine.py:276-324 | after a full load, each key holds the value of the last row stored under it, or else its old value; an unseen model or domain gets its own table; the weights are not loaded |
| AspEngine.LoadKeepsValid | app/core/asp_engine.py:276-324 | a load, full or partial, keeps every table a proper dict |
| AspEngine.UpdateThenLoad | app/core/asp_engine.py:228-292 | once the upsert of `update_efficacy(c, g, v)` is committed, a later load gives `(c, g)` the value `v` |
| AspEngine.AppendFacts | app/core/asp_engine.py:146-169 | a loop of `facts.append` adds one fact per item, in order, after the existing facts |
| AspEngine.CollectComponents | app/core/asp_engine.py:210-219 | the loop over the answer's atoms builds the answer's components |
| AspEngine.Engine.constructor | app/core/asp_engine.py:130-135 | the engine starts valid, with the defaults overlaid by whatever the load wrote before it failed, or with the bare defaults without a load |
| AspEngine.Engine.GenerateCoreFacts | app/core/asp_engine.py:143-169 | the first five loops emit the target facts and then the three tables in dict order |
| AspEngine.Engine.GenerateAspFacts | app/core/asp_engine.py:137-183 | the emitted facts are the core facts, then the model facts, then the domain facts |
| AspEngine.Engine.GenerateModelFacts | app/core/asp_engine.py:171-175 | the model facts are emitted only for a truthy known model: `target_model` first, then its adjustments in dict order |
| AspEngine.Engine.GenerateDomainFacts | app/core/asp_engine.py:177-181 | the domain facts are emitted only for a truthy known domain: `target_domain` first, then its adjustments in dict order |
| AspEngine.Engine.Solve | app/core/asp_engine.py:185-226 | "No solution found" exactly when the program has no answer; otherwise the answer's components sorted by position, with placeholder contents, and the answer's score |
| AspEngine.Engine.UpdateEfficacy | app/core/asp_engine.py:228-274 | the in-memory key is set even if the database fails; the stored record is upserted only on commit, the tables are unchanged otherwise, and the error is re-raised |
| AspEngine.Engine.SetEfficacy | app/core/asp_engine.py:230-231 | the in-memory write sets exactly the one key |
| AspEngine.Engine.LoadEfficacyRows | app/core/asp_engine.py:281-292 | the first loop writes each row with a task or a behaviour over the efficacy table, in row order |
| AspEngine.Engine.LoadPositionRows | app/core/asp_engine.py:295-300 | the second loop writes each position row over the position table, in row order |
| AspEngine.Engine.LoadModelRows | app/core/asp_engine.py:303-312 | the third loop writes each model row into its model's table, creating the table first |
| AspEngine.Engine.LoadDomainRows | app/core/asp_engine.py:315-324 | the fourth loop writes each domain row into its domain's table, creating the table first |
| AspEngine.Engine.LoadEfficacyFromDb | app/core/asp_engine.py:276-328 | the tables get the overlay of the queries that succeeded and stay valid; an error is raised exactly when a query fails |
| EfficacyStore.FirstMatch | app/core/asp_engine.py:240-249 | `.first()` returns the first row matching the component and task-or-behaviour column, and nothing exactly when no row matches |
| EfficacyStore.UpsertOverwrites | app/core/asp_engine.py:252-253 | an existing record is overwritten where it stands; nothing is inserted and no other row changes |
| EfficacyStore.UpsertInserts | app/core/asp_engine.py:254-267 | without a matching record, exactly one record is appended, with `task_type` set for a task and `behavior_type` set for a behaviour |
| EfficacyStore.UpsertIdempotent | app/core/asp_engine.py:240-267 | repeating the upsert changes nothing more |
| EfficacyStore.LastRowWins | app/core/asp_engine.py:282-292 | the last row stored under a key decides the value the load gives it |
| EfficacyStore.NoRowNoUpdate | app/core/asp_engine.py:282-292 | a key without stored rows is not written by the load, so it keeps its default |
| EfficacyStore.MatchesIffKey | app/core/asp_engine.py:240-249 | on a well-formed row, the upsert's filter and the load's key agree |
| EfficacyStore.UpsertKeepsWellFormed | app/core/asp_engine.py:240-267 | an upsert keeps the rows well formed, with no two rows stored under one key |
| EfficacyStore.UpsertThenLoad | app/core/asp_engine.py:240-292 | loading the rows after an upsert assigns the upserted value to the key last |
| EfficacyStore.EfficacyDatabase.CommitEfficacy | app/core/asp_engine.py:240-274 | the upsert is kept on commit and rolled back otherwise, and the rows stay well formed |
| PromptOptimizer.ResolveTargets | app/services/prompt_optimizer.py:25-27 | non-empty request lists win over the detected ones, and a truthy request domain wins over the domain hint |
| PromptOptimizer.ResolvedTargetsNonEmpty | app/services/prompt_optimizer.py:22-27 | the solver always gets at least one task and one behaviour, and a domain only when the request names a non-empty one |
| PromptOptimizer.Filled | app/services/prompt_optimizer.py:38-41 | every component gets the generator's text for its type; types, positions, count and order are unchanged |
| PromptOptimizer.FillContents | app/services/prompt_optimizer.py:38-41 | the in-place loop leaves exactly the filled components |
| PromptOptimizer.ContentForKnownTypes | app/services/prompt_optimizer.py:39-41 | a component's type is always known to the generator, and the instruction's text ends with the user prompt |
| PromptOptimizer.FilledLayout | app/services/prompt_optimizer.py:30-41 | the filled components of an answer sit at positions 1..5 in order, each type once, at its answer position |
| PromptOptimizer.FilledContents | app/services/prompt_optimizer.py:38-41 | no filled text is the unknown-type text, and the instruction's text ends with the user prompt |
| PromptOptimizer.ComponentRecords | app/services/prompt_optimizer.py:95-102 | one component row per component, in order, carrying the prompt's id, type value, content and position |
| PromptOptimizer.SavedRecordsRoundTrip | app/services/prompt_optimizer.py:82-102 | a commit writes the prompt row first and then exactly one row per component with the prompt's id, and each row restores to its component |
| PromptOptimizer.SaveToDb | app/services/prompt_optimizer.py:68-109 | on commit, the prompt row and its component rows are appended and the id advances; a failed commit is rolled back and swallowed, changing nothing |
| PromptOptimizer.OptimizedOf | app/services/prompt_optimizer.py:19-66 | for a known answer, the result holds its filled components, their assembly, the rationale for its score, and the score |
| PromptOptimizer.OptimizedIsBest | app/services/prompt_optimizer.py:19-66 | over the declarative program, `optimize` always succeeds; its score is the reported answer's and no answer scores more; its components are the answer's filled components and its prompt their assembly |
| PromptOptimizer.OptimizedIgnoresModelAndDomain | app/services/prompt_optimizer.py:27-35 | changing the request's target model or domain never changes the result |
| PromptOptimizer.Record | app/services/prompt_optimizer.py:51-59 | a successful result is saved through `_save_to_db`, and a failed one saves nothing |
| PromptOptimizer.Optimizer.constructor | app/services/prompt_optimizer.py:15-17 | the optimiser's engine is fresh, valid and loaded from the database |
| PromptOptimizer.Optimizer.Answer | app/services/prompt_optimizer.py:19-50 | the steps before the save compute exactly the result of `optimize` over the engine's tables |
| PromptOptimizer.Optimizer.Optimize | app/services/prompt_optimizer.py:19-66 | the result is that of `optimize` over the engine's tables, whether or not the save commits, and the history gains its records only on commit |
| PromptOptimizer.Optimizer.ProvideFeedback | app/services/prompt_optimizer.py:111-116 | the feedback has exactly the effect of `update_efficacy` with the same three arguments |

## Left out

- clingo's search procedure and its "last model reported is best" convention (asp_engine.py lines 195-207) are not modelled.
  - `Optimum` is an exhaustive first-best search over the grounding.
  - Its tie-break is explicit: among answers of equal score, the smallest base-5 code, with instruction's position most significant.
- The program text that `solve` hands to clingo (asp_engine.py line 197) is not modelled as clingo would read it. The model captures only its declarative meaning.
  - The facts carry decimal constants such as `component_efficacy(instruction, deduction, 0.8).` and `weight(position, 0.5).` (lines 152-163).
  - The rule at lines 42-60 adds three `#sum` aggregates with `+`.
  - clingo's input language accepts neither. So, as written, `solve` and `optimize` would raise on every call rather than return the optimum the model proves.
- Fact text is modelled as structured `Fact` values, not as ASP syntax.
  - The two branches of lines 155-158 write the same text, so they become one fact constructor.
  - Line 169 is unreachable: `TaskType` and `BehaviorType` derive from `str` (prompt.py lines 14 and 22), so the `isinstance(key, str)` test of line 166 holds for every key.
  - Line 167 formats the key itself. For an enum key that gives the enum's value only on Python 3.10; from Python 3.11 on it gives the member's name, such as `TaskType.DEDUCTION`.
  - The model writes the value for every key (`Weight(TaskWeight(t), w)`), as line 169 intends.
- Score: efficacies, weights and scores are exact reals, not floats.
  - Every `E*W` contribution is summed.
  - clingo's `#sum` over a set counts two equal `E*W` tuples once, and it has no real numbers. The model does not capture either.
- Score: a lookup reads the first matching fact. With the proper dicts the engine keeps, no key is listed twice, so this is the only match.
- Float-to-text rendering is not modelled, neither in facts nor as the `:.2f` of the rationale. The rendering of the score is a parameter `renderScore`.
- SQLAlchemy sessions, flush, close and the ORM schema are not modelled.
  - Storage is a class of row sequences.
  - A failing commit is a boolean parameter.
  - A failing load is the number of its four queries that succeed.
- The ordering of `query(...).all()` and `.first()` is unspecified in SQL. The model takes row insertion order.
- Rows that fail enum conversion during a load (a `ValueError` part-way through a loop) are not modelled. Only whole-query failures are.
- The HTTP layer (app/api, app/main.py), the example client, timestamps and `print` logging are not modelled.
- The test-only behaviour absent from the code is not modelled: the result cache and its keys, `cache_clear`, the solver's `_fallback_solve` with score 100.0, `optimize`'s fallback result with score 50.0, and a boolean feedback result.
- The `api_key` of the analyser is stored and never used, so it is not modelled.
- SortByPosition: the in-place `list.sort` is modelled on values as an insertion sort. It states sortedness and permutation, not stability. Stability does not matter here, because the sorted positions are distinct.
- FillContents: the in-place assignment to `component.content` is modelled on a sequence of values. The aliasing between `solve`'s list and the returned components is not modelled.
- Concurrency is not modelled; the code has none.
