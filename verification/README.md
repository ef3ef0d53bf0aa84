# Apiary: a verified model of the workflow compiler and the dispatch protocol

Apiary runs coding agents over workflows. An author writes a tree of steps (groups, guards,
`parallel:`, `for_each:`, reject loops); the compiler lowers it to a flat list with dependency
edges that the engine schedules; the daemon polls sources, claims and enqueues dispatches,
resumes interrupted runs, fails over between runners and back-fills costs; clients answer
approvals and save edited configurations. This project models the parts of that system with the
most state and branching, and proves what they promise.

`dafny verify dfyconfig.toml` checks everything. The files, in reading order:

- **Expressions and the reference scanner**: `text`, `expr` (lexer, parser, evaluation,
  composition of conditions), `printing` (formulas written out parse back), `scanner` (rewriting
  `step.field` to `memory.field`), `trimming`, `reading` (what an authored step says, apart from
  the pass), `references` and `layout` (on authored expressions the rewriting reads exactly the
  step references from memory), `memory` (the flat step data that a rewritten reference reads).
- **The compiler**: `steps` (the step record), `sequence` and `sequenceprops` (implicit order),
  `lowering` (the pass as functions), `lowerctx` (the pass as the source runs it: a context with a
  table of staged writes, index loops and an output buffer), `staging` (the staged memory writes),
  `wiring` (what the authored texts need steps to write), `emission` (what the output holds of
  every authored unit, field by field), `bodies` (agents, parallel groups and for_each bodies, as
  written and as the engine runs them) and `telling` (runs that tell the two apart), `meaning`
  (authored tree and flat list as state-passing interpreters), `engine` (the dependency-driven
  scheduler) and `scheduling` (what it keeps on any graph), `loweringmeaning` and `preservation`
  (meaning is preserved), `routes` and `exactness` (and exactly when), `idempotence`.
- **Graph checks**: `graph` (walks, reachability, the two searches), `stepgraph`, `frontend`,
  `refcycles`.
- **The daemon**: `resumeprotocol`, `autoresume`, `settlement`, `enqueue`, `prevents` and
  `prdelivery`, `failover`, `attribution` and `crediting`, `costsweep` and `sweeps`.
- **Editors and validators**: `editdistance`, `blocks`, `frame` and `yamledit`, `approvals`.

Steps that update fields are methods of classes, loops are loops with invariants, and each is
proved equal to a specification function or against a property stated outright. Concurrent code
is a state machine over its atomic steps, and its theorems hold for every interleaving. What a
step does to memory, how comparisons are decided, what the provider answers, which calls fail
and what the clock shows are parameters. Every lemma carries `{:induction false}`: no proof rests on
automatic induction.

## Where the code and its documentation differ

- `LowerV2Workflow` is documented as idempotent. It is not when a parallel child is itself a
  group, a parallel or a for_each step and some leaf is guarded: the output then still counts as
  v2, and the second pass overwrites the leaf's condition with its empty guard
  (`Idempotence.NestedLosesItsGuard`; the exact condition is `Idempotence.LoweringTwice`).
  `Config.Validate` checks the lowered steps once more, and `validateParallelChildKind`
  (src/internal/config/workflow_validate.go:643-664) then rejects such a child, so a
  configuration without errors does not hold one.
- An `if:`, `reject_when:` or `on_reject:` on a child of a parallel group is lowered onto the
  child, but the engine runs the children of a group without looking at any of them; only steps
  of the workflow itself are guarded, gated and restarted. As written, a child runs when its guard
  holds, is rejected by its gate and, while its budget lasts, restarts from the sibling it names,
  with its failure in memory. Which other siblings a restart takes along is a parameter.
  A node does what was written exactly when no child has a guard, a gate or a restart from a
  sibling and a for_each that can run has one inner step (`Telling.BodyExactly`). A workflow keeps
  its meaning exactly when no route leads to a unit that runs there and has a child whose guard
  does not hold there, or a child with a gate or a restart (`Exactness.PreservedExactly`).
  Accepted workflows that lose a guard and a restart are `Exactness.GuardedChildIsLost` and
  `Exactness.RestartingChildIsLost`; no validator looks at loop-backs of children against what the
  engine does with them (src/internal/config/workflow_validate.go:387-395, 577-628).
  A for_each without a `steps:` body, or with several steps in it, also does something else than
  what was written, but `validateForeachStep` (src/internal/config/workflow_validate.go:540-575)
  rejects both forms after lowering, because the inner step is missing or is not an agent's.
- A reference `x.f` becomes `memory.f`, the flat step data. It reads what x reported exactly when
  nothing contributed after x, in the order of the declarations, gives f a value
  (`Memory.LoweredReadExactly`).
- The front end accepts `restart_from` naming an earlier sibling that is a group. Lowering
  dissolves the group, so the emitted goto names no step and the later check rejects it
  (`FrontEnd.RestartAtGroupAccepted`; the exact condition is `FrontEnd.UnknownGotos`).
- `mergeRawChanges` is documented to preserve comments. A comment behind the value of an edited
  key is replaced together with the value (`YamlEdit.RestOfLineReplaced`), so saving leaves a file
  alone exactly when every edited key is followed by its value only
  (`YamlEdit.SavingChangesNothing`). All other lines stay (`YamlEdit.MergeKeepsEveryLine`).
- The long spelling `steps.x.outputs.y` is documented to become `memory.y` like the short `x.y`.
  The scanner makes it `steps.memory.outputs.y` and wires the field `outputs`
  (`Scanner.LongReference`, `Scanner.LongReferenceWires`; the short spelling is
  `Scanner.ShortReference`).
- The scanner also rewrites inside string literals: a comparison with the text `x.f` of a step x
  becomes one with `memory.f` (`References.LiteralIsRewritten`). What it makes of a formula is
  what the author means exactly when no string operand holds a reference
  (`References.ScannedExactly`).
- The event overlap is documented to miss nothing. That holds for delays up to the overlap, and
  for no longer delay (`PrEvents.NoGap`, `PrEvents.LateEventIsLost`). The watermark also moves on
  when the claim of a fetched event failed; once it is past the event by the overlap, the event
  is lost (`PrDelivery.LostForGood`; the exact condition is `PrDelivery.DeliveredExactly`).
- An event is credited to one run within a sweep. Across sweeps its money can be recorded twice,
  because a priced run is no longer listed (`Sweeps.PaidByBoth`). All logs of sweeps conserve the
  money exactly when no event that costs something can be paid by two of the rows ever listed
  (`Sweeps.ConservedExactly`).
- Idempotency keys are not injective when ids contain colons (`Enqueue.KeyClash`; the exact
  conditions are `Enqueue.TaskIdsClash` and `Enqueue.WorkflowIdsClash`).
- `editBudget` counts bytes while the distance counts runes; the model keeps both.

## Model

| member | source | states |
|---|---|---|
| Expr.LexAppend | src/internal/workflow/expr.go:125-195 | lexing distributes over a text that continues with a closing parenthesis |
| Expr.ParseConjunction | src/internal/workflow/expr.go:221-330 | whatever two texts parse to, `(a) and (b)` parses to their conjunction; no precedence or keyword in either can leak out of its parentheses |
| Expr.ComposeCondClean | src/internal/config/lower_v2.go:450-462 | composing trimmed, parseable conditions gives a trimmed, parseable one; the empty text is neutral |
| Expr.ComposeCondMeaning | src/internal/config/lower_v2.go:450-462 | evaluating a composed condition is evaluating the inherited one and, only if it holds, the own guard, errors included |
| Printing.ParsesBack | src/internal/workflow/expr.go:221-330 | every formula, written out with no more parentheses than it needs, parses back to itself: `not` binds tighter than `and`, `and` than `or`, and both group to the left |
| Printing.LexesBack | src/internal/workflow/expr.go:125-195 | any tokens that have a spelling, spelled with blanks between, lex back to themselves |
| Printing.WrapperIsOptional | src/internal/config/lower_v2.go:440-447 | a trimmed expression reads the same with the `${{ }}` wrapper and without |
| Printing.AndMeans | src/internal/workflow/expr.go:356-367 | a conjunction holds exactly when both sides do, and is an error exactly when the first side is, or the second after a first that holds |
| Printing.OrMeans | src/internal/workflow/expr.go:343-354 | a disjunction is the denied conjunction of the denials, errors included |
| Scanner.PrintPieces | src/internal/config/lower_v2.go:481-521 | cutting a text into identifier runs and other characters loses nothing |
| Scanner.PiecesPrint | src/internal/config/lower_v2.go:481-521 | the cut is unique: printing a well-formed cut and cutting again gives it back |
| Scanner.RewriteRefsMeaning | src/internal/config/lower_v2.go:481-521 | the output of the rewriting, cut again, is the input's pieces with exactly the step names of rewritten references replaced by `memory`, all else verbatim |
| Scanner.RefsAreRewritten | src/internal/config/lower_v2.go:503-509 | the reported (step, field) pairs are exactly the rewritten references |
| Scanner.ShortReference | src/internal/config/lower_v2.go:479-521 | `x.y` becomes `memory.y` if and only if x names a step or is `memory` itself |
| Scanner.LongReference | src/internal/config/lower_v2.go:479-521 | for no set of steps does `steps.x.outputs.y` become `memory.y`; for a step x it becomes `steps.memory.outputs.y` |
| Scanner.LongReferenceWires | src/internal/config/lower_v2.go:503-509 | the only pair it stages is x with the field `outputs` |
| Reading.RewriteIsReading | src/internal/config/lower_v2.go:481-521 | the scanner replaces exactly the pieces that begin a reference, by `memory`, and prints the rest as it was |
| References.OrCommutes | src/internal/workflow/expr.go:221-330 | parsing tokens whose accessors are read from memory gives the formula with its accessors read from memory, or fails if the original does |
| References.ScannedExactly | src/internal/config/lower_v2.go:479-521 | what the scanner makes of a formula is the formula with its step references read from memory if and only if no string operand holds a reference |
| References.LiteralIsRewritten | src/internal/config/lower_v2.go:479-521 | a comparison with the literal `x.f`, for any step x, becomes a comparison with `memory.f` |
| Layout.LexLaid | src/internal/workflow/expr.go:125-195 | accessors, literals, marks and blanks laid out as text lex to the tokens they stand for |
| Layout.ReadsFormula | src/internal/config/lower_v2.go:469-521 | on such a text, with dashes allowed in step ids, the rewritten text parses to the author's formula with its step references read from memory, and to none only if the author's does not parse |
| Layout.ReadsVerdict | src/internal/config/lower_v2.go:469-521 | in every world the rewritten expression, wrapped or not, has the verdict of what the author wrote with its step references read from memory |
| LowerCtx.ReadRun | src/internal/config/lower_v2.go:490-493 | the inner loop stops at the end of the maximal identifier run |
| LowerCtx.LowerCtx.EnsureMemoryWrite | src/internal/config/lower_v2.go:592-605 | stages the field once, in first-referenced order, for known steps only |
| LowerCtx.LowerCtx.RewriteStepRefs | src/internal/config/lower_v2.go:481-521 | the index loop with its buffer writes the rewriting of the piece-wise specification and stages exactly the pairs it rewrites |
| LowerCtx.LowerCtx.RewriteExpression | src/internal/config/lower_v2.go:469-477 | the same on the text without its delimiters |
| LowerCtx.LowerCtx.WireField | src/internal/config/lower_v2.go:567-578 | whatever order the map yields its keys in, the field is staged for exactly the steps that declare it |
| LowerCtx.LowerCtx.EnsureMemoryWriteForExpr | src/internal/config/lower_v2.go:549-586 | every `memory.f` accessor stages f for all steps declaring it, left to right |
| LowerCtx.LowerCtx.AutoWireMemory | src/internal/config/lower_v2.go:530-545 | condition first, then gate |
| LowerCtx.LowerCtx.LowerLeafStep | src/internal/config/lower_v2.go:228-282 | emits the specified leaf, whose every field `Emission.EmittedAsWritten` ties to the authored step, and stages what its guard and gate refer to |
| LowerCtx.LowerCtx.LowerParallelStep | src/internal/config/lower_v2.go:287-347 | emits the parallel node with its gate, loop-back and children, lowered unchained, or reports the missing id |
| LowerCtx.LowerCtx.LowerForeachStep | src/internal/config/lower_v2.go:350-434 | emits the foreach node with its gate, loop-back, items path and body, one step or an anonymous sub-workflow, or reports the missing id |
| LowerCtx.LowerCtx.LowerSteps | src/internal/config/lower_v2.go:158-225 | the loop with its mutable previous id and output list computes the recursive specification and its staging, errors included |
| LowerCtx.ApplyPendingWritesToStep | src/internal/config/lower_v2.go:616-634 | merges the staged fields into the step and everything below it |
| LowerCtx.ApplyPendingWrites | src/internal/config/lower_v2.go:610-614 | the same for a list of emitted steps |
| LowerCtx.BuildStepIndex | src/internal/config/lower_v2.go:70-84 | the recursive walk builds the index in which a later step of the same id wins |
| LowerCtx.LowerV2Workflow | src/internal/config/lower_v2.go:19-51 | the imperative pass computes the lowering function that `Emission.EmittedAsWritten` and all theorems below are about |
| Staging.ItemsPathReadsBack | src/internal/config/lower_v2.go:660-674 | a for_each that names a step, in either spelling, becomes a path that reads back as the same step and field |
| Staging.StepGrows | src/internal/config/lower_v2.go:592-605 | lowering a step adds to the table exactly the (step, field) pairs its expressions demand, after what was there, without duplicates |
| Staging.ListGrows | src/internal/config/lower_v2.go:158-225 | the table after a list is its union of demands, so no order of visiting matters |
| Staging.WritesAreWired | src/internal/config/lower_v2.go:610-644 | every emitted step, at any depth, keeps its own writes as a prefix and gains exactly the demanded fields that were missing |
| Wiring.IndexIs | src/internal/config/lower_v2.go:70-84 | the pass looks an id up as the last step of that name in document order, at every depth, and as nothing if there is none |
| Wiring.ItemsAreRead | src/internal/config/lower_v2.go:646-674 | a for_each over `x.f`, `steps.x.output.f` or `steps.x.outputs.f` gets the items path `steps.x.output.f`, and any other text is passed through |
| Wiring.ListDemanded | src/internal/config/lower_v2.go:530-605 | a field is staged for a step if and only if some authored text needs it: a reference to it in a guard or a reject_when, a `memory.f` left in a condition or gate while the step declares f, or a for_each over it, at any depth |
| Emission.EmittedAsWritten | src/internal/config/lower_v2.go:158-434 | on the output of the whole pass, for every authored unit at every depth, children and for_each bodies included: its node has its id, its reject_when read from memory as gate, or else its fail_when; its on_reject as loop-back, or else its on_fail; its guard under those around it; the fields it declares, runs and iterates over; the edge to the node before it; and writes what it wrote followed by exactly what the workflow needs of it |
| Emission.GateSays | src/internal/config/lower_v2.go:254-262 | in every world the gate of such a node has the verdict of the reject_when its author wrote, with step references read from memory |
| Emission.LowersExactly | src/internal/config/lower_v2.go:287-290 | lowering fails if and only if a parallel or a for_each of an authored workflow has no id |
| Steps.AnyV2Means | src/internal/config/lower_v2.go:140-152 | a workflow counts as authored if and only if some step, however deep, uses one of the authored fields |
| Sequence.SplitTargets | src/internal/config/lower_v2.go:104-120 | each goto target is claimed by the first split that names it and precedes it, and nothing else is claimed |
| Sequence.Sequence | src/internal/config/lower_v2.go:103-138 | the three loops compute the sequencing function |
| SequenceProps.OneEdgeEach | src/internal/config/lower_v2.go:122-137 | on a flat list of distinctly named steps every step but the first gets exactly one edge, to an earlier step |
| SequenceProps.AllReachFirst | src/internal/config/lower_v2.go:86-103 | every later step waits, directly or not, for the first |
| SequenceProps.TargetsIndependent | src/internal/config/lower_v2.go:97-102 | two goto targets declared after the same split never wait for each other |
| SequenceProps.OrderWithoutSplits | src/internal/config/lower_v2.go:86-95 | without splits a step waits for exactly the steps declared before it |
| SequenceProps.SequenceIdempotent | src/internal/config/lower_v2.go:94-95 | sequencing twice is sequencing once, for any list of steps |
| SequenceProps.SequencedAs | src/internal/config/lower_v2.go:103-138 | for any list of steps: a step with an edge is left alone, one that a split before it branches to waits for the first such split, any other for the nearest named step before it, and nothing else changes |
| Meaning.FlatRunIsTreeRun | src/internal/config/lower_v2.go:154-158 | a flat list that carries the units of a tree under conditions meaning their guards runs as the tree does, whatever steps do to memory, reject loops and their budgets included |
| Meaning.JumpsOutward | src/internal/config/workflow_validate_v2.go:51-62 | a loop-back out of a list names an earlier sibling of a group around it, so none leaves an authored workflow |
| Meaning.TryMeans | src/internal/workflow/dag.go:206-228 | a step is skipped exactly when its condition is false, passes exactly when it holds, the work succeeds and no gate rejects it, and else loops back while it has budget; only a loop-back is charged |
| Engine.RunnableIsNext | src/internal/workflow/dag.go:691-725 | on a chain exactly the step at the front is runnable |
| Engine.ResetOnChain | src/internal/workflow/dag.go:879-918 | resetting the target and all its transitive dependents moves the front of a chain back to the target, and no step before it is touched |
| Engine.FireMovesFront | src/internal/workflow/dag.go:190-528 | executing the runnable step moves the front to where the list run stands, with the same world, budgets and trace |
| Engine.EveryScheduleIsTheListRun | src/internal/workflow/dag.go:190-528 | every schedule of a chain is bounded, and at rest it has ended exactly as the list run |
| Engine.RunToRest | src/internal/workflow/dag.go:190-528 | every run of a chain can be continued to rest |
| Scheduling.StatusTold | src/internal/workflow/dag.go:190-528 | in any run of any graph a step marked passed was attempted with its condition true, its work successful and its gate open, and one marked skipped with its condition false |
| Scheduling.DependenciesFirst | src/internal/workflow/dag.go:691-725 | in any run of any graph a step is attempted only after each explicit dependency passed and each sequential one passed or was skipped |
| Bodies.TameAgrees | src/internal/workflow/dag_parallel.go:54-175 | where the guards of all children hold, none has a gate or a restart from a sibling, and a for_each has one inner step, the emitted node does what was written, whatever children do, items are and joins decide |
| Bodies.FaithfulAgrees | src/internal/workflow/foreach.go:33-189 | without guards, gates and restarts on children and with one inner step it does so everywhere |
| Bodies.KidMeans | src/internal/workflow/dag.go:206-228 | as written, a child is skipped, passes or fails exactly as a step of its own would |
| Bodies.JoinMeans | src/internal/workflow/dag_parallel.go:208-240 | an empty group passes; with `any` a group passes exactly when some child does, and with `all` or no policy exactly when every child does |
| Bodies.TooManyItems | src/internal/workflow/foreach.go:41-64 | a for_each whose path does not resolve, whose items exceed its limit, fifty by default, or which has no inner step fails without running anything |
| Bodies.EachMeans | src/internal/workflow/foreach.go:76-107 | otherwise the inner step runs on the items in order, up to the first failure with fail_fast, and the node passes exactly when no item fails |
| Telling.UntameShows | src/internal/workflow/dag_parallel.go:54-175 | at any other body, and for any verdicts on the comparisons there, steps can act so that what was written and what the node does leave different memory |
| Telling.UnfaithfulShows | src/internal/workflow/foreach.go:33-189 | for any body with a guard, gate or restart on a child, or without exactly one inner step, there are such acts |
| Telling.BodyExactly | src/internal/config/lower_v2.go:287-434 | a node does what was written, whatever its children do, if and only if no child has a guard, a gate or a restart from a sibling and a for_each that can run has one inner step |
| LoweringMeaning.KidsLowered | src/internal/config/lower_v2.go:287-347 | every child of a parallel group is emitted once, in order, with its own guard read from memory as its condition, its reject_when read from memory or else its fail_when as gate, and its on_reject or else its on_fail as loop-back |
| LoweringMeaning.BodyEmitted | src/internal/config/lower_v2.go:350-434 | several steps in the body of a for_each are emitted as a list of their own, each once, in order, under its own guards, with the gate and the loop-back its author gave it |
| LoweringMeaning.StepEmitted | src/internal/config/lower_v2.go:160-223 | every authored unit is emitted exactly once, in document order, under the conjunction of its guards, with the gate and the loop-back its author gave it, and its node holds what the pass leaves of its children |
| LoweringMeaning.ListEmitted | src/internal/config/lower_v2.go:158-225 | the same for a list of steps, with the inherited guards |
| LoweringMeaning.ListChained | src/internal/config/lower_v2.go:154-158 | the emitted list is a single chain: each step waits for the one before it and nothing else |
| LoweringMeaning.LoweredReads | src/internal/config/lower_v2.go:254-270 | the condition, gate and loop-back the pass computes are the author's, as `reading` defines them without the pass |
| Trimming.RewriteTrimmed | src/internal/config/lower_v2.go:469-477 | rewriting references keeps a trimmed expression trimmed |
| Preservation.GuardsMeaning | src/internal/config/lower_v2.go:197-206 | the one composed condition of an emitted step means all guards around it, outermost first |
| Preservation.LoweredTasks | src/internal/config/lower_v2.go:19-51 | the lowered workflow consists of the authored units, with the gates, loop-backs and children their author gave them, once each and in order, each waiting for the one before |
| Preservation.LoweringPreservesMeaning | src/internal/config/lower_v2.go:8-19 | when every body is faithful, every engine run of the lowered workflow is bounded and, at rest, has executed the same units in the same order, children included, and ended in the same world as the authored tree |
| Routes.NeverFaultyPreserves | src/internal/config/lower_v2.go:8-19 | the same when no route stops at a unit that runs there and is not tame there; routes are decided by guards, gates and loop budgets alone |
| Exactness.PreservedExactly | src/internal/config/lower_v2.go:8-19 | for every authored workflow: meaning is preserved, whatever steps and children do and whichever siblings a restart takes along, if and only if there is no such route |
| Exactness.OpenExactly | src/internal/workflow/dag_parallel.go:54-175 | where nothing up to the first unfaithful unit is guarded or gated, meaning is preserved if and only if there is none |
| Exactness.RepeatedGuardsPreserve | src/internal/workflow/dag.go:206-228 | a child may repeat a guard of its unit, since that guard is tested before the unit runs |
| Exactness.GuardedChildIsLost | src/internal/workflow/dag_parallel.go:54-175 | a concrete accepted workflow with a guarded child whose meaning lowering does not preserve |
| Exactness.RestartingChildIsLost | src/internal/workflow/dag.go:465-496 | a concrete accepted workflow without any guard or gate, in which a child restarts from its sibling, whose meaning lowering does not preserve |
| Memory.CollectMemory | src/internal/workflow/dag.go:920-943 | the contributions are the inherited ones, then for every node in declaration order its own, its children's and its failed attempts' |
| Memory.MemoryValues | src/internal/workflow/dag.go:979-992 | the nested loops leave, for every field some step gives a value, the value of the last such step |
| Memory.FlatReadExactly | src/internal/workflow/dag.go:973-992 | the flat value of a field is what a given step reported, whatever the steps report, if and only if no later contribution gives the field a value |
| Memory.LoweredReadExactly | src/internal/config/lower_v2.go:481-521 | in a run, a rewritten reference reads the named step's own output if and only if none of its children and failed attempts and no node declared after it gives the field a value |
| Memory.ChildReadExactly | src/internal/workflow/dag.go:920-943 | the output of a child of a parallel group is read if and only if no later child of the group, no failed attempt of the group and no node declared after it gives the field a value |
| Idempotence.OutputForm | src/internal/config/lower_v2.go:44-50 | the output of the pass is a chain of emitted nodes |
| Idempotence.OutputConditioned | src/internal/config/lower_v2.go:140-152 | whether the output still counts as v2, and whether it holds a conditioned leaf, can be read off the authored tree |
| Idempotence.SecondDemand | src/internal/config/lower_v2.go:530-545 | a second pass would demand no field the first one did not already wire |
| Idempotence.LoweringTwice | src/internal/config/lower_v2.go:14-31 | lowering the output gives it back if and only if no parallel child stays v2 or no leaf is guarded |
| Idempotence.SequencingTwice | src/internal/config/lower_v2.go:26-35 | a workflow without authored fields is only put in sequence, and that once |
| Idempotence.NestedLosesItsGuard | src/internal/config/lower_v2.go:14-18 | a concrete two-step workflow whose second lowering drops a guard |
| Graph.BuiltEdges | src/internal/config/workflow_graph.go:13-39 | both adjacency maps hold exactly the declared dependencies, in opposite directions |
| Graph.CyclesAgree | src/internal/config/workflow_graph.go:36-41 | a step lies on a cycle of dependents exactly when it lies on a cycle of dependencies |
| Graph.IsAncestor | src/internal/config/workflow_graph.go:115-131 | the queue loop returns true exactly for the transitive closure, one edge or more, and ends on cyclic graphs |
| Graph.CycleSearch.Visit | src/internal/config/workflow_graph.go:86-100 | a visit that finds nothing finishes the node and restores the gray ones; what it finds lies on a cycle |
| Graph.FindCycle | src/internal/config/workflow_graph.go:74-110 | no answer exactly when the relation is acyclic, otherwise a step on a cycle |
| StepGraph.AddStep | src/internal/config/workflow_graph.go:27-38 | the edges of a step go into both maps unless they name an unknown step or the step itself, which are exactly the errors |
| StepGraph.BuildGraph | src/internal/config/workflow_graph.go:13-39 | the maps of the valid edges; no error exactly when all references are valid |
| StepGraph.CheckGotos | src/internal/config/workflow_graph.go:48-67 | reports exactly the known gotos that target no ancestor, with declaration order as the graph when there are no edges |
| StepGraph.ValidateStepGraph | src/internal/config/workflow_graph.go:10-70 | reports exactly the unknown dependencies, the steps that depend on themselves and the gotos to steps that are no ancestors, each by name, and a step on a cycle if there is one; so nothing exactly for the accepted workflows |
| StepGraph.EdgesAreWaits | src/internal/config/workflow_graph.go:13-39 | the graph has an edge exactly where a step names another, defined step as an explicit or a sequential dependency |
| FrontEnd.CheckOwn | src/internal/config/workflow_validate_v2.go:44-77 | reports exactly the broken gate, restart-target, budget and group rules of the step, by step, target and budget |
| FrontEnd.ValidateV2Steps | src/internal/config/workflow_validate_v2.go:37-97 | reports exactly the broken rules of every step, at every depth, against its earlier siblings |
| FrontEnd.ValidateV2Workflow | src/internal/config/workflow_validate_v2.go:16-33 | reports nothing without authored fields; else mixed forms exactly when some step, however deep, has a dependency or a branch, and exactly the broken rules |
| FrontEnd.ChainAncestors | src/internal/config/workflow_graph.go:112-131 | on a chain the ancestors of a step are exactly the steps at earlier positions |
| FrontEnd.ChainAccepted | src/internal/config/workflow_graph.go:27-43 | a chain of distinct ids has only valid edges and no cycle |
| FrontEnd.FrontImpliesBack | src/internal/config/workflow_graph.go:41-67 | what the front end accepts, the graph check accepts after lowering |
| FrontEnd.UnknownGotos | src/internal/config/workflow_validate.go:387-391 | every emitted goto names an emitted step if and only if no restart names a group |
| FrontEnd.AcceptedIsAuthored | src/internal/config/workflow_validate_v2.go:51-62 | an accepted workflow with readable guards and no restart at a group is one whose meaning lowering preserves |
| FrontEnd.RestartAtGroupAccepted | src/internal/config/workflow_validate_v2.go:51-57 | a concrete accepted workflow whose lowered goto names no step |
| RefCycles.RefSearch.Visit | src/internal/config/workflow_contract.go:71-95 | after a visit the stack is back, reports only grow, and the workflow is finished or a cycle was reported |
| RefCycles.RefSearch.Report | src/internal/config/workflow_contract.go:75-83 | what is reported is the closed walk of references from the workflow back to itself |
| RefCycles.RefSearch.VisitCalls | src/internal/config/workflow_contract.go:86-92 | without a report, every referenced workflow is finished after the loop |
| RefCycles.ValidateReferenceCycles | src/internal/config/workflow_contract.go:66-105 | every report is a closed walk of references, and there is none exactly when no workflow lies on a reference cycle |
| EditDistance.NoShorterScript | src/internal/config/source_config_validate.go:77-97 | no script of inserts, deletes and substitutions is shorter than the distance |
| EditDistance.ShortestScript | src/internal/config/source_config_validate.go:77-97 | some script is exactly as short |
| EditDistance.DistSymmetric | src/internal/config/source_config_validate.go:77-97 | the distance is symmetric |
| EditDistance.ZeroIsEqual | src/internal/config/source_config_validate.go:77-97 | it is zero exactly on equal texts |
| EditDistance.Triangle | src/internal/config/source_config_validate.go:77-97 | it satisfies the triangle inequality |
| EditDistance.FillRow | src/internal/config/source_config_validate.go:86-93 | the inner loop fills the row below the previous one |
| EditDistance.Levenshtein | src/internal/config/source_config_validate.go:78-97 | the two swapped rows compute the distance |
| EditDistance.Suggest | src/internal/config/source_config_validate.go:50-75 | an alias if there is one; else the name that the shortest correction leads to, first in sorted order among equals, where a correction is a script of one edit, or of two for names longer than four bytes; and nothing exactly if there is no correction |
| EditDistance.SuggestionIsLeast | src/internal/config/source_config_validate.go:55-65 | the suggestion is nearest and, among the nearest, least in sorted order |
| EditDistance.BytesAre | src/internal/config/source_config_validate.go:68-75 | the length the budget looks at is the UTF-8 length |
| Attribution.FingerNotAgain | src/internal/cursorusage/match.go:96-118 | no two events are the fingerprint of the same run |
| Attribution.MatchedUnambiguous | src/internal/cursorusage/match.go:129-143 | a fingerprinted run counts no ambiguous event |
| Attribution.FingerprintedRun | src/internal/cursorusage/match.go:67-80 | a fingerprinted run has exactly one event, which has all four token counts of the run and lies within a quarter of an hour of it, and is charged that event's cost and its own tokens |
| Attribution.ChargesAreCredits | src/internal/cursorusage/match.go:87-94 | what all runs are charged is the cost of the events credited to them |
| Attribution.Conservation | src/internal/cursorusage/match.go:75-80 | attributed money never exceeds the money of the events |
| Attribution.Pass1 | src/internal/cursorusage/match.go:96-118 | totals, matched runs and taken events after the fingerprint pass |
| Attribution.Pass2 | src/internal/cursorusage/match.go:120-145 | totals and ambiguity counts after the window pass |
| Attribution.Attribute | src/internal/cursorusage/match.go:81-147 | each run's totals are the sums over the events credited to it, each event having one creditor at most |
| Crediting.FingersExactly | src/internal/cursorusage/match.go:96-118 | read event by event, the fingerprints are the one assignment in which each event is the fingerprint of the only run left whose token counts it has within a quarter of an hour |
| Crediting.CreditMeans | src/internal/cursorusage/match.go:96-145 | an event is credited to a run if and only if it is its fingerprint or, being none, lies in the window of this run and of no other run without a fingerprint |
| Crediting.TableExactly | src/internal/cursorusage/match.go:81-147 | for every run the table holds the sums of cost, count, billed input and output over exactly the events that fall to it, whether one is its fingerprint, and how many it shares with other runs |
| CostSweep.Compact | src/internal/daemon/cursor_cost.go:81-89 | filtering into the array being read leaves exactly the rows with retries left, in order |
| CostSweep.CountsCapped | src/internal/daemon/cursor_cost.go:83-102 | over any sweeps no attempt count exceeds ten |
| CostSweep.TriesAreCounted | src/internal/daemon/cursor_cost.go:79-102 | an execution that stays listed and unpriced is tried by each of the first ten sweeps and by none after, and its count is the number of tries |
| CostSweep.Sweeper.Sweep | src/internal/daemon/cursor_cost.go:73-165 | the counts and costs after a sweep, also when fetching or a write fails |
| CostSweep.SweepConserves | src/internal/daemon/cursor_cost.go:121-163 | one sweep never records more money than its events cost |
| Sweeps.CreditIsPayable | src/internal/daemon/cursor_cost.go:121-154 | an event credited to a row that gets its price is the row's fingerprint, or lies in its widened window and is not too large for it |
| Sweeps.LogConserves | src/internal/daemon/cursor_cost.go:73-165 | over any log of sweeps, with any rows, fetched events, failures and attempt counts, in which a priced row is not listed again: the money recorded is at most the money of the events when no event that costs something can be paid by two of the rows |
| Sweeps.PaidByBoth | src/internal/daemon/cursor_cost.go:121-163 | for any event that two rows can pay, two sweeps record twice its cost |
| Sweeps.ConservedExactly | src/internal/daemon/cursor_cost.go:73-165 | whatever events the service answers with: all logs conserve the money if and only if no such event exists |
| Sweeps.BothAsked | src/internal/daemon/cursor_cost.go:99-118 | the two sweeps ask for the event if and only if it lies within two minutes of both runs |
| Sweeps.WindowedConserves | src/internal/daemon/cursor_cost.go:99-165 | when sweeps get only what they ask for: no shared event implies that all logs conserve the money, which implies that no event within two minutes of two runs is shared |
| AutoResume.Plan | src/internal/daemon/resume_auto.go:51-68 | the table holds, for each pair, the last listed auto-resumable instance, and nothing else |
| AutoResume.LaunchesAreFit | src/internal/daemon/resume_auto.go:70-101 | exactly the planned instances that are neither superseded nor settled nor claimed, and whose start succeeds, are resumed |
| AutoResume.LaunchedIsDue | src/internal/daemon/resume_auto.go:51-101 | by position: an instance is launched if and only if it is listed, auto-resumable, followed by no other of its pair, and nothing stands against it |
| AutoResume.TakenIsDue | src/internal/daemon/resume_auto.go:86-98 | exactly the pairs of those instances are claimed |
| AutoResume.PairsInOrder | src/internal/daemon/resume_auto.go:51-68 | pairs are taken up in the order of their first auto-resumable instance |
| AutoResume.OneLaunchPerPair | src/internal/daemon/resume_auto.go:51-55 | never two instances of the same (task, workflow) pair |
| AutoResume.Resumer.ResumeAutoInterrupted | src/internal/daemon/resume_auto.go:41-105 | the loop launches exactly the last listed instance of each pair against which nothing stands, under its claim, and releases the claims of failed starts |
| ResumeProtocol.StepKeepsInv | src/internal/daemon/resume_auto.go:86-98 | every step of resume goroutines, polls and redeliveries keeps the claim invariant |
| ResumeProtocol.NoDuplicateRun | src/internal/daemon/resume_auto.go:121-162 | in every interleaving, at every moment, no admitted dispatch has its pair claimed or its resume descendant live |
| ResumeProtocol.LiveFirstIsUnsafe | src/internal/daemon/dispatcher.go:1920-1925 | with the live-instance query before the claim, some run admits a duplicate |
| ResumeProtocol.EarlyChecksAreUnsafe | src/internal/daemon/dispatcher.go:621-644 | with polls or the worker started before the claims, some run admits a duplicate |
| Settlement.StepKeepsInv | src/internal/daemon/queue_dispatch.go:284-337 | every step of engine, stop and settlement, repeated or cut short, keeps the accounting invariant |
| Settlement.ReleasedAtMostOnce | src/internal/daemon/queue_dispatch.go:363-385 | however often settlement is replayed and whoever competes, a hold on the counter is released at most once; when it is released at all is `Settlement.TakenIsReleased` |
| Settlement.TakenForGood | src/internal/db/workflow_store.go:179-204 | who took a row out of `queued` never changes |
| Settlement.EngineWins | src/internal/daemon/workflow_ipc.go:289-307 | when the engine wins the row, neither stop nor settlement ever releases it |
| Settlement.JobReleasedAtMostOnce | src/internal/daemon/queue_dispatch.go:288-305 | a job with a reserved row is released through the row alone, once at most; when it is released at all is `Settlement.SettleRowAlone` |
| Settlement.TakenIsReleased | src/internal/daemon/queue_dispatch.go:284-385 | in every run, a hold taken by a stop or a settlement that ended without crashing is released exactly once, and one taken by the engine never |
| Settlement.ReleasedExactly | src/internal/daemon/queue_dispatch.go:284-385 | when all processes have ended and none crashed, exactly the holds taken by stops and settlements are released |
| Settlement.StopAlone | src/internal/daemon/workflow_ipc.go:289-307 | a stop of a queued instance releases its hold, and of any other instance does nothing |
| Settlement.SettleRowAlone | src/internal/daemon/queue_dispatch.go:288-305 | settling a job with a reserved row releases the row's hold unless somebody took the row |
| Settlement.SettleMarkAlone | src/internal/daemon/queue_dispatch.go:306-337 | settling a job without one releases its hold once, unless the local engine owns the run |
| Enqueue.KeyInjective | src/internal/daemon/queue_dispatch.go:87-103 | for colon-free task and workflow ids equal keys mean equal task, generation, workflow and nonce |
| Enqueue.NoncesAndPolls | src/internal/daemon/queue_dispatch.go:87-103 | two polls of a generation share a key, two manual runs share one only if their nonces are equal |
| Enqueue.KeyClash | src/internal/daemon/queue_dispatch.go:97-103 | two concrete dispatches with colons in their ids share a key |
| Enqueue.TaskIdsClash | src/internal/daemon/queue_dispatch.go:97-103 | two different task ids can share a key, for some generations, workflows and nonces, if and only if one is the other followed by a colon and a whole number that ends it or stands before another colon |
| Enqueue.WorkflowIdsClash | src/internal/daemon/queue_dispatch.go:97-103 | two different workflow ids of one task and generation can share a key, for some nonces, if and only if one begins with the other and a colon |
| Enqueue.GenerationsDiffer | src/internal/daemon/queue_dispatch.go:97-103 | two generations of one task never share a key |
| Enqueue.CreatedAreNew | src/internal/daemon/queue_dispatch.go:129-153 | the queue grows by one key for each job created |
| Enqueue.FanOut.EnqueueFanOut | src/internal/daemon/queue_dispatch.go:108-157 | whatever fails, the counter rises by exactly the number of jobs newly created |
| Enqueue.FanOut.SendAll | src/internal/daemon/queue_dispatch.go:120-156 | the loop takes the counter back once for each match that creates no job |
| Enqueue.NoneLeftQueued | src/internal/daemon/queue_dispatch.go:159-169 | no reservation stays queued for a match that created no job |
| Enqueue.AbandonKeeps | src/internal/daemon/queue_dispatch.go:162-169 | a reservation changes only for such a match, and only from queued to canceled |
| PrEvents.NoGap | src/internal/daemon/pr_events.go:17-67 | an event after the baseline that becomes visible within the overlap is in the answer to the first fetching poll that starts once it is visible |
| PrEvents.LateEventIsLost | src/internal/daemon/pr_events.go:17-21 | for any longer delay there are polls, continued in any way, that never fetch the event |
| PrEvents.WatermarkIs | src/internal/daemon/pr_events.go:32-67 | the watermark is the start of the last poll that moved it: the first that could read and write, and later each that could also fetch |
| PrEvents.DispatchedOnceWithinBudget | src/internal/daemon/pr_events.go:110-138 | over all polls each (source, event, workflow) is dispatched at most once, and no positive budget is exceeded |
| PrEvents.EventPoller.PollPREvents | src/internal/daemon/pr_events.go:32-67 | baseline, failed and successful polls: when the watermark moves, and what is routed |
| PrEvents.EventPoller.Route | src/internal/daemon/pr_events.go:110-138 | the budget is checked before the claim, and only a won claim dispatches |
| PrEvents.EventPoller.CountFor | src/internal/db/pr_event_store.go:54-64 | the count is the number of claims of the pull request |
| PrEvents.RouteAllExtends | src/internal/daemon/pr_events.go:61-63 | a poll extends the routed history by exactly what it fetched |
| PrDelivery.DispatchedExactly | src/internal/daemon/pr_events.go:110-138 | over any polls an event is dispatched to a workflow if and only if some fetching poll brings it and one of its attempts finds the budget unspent and meets no fault |
| PrDelivery.DeliveredExactly | src/internal/daemon/pr_events.go:32-138 | without a budget: if and only if some fetching poll brings it with a match whose claim does not fail |
| PrDelivery.DeliveredInTime | src/internal/daemon/pr_events.go:32-138 | an event after the baseline that becomes visible within the overlap is dispatched by the first fetching poll that starts once it is visible, unless its claim fails |
| PrDelivery.LostForGood | src/internal/daemon/pr_events.go:61-67 | once the watermark is past an event by the overlap, no later poll dispatches what was not dispatched before |
| Failover.PauseIsMaximum | src/internal/daemon/dispatcher.go:188-225 | over any calls the recorded pause of a runner type is the latest of the effective ends |
| Failover.PauseNeverShrinks | src/internal/daemon/dispatcher.go:188-191 | a recorded pause is never shortened |
| Failover.Runners.PauseRunnerWithKind | src/internal/daemon/dispatcher.go:198-225 | the effective end by failure kind, and the table it leaves |
| Failover.SomeoneRuns | src/internal/daemon/workflow.go:498-530 | at least one candidate runs |
| Failover.StopsAtSuccess | src/internal/daemon/workflow.go:597-619 | nothing runs after the first attempt without a failure kind |
| Failover.PauseBinds | src/internal/daemon/workflow.go:522-529 | no candidate but the last runs before the pause its runner type got earlier in the chain is over |
| Failover.EarlierPauseBinds | src/internal/daemon/workflow.go:522-529 | no candidate but the last runs before a pause its runner type had when the chain began is over |
| Failover.RunsExactly | src/internal/daemon/workflow.go:498-619 | a candidate runs if and only if every run before it failed and, unless it is the last, every pause of its runner type is over: those from before, and those of failed runs, which last until the time the provider named, or a cooldown after spent credit, or five minutes after a rate limit |
| Failover.ReportIsSum | src/internal/daemon/workflow.go:569-579 | the last attempt is reported, and each of the eight usage fields is the sum of that field over the attempts made, absent exactly if none reported any |
| Failover.Runners.ExecuteStep | src/internal/daemon/workflow.go:522-641 | the loop runs exactly the specified candidates, in order, leaves the specified table, and reports the last attempt and the field-by-field sums |
| Blocks.FindAgentBlock | src/internal/config/config.go:883-891 | the first header line of the agent, or -1 |
| Blocks.FindKeyInBlock | src/internal/config/config.go:895-908 | the first line of the key before the block is left |
| Blocks.InsertionPoint | src/internal/config/config.go:825-828 | the end of the deeper lines |
| Blocks.MergeField | src/internal/config/config.go:816-833 | sets the key in the agent's block, leaves the header where it is, and reports no change only if there is none |
| Blocks.PutOwn | src/internal/config/config.go:816-833 | after setting a key it reads back, the header stays and the agent's other keys are found as before |
| Blocks.PutOtherAgent | src/internal/config/config.go:808-873 | lookups in the blocks of other agents are unchanged |
| Blocks.MergeReadsBack | src/internal/config/config.go:808-873 | after any sequence of updates every one of them reads back |
| Blocks.MergeKeepsKey | src/internal/config/config.go:808-873 | a key that no update names is found as before, whatever else is updated |
| Blocks.MergeTwice | src/internal/config/config.go:808-873 | a second merge changes nothing |
| Blocks.MergeKeepsHeaders | src/internal/config/config.go:808-812 | no header is lost or gained |
| Blocks.MergeKeepsSkeleton | src/internal/config/config.go:793-796 | the lines that hold none of the three keys, in any block, are kept, unchanged and in order, also when blocks overlap |
| Blocks.MergeSameExactly | src/internal/config/config.go:796-879 | a merge changes nothing if and only if every updated key is there and writing its value leaves its line as it is |
| Frame.KeyMoves | src/internal/config/config.go:816-833 | setting one key moves the line of every other key by the lines inserted before it |
| Frame.MergeKeepsLines | src/internal/config/config.go:793-879 | there is an increasing map from old to new line numbers under which every line is unchanged, or is the first line of an updated key in its agent's block and holds the new value; every line outside the map is an inserted key that its block did not have |
| YamlEdit.YamlLawful | src/internal/config/config.go:883-952 | the textual header, key, indentation and value functions obey the laws the block editor needs |
| YamlEdit.RestOfLineReplaced | src/internal/config/config.go:911-917 | writing a value replaces all that follows the colon, so the line is unchanged exactly when only the value stood there |
| YamlEdit.SplitJoin | src/internal/config/config.go:805-878 | joining one-line texts and splitting them again gives them back |
| YamlEdit.MergeReadsBack | src/internal/config/config.go:796-879 | after saving, looking up an edited field of an agent in the file finds the value in memory |
| YamlEdit.AgentSaved | src/internal/config/config.go:796-879 | after saving, each agent's block holds `model:` with the agent's model, `runner:` with its runner and `max_workers:` with its worker limit; a field without a value in memory, and every field of an agent that is not in the file, reads as before |
| YamlEdit.MergeTwice | src/internal/config/config.go:796-879 | saving again changes nothing |
| YamlEdit.MergeKeepsTheRest | src/internal/config/config.go:793-796 | the lines of the file that hold no model, runner or worker limit are still there, unchanged and in order, also when blocks overlap |
| YamlEdit.MergeKeepsEveryLine | src/internal/config/config.go:793-879 | every line of the file is still there, in order: as it was, or with the new value if it is the first line of an edited field in its agent's block; every new line is an edited field its block did not have |
| YamlEdit.SavingChangesNothing | src/internal/config/config.go:796-917 | saving leaves the file as it is if and only if each edited field's line is exactly its head, a blank and the value |
| YamlEdit.MergeRawChanges | src/internal/config/config.go:796-879 | the loop over agents and fields computes the specified file, also when nothing changed |
| Approvals.CheckFields | src/internal/daemon/approval_http.go:264-299 | no error exactly when no required field is absent, null or empty, unless rejecting, and every value is of its field's kind; else the error names the first field that fails, and how |
| Approvals.RejectionPasses | src/internal/daemon/approval_http.go:261-271 | a rejection without values passes the field checks of any request |
| Approvals.CollectedIsAccepted | src/internal/daemon/approval_http.go:264-299 | values collected from well-typed entries are accepted by the daemon |
| Approvals.ResolveApprovalValues | src/internal/cli/approvals.go:421-468 | sends for each field the value its flag or its answer says, refuses exactly when a flag is undeclared, a required field is empty or a text says nothing for its field, and what it sends the daemon accepts |
| Approvals.CoerceMeans | src/internal/cli/approvals.go:421-468 | a text becomes the one value it says for the kind of its field, and is refused exactly if it says none |
| Approvals.CliSends | src/internal/cli/approvals.go:421-468 | the command line sends each field as entered, and refuses exactly when some field cannot be sent |
| Approvals.EditKeepsForm | src/internal/dashboard/approval_form.go:208-272 | any key on any field keeps every choice one of its options and every boolean typed |
| Approvals.FormAccepted | src/internal/dashboard/approval_form.go:274-317 | what the form accepts on enter the daemon accepts |
| Approvals.FormSends | src/internal/dashboard/approval_form.go:274-317 | enter sends each field as it is shown: the typed text, the chosen option, the flag |
| Approvals.TypingAppends | src/internal/dashboard/approval_form.go:252-272 | typed characters are appended in order, a backspace takes the last one back, and ctrl+u clears |
| Approvals.ChoiceKey | src/internal/dashboard/approval_form.go:208-235 | a key on a choice moves from the option held to the next, the previous or the numbered one, around the ends |
| Approvals.BooleanKeys | src/internal/dashboard/approval_form.go:237-250 | y and n set a boolean, the other keys turn it over |
| Approvals.Form.constructor | src/internal/dashboard/approval_form.go:95-121 | the form opens with every choice at its first option and every boolean at false |
| Approvals.Form.HandleKey | src/internal/dashboard/approval_form.go:153-206 | whatever was typed before, an approval it sends is what the form shows and one the daemon accepts; where the focus moves, what is held and typed, and when the form closes |
| Approvals.Form.EditField | src/internal/dashboard/approval_form.go:208-272 | what a key does to the held value and to the draft |

## Left out

- Preservation.LoweringPreservesMeaning: covers authored workflows with named units, `if:` guards that are empty or parse after rewriting, restarts that name earlier units, no hand-written edges, conditions or typed nodes, which the pass overwrites or bypasses, and children that are agents or waits without steps of their own, which is all the validators allow (src/internal/config/workflow_validate.go:540-575, 643-664). Loop-backs of children are allowed. For bodies that are not faithful it fails, as `Exactness.PreservedExactly` states.
- Preservation.LoweringPreservesMeaning: approval and wait parking, splits and on_conflict restarts of the engine are not steps of the scheduler model. How many items a concurrent fail-fast for_each has started when it stops is a parameter.
- FrontEnd.AcceptedIsAuthored: asks for children that are agents or waits without steps of their own, which the later validators check.
- Memory.LoweredReadExactly: rendering of values and the engine's moment of reading are parameters; rewriting itself is `Scanner.RewriteRefsMeaning`.
- Idempotence.LoweringTwice: is stated for plain units with ids of their own and for steps that declare the same fields wherever they share an id.
- FrontEnd.FrontImpliesBack: is stated for named steps without hand-typed nodes, conditions or goto edges, with names that are not shared between units and groups.
- LowerCtx.LowerV2Workflow: outcome, schema and memory records are values, so writes through pointers shared with the authored step are not captured; execution fields that a leaf only carries along are one payload.
- LowerCtx.LowerCtx.LowerParallelStep: staging is specified for successful lowering only, since a failed pass is discarded.
- Emission.EmittedAsWritten: the steps nested in a child that is itself a group or a parallel, which the pass copies into the child and the validators reject, are not compared.
- Emission.GateSays: is stated for expressions laid out as `Layout.ReadsVerdict` asks; for every text, `Emission.EmittedAsWritten` says that the gate is that text with exactly its references replaced.
- Layout.ReadsVerdict: asks for accessors without blanks around their dots, which the scanner would not recognise, none that begins with a keyword and a dot, no numbers that look like references, and no string operand that holds one, for which it fails (`References.LiteralIsRewritten`).
- Bodies.EachMeans: with fail_fast and several items at a time, how many items have started when it stops is a parameter.
- EditDistance.Suggest: the key is given trimmed and in lower case, and the sorted key names are given.
- Attribution.Attribute: costs are reals and times integers; run ids are distinct, as database keys are.
- CostSweep.Sweeper.Sweep: the fetch window is a parameter through the events it yields; the refresh of the step's cost is left out.
- CostSweep.SweepConserves: holds for one sweep; for any number of sweeps see `Sweeps.ConservedExactly`.
- Sweeps.ConservedExactly: the client keeps every event the service returns, so any events may be fetched here; events cost and count nothing negative.
- Sweeps.WindowedConserves: leaves open the events that are a run's fingerprint but lie two to fifteen minutes from it; whether they are fetched depends on which other rows are pending.
- Settlement.TakenIsReleased: a release lost to a crash between taking a row and decrementing is allowed, as in the source; the task's final state is not part of the model.
- Enqueue.FanOut.EnqueueFanOut: the generation read and the job's other fields are left out; a failed decrement is not modelled.
- PrDelivery.DeliveredInTime: is stated for workflows without a budget; with one, `PrDelivery.DispatchedExactly` says what happens.
- Failover.Runners.ExecuteStep: the pause table is not shared with other steps while the loop runs; timings are summed like usage and left out.
- YamlEdit.MergeReadsBack: agents have disjoint blocks and values without line breaks; the path that marshals a configuration without loaded text is left out.
- Approvals.CheckFields: matching of approvers and delegates is left out; options are strings and field names distinct.
- Approvals.Form.HandleKey: text editing works on characters where the source works on bytes, and numbers are what the float parser returns.
- The check that a for_each reads an array-typed field, the per-field rules of the validators, routing, the once and failure-cap guards of a poll, leases, plugins, HTTP and rendering: they would only add easy members.
