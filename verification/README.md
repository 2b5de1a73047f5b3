# Camel benchmark tooling: a verified model

Camel's training benchmark lets an optimised configuration skip a gradient operator only if a static
analysis of the step graph calls its result unused. This project models that analysis
(`benchmarks/reconcile_train.py`) and proves what it gets right and exactly when, together with five smaller algorithms
of the benchmark and packaging tools.

Check everything with `dafny verify dfyconfig.toml`.

## The step-graph analysis

| module | what it holds |
|---|---|
| `FlowGraph` | nodes, slots, ports, captures and results of the graphs |
| `Semantics`, `Fuel` | what a graph computes: a fuel-indexed evaluator; more fuel only refines a result, and a finished one is final (`Fuel.FinishedIsFinal`) |
| `ClosureSpec`, `ClosureFixpoint` | which graphs a value may be a closure of: the equations, and the loop that solves them |
| `ClosureSoundness` | every call of every run enters a graph the solution lists |
| `ClosureRules` | the same from the graph alone: which closures flow where, by finitely many rules |
| `Demand`, `DemandFixpoint` | what the root's result reads: the rules, and the loop that closes under them |
| `DemandSoundness` | unused means removable (non-interference, by a logical relation on values) |
| `DemandRules` | which demands are made, from the graph and the closure table alone, by finitely many rules |
| `Reachable` | how often a graph is counted per step: chains of call sites from the root |
| `CallRules` | which graphs are counted, and what a count is, from the graph and the closure table alone |
| `Running`, `Trails` | what an activation runs: layout, arms and rounds; which nodes run exactly once whatever is decided at run time |
| `Activations` | when the counts are what a step does, whatever is decided at run time |
| `Executions`, `NestedArm` | the same for executions by evaluation, and programs that are counted rightly and wrongly |
| `Verdict`, `Reconcile` | operator accounting, and the whole analysis end to end |
| `Limits` | a program on which the analysis would be wrong without its assumption on operators |
| `Copies` | copies that hand closures on: a check of the graph under which the analysis is right all the same |
| `GraphText` | bracket nesting, edges and name lookup of the printed program |

How values run. An operator is a strict, deterministic function of its inputs, chosen per node, and
may be anything (also a fault, or nothing at all: `Bot`). A record has keyed slots; a closure has a
target graph and captures; a JOIN computes the arm its first NORM input selects; a GATE passes its
first NORM input on, or its first WITH input; CTRL inputs carry no value. A LOOP is asked, with its
NORM inputs and the results its parts gave in the last round, for a result or for the bindings of
another round (`Semantics.Turn`), which covers `for`, `while` and both together.

What runs. The execution order of a graph (`computeExecutionOrder` in
`src/execute/graph_runtime_support.cpp`) lays out what the result depends on through WITH, NORM and
CTRL inputs of all arms, each branch and each loop as one piece with all members of its regions. A
laid-out node runs once for each way through the regions it is in: the arms are taken, and each loop
part comes to the round in question. What an arm reads from outside the branch is not in the arm's
region and runs whether the arm is taken or not. Regions are part of the graph (`Node.regions`), with
the invariant the run-time checks (`src/runtime/branch_arms.cpp`, here `Running.RegionsOk`); the
analysis does not read them. A node is *certain* when it is laid out, in no loop, and in no arm of a
branch with more than one arm: `Running.Certain` is a check of the graph.

What is assumed, and where it is written:

- Operators and loops neither look into closures nor hand them on (`Semantics.DataOnly`). The code
  treats every node type it does not know as such an operator; `Limits` shows a program with a closure
  passed through an unknown node (a conversion or a copy) whose returned value the analysis calls
  unused. For copies there is a check of the graph instead (`Copies.Clear`): resolve closures once
  more, through the copies, and see that none of them holds one.
- A FILL starts from a constant, and when the keys of its slots are known its WITH inputs fill them
  in order (`FlowGraph.FillOk`). The code never demands the template.
- Inputs of a node are in the node's own graph (`FlowGraph.WellFormed`).
- The root's arguments hold no closures (`ClosureSoundness.FreeEnv`).
- For counting activations only: regions satisfy the invariant, the root is not called back (exactly
  then the chains counted are all call-site paths, `Reachable.CountsAllPaths`), and, for executions by
  evaluation, there is no loop and the execution is not stuck (`Executions.Proceeds`): a JOIN that
  runs selects an arm, a call that runs has a closure.

## The other algorithms

- `RunPath`, `ElfFile`, `ElfRead`, `ElfStrip`: dropping build paths from the RUNPATH strings of an ELF file, in
  place (`scripts/strip_build_rpath.py`; string tables and dynamic entries as in "Dynamic Section",
  chapter 5 of the System V gABI).
- `GenModules`: the generator of many-module programs and what they print
  (`benchmarks/compile/gen_modules.py`).
- `OnnxToRelax`: replaying an ONNX graph into let-bindings (`benchmarks/e12tvm/onnx2relax.py`).
- `Phases`: walks over the nested phase report (`benchmarks/compile/bench.py`).
- `Stats`: medians, percentiles and bootstrap intervals (`benchmarks/common/stats.py`), over the
  reals, with the random draws as arbitrary sequences.

## Properties that do not hold as one might expect

- The description of `reachable` promises no count for what runs in a branch arm. The code tests only
  whether the call's value feeds a JOIN directly. So a call in an arm whose value reaches the JOIN
  through another node is counted as if it always ran (`NestedArm.NestedArmIsCounted`), and a call in
  a loop's body as if there were one round (`NestedArm.LoopBodyIsCounted`); a call before the branch
  is counted rightly (`NestedArm.CallBeforeIsRight`). A count is right, whatever is decided at run
  time, exactly when every call site on a chain into the graph is certain
  (`Activations.ActivationsExact`), and the count listed for an operator exactly when the operator is
  certain too (`Activations.OperatorExact`): operators inside an arm or a loop are not tested at all.
- A row of an unoptimised configuration can pass without executing exactly the reference's operators
  if a count is not positive, which the difference of two runs allows: `Verdict.UnoptimisedPass` says
  what a pass means whatever the counts, `Verdict.UnpositiveGoesUnnoticed` gives the row that slips
  through for every such reference, `Verdict.UnoptimisedIsExact` shows that positive reference counts
  are exactly the condition, and `PerStepRecovered` that counts of regular runs meet it.
- The bootstrap interval has its ends in order for all samples exactly when the confidence is not
  negative (`Stats.OrderedExactly`); a negative one is accepted.
- The translated function takes as many parameters as arguments are passed exactly when no input
  name is repeated (`OnnxToRelax.ParametersFitArguments`); listing an input once more shows the
  failing side for every graph that has one (`OnnxToRelax.RepeatedInputMisfits`).
- Consumers and sources list the same edges exactly when no input is filled from two sources
  (`GraphText.EdgesMirror`); otherwise the last edge wins on one side only.
- `reachable` counts chains that do not re-enter the root, although its description speaks of
  executions in general (`Reachable.CountsAllPaths`, `Reachable.RootCalledBack`).

## Model

| member | source | states |
|---|---|---|
| `DemandSoundness.UnusedIsRemovable` | benchmarks/reconcile_train.py:411-478 | For every graph, every closed demand, all inputs and any run length: two operator tables that agree on the demanded nodes give the root the same result, and one finishes exactly when the other does |
| `DemandRules.DemandExact` | benchmarks/reconcile_train.py:411-478 | A node, a slot of it, or all of it is demanded exactly when finitely many uses of the propagation rules lead there from the root's result |
| `DemandSoundness.EvalSame` | benchmarks/reconcile_train.py:424-465 | In related activations, the two values of every node agree as far as the node is demanded, slot by slot and through closures' captures |
| `DemandSoundness.TurnSame` | benchmarks/reconcile_train.py:463-465 | A demanded loop does the same rounds with the same bindings and ends with the same result |
| `Demand.SlotDemandExact` | benchmarks/reconcile_train.py:437-441 | A tuple or struct demands the input of a slot exactly when it is read whole or through a key that means that slot |
| `Demand.UnusedIsUnique` | benchmarks/reconcile_train.py:467-478 | Which nodes are unused, and which slots are demanded, does not depend on how the least assignment is computed |
| `Demand.AmountMonotone` | benchmarks/reconcile_train.py:424-465 | A larger demand pushes larger amounts, for every node kind |
| `DemandFixpoint.Analyser.constructor` | benchmarks/reconcile_train.py:318-319 | The demand found is the least one closed under all rules |
| `DemandFixpoint.Analyser.Add` | benchmarks/reconcile_train.py:411-418 | Adds exactly the wants not yet covered, a whole-value demand covering all; the change flag is raised exactly on change |
| `DemandFixpoint.Analyser.Push` | benchmarks/reconcile_train.py:424-465 | Stays under every closed assignment, only grows, and no change means the node's rule holds |
| `DemandFixpoint.Analyser.PushExit` | benchmarks/reconcile_train.py:472-476 | The same for a graph's result and its call sites, the root's result being demanded whole |
| `DemandFixpoint.Analyser.Pass` | benchmarks/reconcile_train.py:471-478 | A pass without change means all rules hold, whatever order nodes are visited in |
| `DemandFixpoint.Analyser.Fixpoint` | benchmarks/reconcile_train.py:467-478 | Terminates in the least closed assignment |
| `ClosureSoundness.CallsAreListed` | benchmarks/reconcile_train.py:323-402 | Without overflow, along every run from closure-free arguments and in every round of every loop, a CALL enters only graphs listed for it |
| `ClosureSoundness.EvalSound` | benchmarks/reconcile_train.py:330-382 | The closures inside the value of a node, at every access path the table has, are among the table's graphs |
| `ClosureRules.TableExact` | benchmarks/reconcile_train.py:330-398 | An entry of the computed table lists a graph exactly when a closure of it flows there by finitely many uses of the rules for node kinds |
| `ClosureRules.KeysExact` | benchmarks/reconcile_train.py:323-388 | The table has exactly the entries that the CALLs' callees ask for, directly or through what those look at |
| `ClosureRules.SlotEntry` | benchmarks/reconcile_train.py:339-343 | A record read at a slot holds what the input of that slot holds, and nothing at a slot it does not have |
| `ClosureRules.PassedEntry` | benchmarks/reconcile_train.py:347-354 | An access holds what its operand holds at the longer path, a direct call what the result of the graph called holds |
| `ClosureRules.GatheredEntry` | benchmarks/reconcile_train.py:355-381 | A JOIN holds what its arms hold, a CALL what the results of the graphs it may enter hold |
| `ClosureRules.CalleesExact` | benchmarks/reconcile_train.py:400-402 | A CALL lists exactly the graphs whose closures flow to its callee |
| `ClosureSpec.LeastSolutionUnique` | benchmarks/reconcile_train.py:384-398 | The least table is unique, so the order of visits cannot matter |
| `ClosureSpec.StepMonotone` | benchmarks/reconcile_train.py:330-382 | Knowing more never removes a source or a fact |
| `ClosureFixpoint.Resolver.constructor` | benchmarks/reconcile_train.py:305-308 | The table is the least solution, every entry equals its own evaluation, and overflow is reported exactly when a path was cut |
| `ClosureFixpoint.Resolver.Get` | benchmarks/reconcile_train.py:323-328 | Reads an entry, opening it if missing and marking the table dirty exactly then |
| `ClosureFixpoint.Resolver.Evaluate` | benchmarks/reconcile_train.py:330-382 | Computes the right-hand side of the entry's equation and opens exactly the entries it reads |
| `ClosureFixpoint.Resolver.Pass` | benchmarks/reconcile_train.py:391-398 | Keeps the table below its image and below every solution; a change or a new key enlarges facts or keys; a quiet pass means every entry is settled |
| `ClosureFixpoint.Resolver.Fixpoint` | benchmarks/reconcile_train.py:384-398 | Terminates in the least solution although entries are created while it runs |
| `ClosureFixpoint.ReadsInUniverse` | benchmarks/reconcile_train.py:289-335 | The path bound keeps the entries that can ever be asked for in a finite set |
| `Reachable.Explore` | benchmarks/reconcile_train.py:486-496 | The graphs seen are the least set containing the root and closed under calls; each call site of each is listed once |
| `Reachable.Counter.Count` | benchmarks/reconcile_train.py:499-513 | The answer depends on the graph alone, never on stack or memo table: the number of chains from the root, or none exactly when a chain meets a call that feeds a JOIN directly, a multi-target site or a cycle |
| `Reachable.Multiplicities` | benchmarks/reconcile_train.py:482-515 | This answer for every graph the step can enter, and for no other |
| `Reachable.TaintStep` | benchmarks/reconcile_train.py:506-511 | A count is withheld exactly when some caller is conditional or its own count is withheld |
| `CallRules.CountMeans` | benchmarks/reconcile_train.py:499-515 | A count is none exactly when a chain of calls into the graph comes from a site that feeds a JOIN, from one with other than one target, or from a recursion; otherwise it is the number of chains from the root |
| `CallRules.CallerInArm` | benchmarks/reconcile_train.py:508-511 | One caller whose value is an arm or the selector of a JOIN is enough for no count |
| `CallRules.SeenExact` | benchmarks/reconcile_train.py:486-496 | The graphs counted are exactly those entered by finitely many calls from the root |
| `Reachable.CountsAllPaths` | benchmarks/reconcile_train.py:486-501 | The chains counted are all call-site paths exactly when nothing calls the root |
| `Reachable.RootCalledBack` | benchmarks/reconcile_train.py:486-501 | If something calls the root, every graph found has arbitrarily long call-site paths into it |
| `Running.LiveExact` | src/execute/graph_runtime_support.cpp:157-511 | A node is in the execution order exactly when steps to inputs, to members of regions and to the ends of regions and branches lead to it from the result |
| `Running.LiveOn` | src/execute/graph_runtime_support.cpp:157-232 | The layout is closed under inputs, members of regions and the ends of branches and loops |
| `Running.CertainRuns` | src/execute/graph_runtime_support.cpp:388-447 | A laid-out node in no loop and in no arm with a choice runs exactly once in every activation, whatever is decided |
| `Trails.RunExact` | src/execute/graph_runtime_support.cpp:388-511 | Given sequences of nodes run one inside the other exactly once each, whatever arms are taken and however many rounds are done, if and only if all their nodes are certain |
| `Activations.ActivationsExact` | benchmarks/reconcile_train.py:482-515 | A count of k is the number of activations per step whatever is decided at run time, exactly when every call site on a chain into the graph is certain |
| `Activations.OperatorExact` | benchmarks/reconcile_train.py:613-618 | The count listed for an operator is the number of its executions whatever is decided, exactly when it and every call site on the way are certain |
| `Executions.ActivationsCounted` | benchmarks/reconcile_train.py:482-515 | Under that condition, an execution by evaluation of a graph without loops that is not stuck activates the graph exactly k times |
| `Executions.ReachesIs` | benchmarks/reconcile_train.py:482-484 | What an execution by evaluation activates is what happens under the decisions it makes |
| `Executions.InputRuns` | src/runtime/branch_arms.cpp:8-16 | A node reads only nodes that run whenever it runs; a JOIN, the result of the arm it takes |
| `Executions.UnexecutedIsIrrelevant` | src/execute/graph_runtime_support.cpp:388-447 | The root returns the same value when the operators that did not run are replaced by anything |
| `Executions.RunUnique` | benchmarks/reconcile_train.py:482-484 | An executed call chain is one activation |
| `Executions.RunsStayReachable` | benchmarks/reconcile_train.py:486-496 | No run enters a graph outside the ones counted |
| `NestedArm.NestedArmIsCounted` | benchmarks/reconcile_train.py:508-511 | `if c then f() + 1 else 0`: `f` is counted once per step, yet no execution that takes the other arm activates it, although nothing is stuck |
| `NestedArm.CallBeforeIsRight` | benchmarks/reconcile_train.py:508-511 | `let x = f(); if c then x + 1 else 0`: `f` is counted once and activated once whatever is decided |
| `NestedArm.LoopBodyIsCounted` | benchmarks/reconcile_train.py:508-511 | `f` called in a loop is counted once and activated as often as the loop does rounds, for every number of rounds |
| `NestedArm.DirectArmIsWithheld` | benchmarks/reconcile_train.py:508-511 | `if c then f() else 0`: `f` gets no count |
| `NestedArm.CallIsCertainOnlyBefore` | benchmarks/reconcile_train.py:508-511 | The condition on counts admits the call before the branch and rules out the call in the arm and in the loop |
| `Verdict.PerStepOps` | benchmarks/reconcile_train.py:120-135 | For any number of steps, fails exactly on an empty table or a difference that is no multiple of the steps; otherwise holds the non-zero differences per step, set-up operators left out |
| `Verdict.PerStepRecovered` | benchmarks/reconcile_train.py:120-135 | From two runs of fixed overhead plus steps times per-step count, recovers exactly the positive per-step counts and does not fail |
| `Verdict.DifferenceCounts` | benchmarks/reconcile_train.py:146-148 | Multiset difference, and when it is empty |
| `Verdict.MultisetOf` | benchmarks/reconcile_train.py:628-635 | Gives a multiset exactly when all counts are fixed, with each operator's total |
| `Verdict.Exempt` | benchmarks/reconcile_train.py:697-712 | Exempts what the unused operators execute, exactly when counts are fixed, match the reference and no path was cut; never more than the reference |
| `Verdict.RequiredPlusExempt` | benchmarks/reconcile_train.py:803-805 | What is required and what is exempt add up to the reference, with nothing truncated |
| `Verdict.PassMeans` | benchmarks/reconcile_train.py:804-821 | A row passes exactly when required is within measured and measured within the reference |
| `Verdict.EliminatedWithinExempt` | benchmarks/reconcile_train.py:804-821 | What a passing row left out was exempt |
| `Verdict.UnoptimisedPass` | benchmarks/reconcile_train.py:804-821 | What a pass means without optimisation, whatever the counts |
| `Verdict.UnoptimisedIsExact` | benchmarks/reconcile_train.py:804-821 | Passing means equality for all positive measured counts exactly when the reference counts are positive |
| `Verdict.UnpositiveGoesUnnoticed` | benchmarks/reconcile_train.py:805-821 | Every reference with a count that is not positive passes a row that executes only its positive counts |
| `Verdict.UnpositiveMeasured` | benchmarks/reconcile_train.py:810-821 | A measured count that is not positive is not noticed where the reference has none |
| `Reconcile.AnalyseStepGraph` | benchmarks/reconcile_train.py:603-619 | Least closure table, least demand, exact counts; every operator with "grad" in its label in a graph the step enters listed once, with its name, its graph's count, and unused exactly when nothing is demanded of it |
| `Reconcile.UnusedMeans` | benchmarks/reconcile_train.py:611-618 | An operator is listed as unused exactly when no chain of reads leads to it from the root's result |
| `Reconcile.UnusedNodesRemovable` | benchmarks/reconcile_train.py:603-619 | Without overflow, all operators listed as unused can be replaced together by anything |
| `Reconcile.UnusedGradientOperators` | benchmarks/reconcile_train.py:679-712 | A granted exemption counts exactly the unused nodes, whose removal no run can notice, and is within the reference |
| `Limits.ClosureThroughOperatorIsMissed` | benchmarks/reconcile_train.py:379-382 | Without the assumption on operators the claim fails: on one program, with the least table and every least demand, an operator is called unused and two tables that differ there alone give different results |
| `Limits.CaptureIsUnused` | benchmarks/reconcile_train.py:433-436 | The least demand leaves out what only a closure the call cannot reach captures |
| `Copies.TablesAgree` | benchmarks/reconcile_train.py:379-398 | If resolving closures through copies finds none in a copy, it agrees with the analysis on every entry the analysis has |
| `Copies.UnusedIsRemovableWithCopies` | benchmarks/reconcile_train.py:411-478 | Under that check, unused means removable although copies hand values on |
| `Copies.CallsAreListedWithCopies` | benchmarks/reconcile_train.py:323-402 | Under that check, every CALL enters a graph the analysis lists for it |
| `GraphText.StackIsNest` | benchmarks/reconcile_train.py:185-202 | For every text, the stack holds exactly the clusters open by bracket counting, outermost first |
| `GraphText.StepGraph.constructor` | benchmarks/reconcile_train.py:185-227 | The dictionaries say what the text says: parents, children and members in order, first label, one graph per node, inputs by slot, uses in order, ports and results |
| `GraphText.StepGraph.Inputs` | benchmarks/reconcile_train.py:235-237 | The sources of all slots of one kind, in slot order |
| `GraphText.EdgesMirror` | benchmarks/reconcile_train.py:214-217 | Consumers and sources list the same edges exactly when no input is filled from two sources |
| `GraphText.IsForest` | benchmarks/reconcile_train.py:189-196 | Parents and children agree, each node is in one graph, no graph is inside itself |
| `GraphText.StepGraph.Resolve` | benchmarks/reconcile_train.py:239-250 | Terminates; in the nearest scope that knows the name, the first graph of that name written directly in it wins, and the scope itself only if there is none; else the only graph of that name in the text, else none |
| `RunPath.CleanedFits` | scripts/strip_build_rpath.py:159-170 | The new string never needs more room than the old one |
| `RunPath.CleanedParts` | scripts/strip_build_rpath.py:156-170 | The relative entries stay in order, `$ORIGIN` stands in only where none was left and it fits, nothing absolute is left |
| `RunPath.SplitJoin` | scripts/strip_build_rpath.py:159-167 | Joining entries and splitting again gives the entries back |
| `RunPath.PiecesAre` | scripts/strip_build_rpath.py:159-159 | The pieces of a text are the stretches between colons |
| `RunPath.WantedIs` | scripts/strip_build_rpath.py:130-131 | An entry is kept exactly when it starts with one of the five prefixes |
| `RunPath.CleanedPieces` | scripts/strip_build_rpath.py:159-167 | If something is dropped and something kept, the new text splits into exactly what is kept |
| `ElfRead.FieldIs` | scripts/strip_build_rpath.py:65-67 | A field is the sum of its bytes times the powers of 256, in either byte order |
| `ElfRead.HeaderIs` | scripts/strip_build_rpath.py:51-63 | Which bytes make an ELF file, its class, byte order and program header table |
| `ElfRead.EntriesExact` | scripts/strip_build_rpath.py:69-117 | The entries read are exactly the DT_RPATH and DT_RUNPATH slots before the end mark of the last dynamic segment, at their offset into the strings the last DT_STRTAB names, as the first segment that loads that address places them |
| `ElfRead.NothingToDrop` | scripts/strip_build_rpath.py:156-164 | Nothing is dropped exactly when every piece of every search path of the file is empty or starts with one of the prefixes |
| `ElfFile.File.Dynamics` | scripts/strip_build_rpath.py:95-106 | The scan finds the last string table and all path entries before the terminator, or fails past the end |
| `ElfFile.File.RpathEntries` | scripts/strip_build_rpath.py:84-117 | All path entries of the file, with place and text |
| `ElfFile.File.Rewrite` | scripts/strip_build_rpath.py:119-123 | Refuses a longer string; otherwise changes only the old string's bytes and pads with zeros |
| `ElfFile.File.Strip` | scripts/strip_build_rpath.py:156-174 | Rewrites every entry with an absolute path, counts the paths dropped, changes nothing when checking |
| `ElfStrip.StrippedReadsBack` | scripts/strip_build_rpath.py:84-123 | Stripping keeps length, header and every byte outside the strings; reading again finds the same entries at the same places with cleaned texts |
| `ElfStrip.SecondPassFindsNothing` | scripts/strip_build_rpath.py:156-171 | After stripping, no entry has an absolute path and the relative ones are the old ones in order |
| `ElfStrip.Process` | scripts/strip_build_rpath.py:144-174 | What happens to one file: skipped, failed, or stripped with the number of paths dropped |
| `ElfStrip.StripThenCheck` | scripts/strip_build_rpath.py:144-181 | A check after stripping finds nothing to drop |
| `GenModules.EntryValues` | benchmarks/compile/gen_modules.py:65-75 | The loop computes the recursive prediction of every entry |
| `GenModules.EntryValue` | benchmarks/compile/gen_modules.py:65-75 | An entry's value is within 96 of its local value at any depth |
| `GenModules.FunctionsAsDescribed` | benchmarks/compile/gen_modules.py:59-89 | The generated `f_k` computes what the description of `local_value` says, for every argument |
| `GenModules.LocalRuns` | benchmarks/compile/gen_modules.py:59-93 | Interpreting `local_NNNN(1)` of the generated module gives the predicted sum in funcs + 1 calls |
| `GenModules.EntryRuns` | benchmarks/compile/gen_modules.py:65-102 | Interpreting `entry_NNNN(1)` gives the prediction, for every shape, with the stated number of calls |
| `GenModules.ModuleHolds` | benchmarks/compile/gen_modules.py:78-102 | A module imports the entry (chain) or the local sum of each dependency and holds its functions, its local sum and its entry |
| `GenModules.Generate` | benchmarks/compile/gen_modules.py:121-132 | All modules and a main that adds up every entry; interpreting it prints the returned total, for all parameters |
| `GenModules.ImportsOf` | benchmarks/compile/gen_modules.py:43-49 | No imports, the module before, or exactly the last `fan` modules before it (all, if fewer), in order |
| `GenModules.FanCost` | benchmarks/compile/gen_modules.py:52-56 | In the fan shape one entry call makes at most 1 + (fan + 1)(funcs + 1) calls at any depth |
| `GenModules.ChainCost` | benchmarks/compile/gen_modules.py:52-56 | In the chain shape the calls are linear in the depth |
| `OnnxToRelax.Translate` | benchmarks/e12tvm/onnx2relax.py:37-65 | The loops compute the translation, or fail where it does not exist |
| `OnnxToRelax.TranslatesExactly` | benchmarks/e12tvm/onnx2relax.py:45-63 | Exactly the graphs of mapped operators in which every value is defined before use translate |
| `OnnxToRelax.MappedOperators` | benchmarks/e12tvm/onnx2relax.py:29-61 | A node translates exactly when it is a MatMul or Add of two, or a Relu or Identity of one, defined values |
| `OnnxToRelax.TranslationMeans` | benchmarks/e12tvm/onnx2relax.py:37-78 | The bindings, called with the feeds in input order, compute the graph's first output |
| `OnnxToRelax.ParametersFitArguments` | benchmarks/e12tvm/onnx2relax.py:44-78 | Parameters match arguments exactly when input names are distinct; initializers never become parameters |
| `OnnxToRelax.RepeatedInputMisfits` | benchmarks/e12tvm/onnx2relax.py:44-78 | A graph that translates still does with an input listed twice, and then takes fewer parameters than arguments are passed |
| `OnnxToRelax.IdentityAddsNoBinding` | benchmarks/e12tvm/onnx2relax.py:57-62 | One binding per node other than Identity |
| `Phases.StackIsChain` | benchmarks/compile/bench.py:269-275 | The stack is exactly the chain of enclosing phases, one per depth |
| `Phases.ParentIsInnermost` | benchmarks/compile/bench.py:270-274 | The phase a cost is charged to is the innermost one that encloses it |
| `Phases.KindsTell` | benchmarks/compile/bench.py:276-277 | Phases are told apart by name, and passes by their detail; only a phase whose own name spells a pass is taken for that pass |
| `Phases.InnerCosts` | benchmarks/compile/bench.py:267-275 | Each phase gets exactly the costs of the phases directly inside it |
| `Phases.SelfCosts` | benchmarks/compile/bench.py:263-282 | One row per kind with the self costs and number of its phases |
| `Phases.SelfCostsConserved` | benchmarks/compile/bench.py:263-282 | For every report, the rows add up to the cost of the phases with nothing around them, and to the number of phases |
| `Phases.InsideMeans` | benchmarks/compile/bench.py:320-332 | For every report, a phase is inside a marked one exactly when something on the stack names a library a pass loaded |
| `Phases.MarkedMeans` | benchmarks/compile/bench.py:320-332 | In a well-nested report, a phase is marked exactly when it or an enclosing phase is the library or compile phase of a module that has a library phase |
| `Phases.PassLoadedModules` | benchmarks/compile/bench.py:303-335 | For every report, exactly the marked modules, once each, in order of first appearance |
| `Stats.MiddlePercentile` | benchmarks/common/stats.py:65-85 | The 50th percentile is the median |
| `Stats.PercentileMonotone` | benchmarks/common/stats.py:75-85 | Percentiles are monotone in q |
| `Stats.PercentilePermutation` | benchmarks/common/stats.py:65-85 | Percentile and median do not depend on the order of values |
| `Stats.PercentileBetween` | benchmarks/common/stats.py:81-85 | Between neighbouring order statistics the percentile runs along the straight line |
| `Stats.BootstrapInRange` | benchmarks/common/stats.py:88-113 | For every seed and every statistic that stays within its sample, the interval is ordered and within the observed range |
| `Stats.BootstrapComputes` | benchmarks/common/stats.py:88-113 | The interval is the two percentiles, by the confidence, of the statistic of each drawn sample |
| `Stats.MedianIsCentral` | benchmarks/common/stats.py:65-72 | The median stays within its sample |
| `Stats.OrderedExactly` | benchmarks/common/stats.py:88-90 | The interval is ordered for all samples exactly when the confidence is not negative |
| `Stats.MedianScales` | benchmarks/common/stats.py:65-72 | The median commutes with positive scaling |
| `Stats.MedianIsHomogeneous` | benchmarks/common/stats.py:65-72 | The median is a statistic the paired result applies to |
| `Stats.RatioCi` | benchmarks/common/stats.py:116-151 | For every statistic, the sampling loop computes the interval, or fails where a denominator is zero or values are missing |
| `Stats.RoundComputes` | benchmarks/common/stats.py:141-149 | A round divides the statistic of the numerators drawn by that of the denominators drawn, by the same positions when paired and by their own otherwise |
| `Stats.PairedRatioExact` | benchmarks/common/stats.py:116-151 | If every numerator is c times its denominator, point and both ends are c, for every seed and every statistic that commutes with positive scaling |

## Left out

- ClosureSoundness.CallsAreListed: needs operators and loops that neither look into closures nor hand them on; copies that do are covered by `Copies` under its check, closures kept in the state of a loop are not covered. No converse is stated: a graph may pass closures through unknown nodes without calling them.
- Executions.ActivationsCounted: graphs without loops only, executions that are not stuck, and a root that is not called back; operators that call closures themselves are not modelled.
- Activations.ActivationsExact: decisions are any arms, any numbers of rounds and any listed targets; that a selector's own computation may rule some of them out is not used.
- SYNC and ORDER edges: their labels name no slot, on which the reader raises, so no program printed with them is analysed.
- ElfStrip.StrippedReadsBack: strings that overlap without being the same string (tail-merged string tables) are excluded, as are strings inside the tables that lead to them.
- Verdict.PerStepOps: carries the call counts only, not the kernel milliseconds.
- Stats.BootstrapInRange: floating-point rounding is not modelled, nor is a statistic that raises on a sample that is not empty.
- GenModules.Generate: the sources are syntax trees; layout, file names and stale-file removal are not modelled.
- Regular expressions of the printed program: `GraphText` starts from classified lines, and `FlowGraph` from dictionaries after name lookup and label parsing.
- The order in which Python visits dictionaries and lists: loops take elements in any order, so results hold for every order. A node without a demand entry and one with an empty entry are the same.
- RUNPATH texts that are not ASCII: texts are bytes, so decoding with replacement characters is not modelled.
- Numeric criteria of the verdict (losses, parameters, tolerances), evidence texts and row formatting.
- `module_phase_costs` and `module_names`: the same stack walk as `Phases.InnerCosts`, with easier claims.
- ONNX shapes and element types beyond "known or not", and everything TVM does with the bindings.
- Running programs, timing, files and environment capture.
