# Function fusion optimizer: model and proofs

OptiFuse reads a call graph of serverless functions and proposes which of them to deploy together.
Fusing two functions removes a platform invocation and a network hop, and runs the smaller one at
the larger one's memory. This project models the optimizer service: the cost and latency model, the
six optimizers that search over partitions, the mixed-integer encoding behind one of them, the
Pareto analysis over their results, the construction of an application from a parsed graph, and the
request that ties them together. It proves what each loop computes and what the results are worth.

Check it with `dafny verify dfyconfig.toml`.

## How it is laid out

| files | what they model |
|---|---|
| `Sums`, `Families` | finite sums over sets and sequences; concatenations of disjoint groups |
| `Domain`, `Evaluation`, `CostModel`, `WorkedBill` | the application, partitions and their metrics; the loops that compute them; what they come to in the nodes' own fields, and on one graph in dollars |
| `Billing`, `Coarsening`, `TradeoffReport` | what the bill means per function; how it moves when groups join; the printed explanation |
| `RepeatedCalls` | what changes when a caller lists a callee twice |
| `Merging`, `GreedyPass`, `MergeGate`, `MinWCut` | the in-place greedy merge loop and the optimizer that is nothing else |
| `Combinations`, `Bfs`, `GreedyTP`, `GreedyTPResult`, `GreedyTPCost`, `GreedyTPRuns` | cut search, multi-source search from barriers, ejection, merging; what it costs; whether runs agree |
| `Csp`, `CspSearch`, `CostlessCsp`, `CspMeaning`, `CspOptimal`, `CspGate` | labels and dominance, the queue loop, selection, what the answer means, when it is the cheapest, and what is fused |
| `LinearExpr`, `LpText`, `LpProgram`, `IlpModel`, `IlpBuilder`, `IlpCharges`, `IlpExact`, `IlpOptimal`, `IlpAttained`, `MtxIlp` | linear expressions, their text, the program, its exactness and its optimum, the solver's answer |
| `Trivial`, `Frontier`, `Results`, `Service` | the baselines, Pareto marks and extremes, one whole request |
| `GraphToApp` | mutable nodes, wired and priced in place |
| `TightChain`, `Counterexamples`, `TiedBarriers` | inputs on which a promise fails |
| `RelayChain`, `HeavyHead` | inputs whose plan is the same in every run |

An application is `WellFormed` when its functions are distinct, children and parents stay inside it,
children are distinct and are exactly the keys of the outgoing byte map, a parent lists the child,
and rates, prices and the hop are not negative. `GraphToApp.WellFormedExactly` says which parsed
graphs give such an application. The methods of `Evaluation` need none of this, and what MinWCut and CSP
promise against NoFusion holds for repeated calls too (`RepeatedCalls`).

Money and gigabytes are `real`; memory and runtime are `nat`; latency and the caps are `int`. A
pointer to a function node is its id and a `Store` is the heap those pointers look into; in
`GraphToApp`, where the nodes are built and mutated, they are objects.

Choices the program leaves to its libraries stay open here, and every theorem holds for each of
them: the order of map iteration, how MinWCut's sort and the heap break ties, and which optimal point the
solver returns.

## What came out false

* GreedyTP can cost more than NoFusion, although `algo_test.go:264-285` and `algo_test.go:371-395` ask for the
  opposite on two examples: growing groups from barriers is not gated by profit. When the cap leaves no room for a
  hop, it is no dearer exactly when Singleton is (`GreedyTPCost.NoRoomMeansSingleton`); where calls join functions of one size it is
  globally optimal (`GreedyTPCost.GloballyOptimalAmongEquals`); where the unfused path fits and calls off it
  join equals it cannot lose (`GreedyTPCost.NoLossWhenUnfusedFits`). `TightChain.HeuristicsFall` is an input on which it does.
* CSP is not complete, although `csp.go:24` says it guarantees optimality on the critical path: a merge is tried
  only when it pays. When the cap leaves no room for a hop it answers exactly when every prefix of the path pays
  (`CspMeaning.AnswersExactlyWhenPrefixesPay`); see also `CspMeaning.ExactWhenPrefixesPay` and
  `CspMeaning.AnswersOnlyUnfused`. `TightChain.HeuristicsFall` is a feasible input without an answer.
* Nor is its answer always the cheapest: a label's cost is the transfer on its cut pairs alone, so the fused label
  dominates splits whose bill is lower. `Counterexamples.AnswerIsUndercut` is an input. `CspOptimal` says exactly
  when the answer is the cheapest segmentation within the cap: for any answer (`AnswerCheapestExactly`), where every
  prefix pays (`MergedAnswerCheapestExactly`, `OneHopAnswerCheapestExactly`) and where no neighbours pay
  (`UnfusedAnswerCheapestExactly`); `OptimalAmongEquals` is the regime in which the promise holds.
* CSP's answer can exceed the latency cap when the critical path names a function twice: the position map keeps the
  last occurrence. `CspMeaning.LabelLatencyExactly` and `CspMeaning.MeetsEveryCapExactly` say exactly when;
  `Counterexamples.AnswerOverrunsItsCap` is an input.
* GreedyTP is not always reproducible, although `greedytp.go:234` says so: a function equally near two barriers goes
  to whichever the map yields first. `GreedyTPRuns.GrownAgreeExactly`, `GreedyTPRuns.RunsAgree`;
  `TiedBarriers.RunsDiffer` is an input.
* GreedyTP leaves out functions its barriers do not reach, and can look cheapest because of it:
  `GreedyTPResult.CoversExactlyWhenRootReaches`, `Service.CoversExactlyWhenReachable`,
  `Service.DroppedFunctionLooksCheap`. It can then be the only one with an answer: `Service.RecommendsExactlyWhenReachableFit`.
* The solver can answer when no partition is feasible: the program has no latency row when the hop is 0 or no path
  pair is a call, and no memory row at all. `IlpOptimal.SolvableExactly` and `Coarsening.SomeFeasibleExactly` give
  both sides; `Counterexamples.OversizedIsSolvable` and `Counterexamples.RowlessIsSolvable` are inputs.
* Nor need its answer be feasible when something is: a path pair that is not a call is charged no hop.
  `IlpOptimal.SeesEveryCutExactly`; `Counterexamples.LeastPointIsInfeasible` is an input.
* `HopsRemoved` does not explain the latency when the critical path repeats a function immediately:
  `TradeoffReport.HopsExplainLatency`, with the input of `Counterexamples.HopsRemovedFromNothing`.
* `Unambiguous` can stay down although one option is best on both axes: `Frontier.UnambiguousExactly`,
  `Frontier.TieHidesBest`.
* A critical path that names a function twice makes the converted application list it twice:
  `GraphToApp.WellFormedExactly`, with the input of `Counterexamples.ReturningGraphIsBuilt`.
* The comment heading `services/optimizer/internal/algo/optimizer.go:10-39` and the one at
  `types.go:587-594` describe an older cost model; the code is followed. The remark at `solver.go:223`
  that an empty objective cannot happen is not relied on.

## Model

| member | source | states |
|---|---|---|
| `Evaluation.GroupMemoryMB` | services/optimizer/internal/domain/types.go:536-544 | The loop returns the largest member memory, 0 for an empty group (`Domain.GroupMemory` states both bounds). |
| `Evaluation.RuntimeMs` | services/optimizer/internal/domain/types.go:196-202 | The loop returns the sum of the members' runtimes. |
| `Evaluation.GroupExecutionCost` | services/optimizer/internal/domain/types.go:548-550 | A group is priced at its largest memory held for its summed runtime. |
| `Evaluation.InvocationRate` | services/optimizer/internal/domain/types.go:241-254 | The two loops charge exactly the members whose caller is absent or in another group. |
| `Evaluation.RequestCost` | services/optimizer/internal/domain/types.go:257-259 | The request charge of a group is the request price times its invocation rate. |
| `Evaluation.TransferSaved` | services/optimizer/internal/domain/types.go:574-582 | The nested loops add the bytes of every pair in both directions. |
| `Evaluation.MergeProfit` | services/optimizer/internal/domain/types.go:562-585 | The function as coded equals transfer plus requests saved minus execution added, on any two groups. |
| `Evaluation.MergeIsProfitable` | services/optimizer/internal/domain/types.go:595-597 | True exactly when the profit is strictly positive. |
| `Evaluation.FuncToGroupIndex` | services/optimizer/internal/domain/types.go:517-525 | The map holds exactly the placed functions and sends each to its group, the last writer winning where groups overlap. |
| `Evaluation.CriticalPathFunctions` | services/optimizer/internal/domain/types.go:397-406 | The known critical-path ids in their order, unknown ids skipped. |
| `Evaluation.FindRoot` | services/optimizer/internal/domain/types.go:386-393 | The first function nothing calls, or nothing when every function has a caller. |
| `Evaluation.CutCost` | services/optimizer/internal/domain/types.go:461-470 | The nested loops charge exactly the edges whose two ends sit in groups with different canonical names. |
| `Evaluation.CutsOnPath` | services/optimizer/internal/domain/types.go:479-487 | The loop counts exactly the consecutive path pairs whose ends are cut. |
| `Evaluation.TotalCost` | services/optimizer/internal/domain/types.go:456-470 | The accumulated cost is the sum of the groups' charges and of the cut edges' transfer. |
| `Evaluation.EveryGroupFits` | services/optimizer/internal/domain/types.go:493-499 | The early-exit loop answers whether every group fits the cap. |
| `Evaluation.CalculateMetrics` | services/optimizer/internal/domain/types.go:427-506 | Cost, latency and feasibility of any list of groups, partition or not, empty critical path included. |
| `Billing.CutMeaning` | services/optimizer/internal/domain/types.go:461-470 | Comparing canonical names asks the right question: in a family, an edge is cut exactly when both ends are placed and share no group. |
| `Billing.GroupMemoryIsMaxMemory` | services/optimizer/internal/domain/types.go:536-544 | The running maximum depends on the set of members alone. |
| `Billing.ExecutionCostShared` | services/optimizer/internal/domain/types.go:206-209 | A group's execution charge is shared out as each member's runtime at the group's memory. |
| `Billing.SumOverGroups` | services/optimizer/internal/domain/types.go:456-460 | Summing over the groups of a family is summing over its functions, whatever the order of groups and members. |
| `Billing.BlockChargeMeaning` | services/optimizer/internal/domain/types.go:456-460 | A group's charge depends only on its set of members. |
| `Billing.CutChargesSum` | services/optimizer/internal/domain/types.go:461-470 | The per-edge accumulation is the transfer that leaves each function's block. |
| `Billing.CostIsSumOfBills` | services/optimizer/internal/domain/types.go:427-470 | The whole bill of any disjoint family is a sum of per-block bills and a sum of per-function bills; order of groups, members and functions is irrelevant. |
| `Billing.MergeProfitBySets` | services/optimizer/internal/domain/types.go:562-585 | The pairwise profit depends on the two member sets alone, and is their separate charges less the joint one plus the flow between them. |
| `Billing.MergeProfitIsBillDrop` | services/optimizer/internal/domain/types.go:562-585 | The pairwise profit is the drop of the two block bills when the blocks join, for every surrounding family. |
| `CostModel.BillOnFields` | services/optimizer/internal/domain/types.go:427-470 | The whole bill of any partition read off the node fields, in dollars: per function its own duration at its block's largest memory, its calls from outside the block (rate 0 counting as 1), and the bytes it sends out of the block. |
| `CostModel.InvocationsOnFields` | services/optimizer/internal/domain/types.go:228-254 | Where rates are positive, a partition's invocations are the sum of `invocationRate` over the functions whose caller, if any, is in another block. |
| `CostModel.UnfusedInvocations` | services/optimizer/internal/domain/types.go:228-254 | NoFusion's invocations are that sum over all functions, unless one calls itself. |
| `CostModel.NoRateCountsAsOne` | services/optimizer/internal/domain/types.go:228-233 | A rate of 0 counts as 1. |
| `CostModel.LatencyOnFields` | services/optimizer/internal/domain/types.go:472-488 | A partition's latency is its path's runtimes plus one hop for every step between two blocks. |
| `CostModel.FeasibleOnFields` | services/optimizer/internal/domain/types.go:490-505 | A partition without empty groups is feasible if and only if every function fits and that latency meets the cap, or there is no path. |
| `CostModel.KnownParts` | services/optimizer/internal/domain/types.go:397-406 | The path is read part by part, in order; |
| `CostModel.KnownWhenAllAre` | services/optimizer/internal/domain/types.go:397-406 | ids of functions stay as they are, repetitions included, |
| `CostModel.UnknownAreDropped` | services/optimizer/internal/domain/types.go:397-406 | and other ids are dropped. |
| `CostModel.RootIsFirst` | services/optimizer/internal/domain/types.go:386-393 | The root is the first function without a caller, and there is none exactly when every function has one. |
| `CostModel.OwnerIsLast` | services/optimizer/internal/domain/types.go:517-525 | Where groups overlap the last one owns the function. |
| `WorkedBill.UnfusedBill` | services/optimizer/internal/domain/types.go:427-470 | On a graph whose entry is invoked 100 times and calls a function invoked 300 times with a GiB at two cents: NoFusion costs four requests, both executions and two cents, to the dollar. |
| `WorkedBill.FusedBill` | services/optimizer/internal/domain/types.go:562-585 | Fused, one request and the executions are left, and the merge profit is three requests and two cents. |
| `WorkedBill.FanOutLatency` | services/optimizer/internal/domain/types.go:472-488 | 210 ms unfused and 200 ms fused. |
| `WorkedBill.FanOutBuilt` | services/optimizer/cmd/main.go:235-326 | Sizes, calls, bytes, price and the rate of 3 as they arrive from that graph; an edge and a path id on no node are dropped. |
| `Merging.MergedConserves` | services/optimizer/internal/algo/greedytp.go:257-258 | Append plus swap-remove keeps the members, keeps groups disjoint, loses exactly one group, separates nobody and joins the two groups. |
| `Merging.SeqSumRemoved` | services/optimizer/internal/domain/types.go:618-621 | Swap-with-last removal drops exactly the removed element from every sum over the slice. |
| `Merging.MergeProfitIsCostDrop` | services/optimizer/internal/domain/types.go:562-585 | Local form equals global form: `MergeProfitUSD` is exactly the fall of the whole application's cost when two groups of any disjoint family are joined. |
| `Merging.MergeAllConserves` | services/optimizer/internal/algo/minwcut.go:66-96 | For every candidate order the greedy pass keeps the members, only joins groups, loses one group per accepted merge and never raises the cost. |
| `Merging.MergeAllFits` | services/optimizer/internal/algo/minwcut.go:89-95 | The gate on the larger of two memories keeps every group within the cap if it started there. |
| `MergeGate.StepJoinsExactly` | services/optimizer/internal/algo/minwcut.go:66-95 | A candidate joins its two groups if and only if they differ, fit together and gain by it, and joins nothing else: every such merge is made. |
| `MergeGate.PassInOrder` | services/optimizer/internal/algo/minwcut.go:66-96 | The pass takes candidates from first to last, each on what the ones before it left. |
| `GreedyPass.RemoveIndex` | services/optimizer/internal/domain/types.go:618-621 | In place on the array: the live prefix becomes the removal of the element at `idx`, nothing beyond is promised. |
| `GreedyPass.TryMerge` | services/optimizer/internal/algo/minwcut.go:66-95 | One candidate, in place: unplaced ends, a shared group, a failed memory gate or a failed profit gate leave the slice alone; otherwise it is the merge of the two groups. |
| `GreedyPass.GreedyMerge` | services/optimizer/internal/algo/minwcut.go:66-96 | The in-place loop over the slice of groups equals the recursive pass `MergeAll`, index map recomputed at every candidate. |
| `GreedyPass.CollectCandidates` | services/optimizer/internal/algo/minwcut.go:49-57 | The candidates are exactly the edges of the application with their transfer costs. |
| `GreedyPass.SortByCost` | services/optimizer/internal/algo/minwcut.go:61-63 | Some permutation of the candidates with costs descending; MinWCut leaves ties open, GreedyTP breaks them (`GreedyPass.SortByKey`). |
| `GreedyPass.SortByKey` | services/optimizer/internal/algo/greedytp.go:223-243 | Every edge as often as it is listed, the dearer first, of one cost the caller's id in dictionary order, of one caller the callee's. |
| `GreedyPass.KeyIsWeakOrder` | services/optimizer/internal/algo/greedytp.go:235-243 | The three-level comparison is one a sort may rely on. |
| `GreedyPass.OneOrder` | services/optimizer/internal/algo/greedytp.go:232-234 | Two sorted listings of the same edges are the same list: the sort leaves nothing open. |
| `GreedyPass.LexIsDictionaryOrder` | services/optimizer/internal/algo/greedytp.go:239-242 | Ids compare at the first difference, the end of an id coming first. |
| `GreedyPass.OrderedMeans` | services/optimizer/internal/algo/greedytp.go:235-243 | Ordered by the comparison means pairwise: dearer, or as dear with the earlier caller, or of the same caller with the earlier callee. |
| `Coarsening.CoarserIsFaster` | services/optimizer/internal/algo/greedytp.go:213-216 | Joining groups never raises the critical-path latency. |
| `Coarsening.CoarseningMonotone` | services/optimizer/internal/domain/types.go:427-506 | A coarser partition has no more platform invocations, no lower execution charge and no higher latency. |
| `Coarsening.BaselinesBoundTheSpace` | services/optimizer/internal/algo/frontier.go:10-15 | Every partition lies between NoFusion and one group of everything on invocations, execution charge and latency. |
| `Coarsening.MemoryFitsIsPartitionFree` | services/optimizer/internal/domain/types.go:492-499 | A partition fits the memory cap exactly when every function does on its own. |
| `Coarsening.FeasibleWhenAloneIs` | services/optimizer/internal/domain/types.go:490-505 | A partition without empty groups that is no slower than NoFusion is feasible whenever NoFusion is. |
| `RepeatedCalls.CostOnce` | services/optimizer/internal/domain/types.go:461-470 | Where a caller lists a callee more than once the bill is that of listing it once, plus what every further listing is charged while the call is cut. |
| `RepeatedCalls.RepeatsRefine` | services/optimizer/internal/domain/types.go:461-470 | Joining groups never adds to what repetition is charged. |
| `RepeatedCalls.MergeProfitAtMostDrop` | services/optimizer/internal/domain/types.go:562-585 | With repeated calls the fall of the bill is the merge profit plus what repetition no longer costs, so the profit is at most the fall. |
| `RepeatedCalls.NoWorseWithRepeats` | services/optimizer/internal/algo/algo_test.go:371-395 | Never-worse-than-NoFusion carries over from calls listed once to calls listed more often. |
| `TradeoffReport.CalculateTradeoff` | services/optimizer/internal/domain/types.go:288-310 | The loops compute the four figures of the report against the one-function-per-group baseline. |
| `TradeoffReport.CountCuts` | services/optimizer/internal/domain/types.go:315-332 | The cut count of a partition, every pair cut for the baseline, a missing map entry read as index 0. |
| `TradeoffReport.TradeoffPerFunction` | services/optimizer/internal/domain/types.go:288-310 | The deltas function by function: the execution delta prices every member at its block's memory less its own and is never negative; the invocations removed are the rates of functions called from inside their block. |
| `TradeoffReport.TradeoffAccountsForCost` | services/optimizer/internal/domain/types.go:288-310 | The report adds up for every partition: cost less NoFusion cost is request delta plus execution delta minus the internalised transfer. |
| `TradeoffReport.HopsExplainLatency` | services/optimizer/internal/domain/types.go:308-332 | For any application and any groups whose indices and names tell them apart along the path: latency saved equals hop times `HopsRemoved` if and only if the hop is 0 or the critical path has no immediate repetition. |
| `TradeoffReport.HopsExplainLatencyOfPartition` | services/optimizer/internal/domain/types.go:308-332 | The same for every partition, also where the list of functions repeats itself. |
| `TradeoffReport.SplitsAreCuts` | services/optimizer/internal/domain/types.go:324-331 | Comparing indices counts the same cuts as comparing canonical names, wherever the two tell groups apart alike. |
| `TradeoffReport.UnplacedCountsAsFirst` | services/optimizer/internal/domain/types.go:324-331 | A function in no group reads as one of the first group: a step to it is a split exactly from any other group. |
| `TradeoffReport.PartitionTellsApart` | services/optimizer/internal/domain/types.go:161-166 | In a partition, two functions' groups share an index exactly when they share a canonical name. |
| `TradeoffReport.UnfusedCuts` | services/optimizer/internal/domain/types.go:479-487 | With every function alone, all consecutive pairs of a path are cut but the immediate repetitions, whatever the function list. |
| `Trivial.NoFusion` | services/optimizer/internal/algo/trivial.go:21-36 | One group per function, in function order, with the metrics of exactly those groups. |
| `Trivial.Singleton` | services/optimizer/internal/algo/trivial.go:50-112 | One group, a partition of a well-formed application: breadth-first from the root, unreachable functions after; the plain function list when there is no edge or no root. |
| `Trivial.FromRoot` | services/optimizer/internal/algo/trivial.go:74-90 | The queue loop terminates on any graph and yields each reachable function once, root first, in non-decreasing shortest distance. |
| `Trivial.CatchUp` | services/optimizer/internal/algo/trivial.go:92-101 | The reached order is kept as a prefix and exactly the missing functions follow. |
| `MinWCut.Optimize` | services/optimizer/internal/algo/minwcut.go:28-104 | The result is a greedy pass over all edges, dearest first; it is a partition no dearer and no slower than NoFusion, repeated calls included; on a well-formed application it is cheapest of all partitions where costly edges join equal memories. |
| `MinWCut.NeverWorseThanNoFusion` | services/optimizer/internal/algo/algo_test.go:371-395 | For every candidate order: a partition, no dearer, no slower, feasible whenever NoFusion is. |
| `MinWCut.NeverWorseWithRepeats` | services/optimizer/internal/algo/algo_test.go:371-395 | The same where a caller lists a callee more than once. |
| `MinWCut.WhenMergePays` | services/optimizer/internal/domain/types.go:587-597 | A merge pays only if something costly runs between the groups, and always does when the groups are sized alike. |
| `MinWCut.PassAbsorbsCostly` | services/optimizer/internal/algo/minwcut.go:65-96 | From any partition into groups of one size each, where costly edges join equal memories within the cap, the one pass leaves no costly edge cut, whatever the order. |
| `MinWCut.CostLowerBound` | services/optimizer/internal/domain/types.go:427-470 | No partition costs less than every function run alone plus the requests of functions nothing calls. |
| `MinWCut.GloballyOptimal` | services/optimizer/internal/algo/minwcut.go:65-96 | Under the same condition no partition at all costs less than the pass, for every order of ties. |
| `MinWCut.SavingIsEverythingAvoidable` | services/optimizer/internal/algo/algo_test.go:397-420 | And what it saves over NoFusion is exactly the request charges of called functions and the transfer between functions. |
| `LinearExpr.Expr.constructor` | services/optimizer/internal/algo/ilp/solver.go:50-52 | A new expression is empty and worth 0 at every point. |
| `LinearExpr.Expr.Add` | services/optimizer/internal/algo/ilp/solver.go:54-62 | Adding to a seen or unseen column raises the value at every point by exactly the added term; a zero coefficient is ignored. |
| `LinearExpr.Expr.Terms` | services/optimizer/internal/algo/ilp/solver.go:64-72 | The terms have distinct columns and no zero coefficient and evaluate to what was added, at every point. |
| `LinearExpr.Collect` | services/optimizer/internal/algo/ilp/solver.go:54-72 | Any list of additions survives the round through an expression with its value unchanged. |
| `LinearExpr.EmptyIsZero` | services/optimizer/internal/algo/ilp/solver.go:74 | An expression is empty exactly when it is identically zero. |
| `LpText.WriteStatement` | services/optimizer/internal/algo/ilp/solver.go:77-98 | However the statement is wrapped, its words are the label, the terms in order and the suffix; every line is within 200, the last within 200 plus the suffix, when label and chunks leave room for indentation. |
| `LpText.StepKeepsWritten` | services/optimizer/internal/algo/ilp/solver.go:79-96 | One chunk, wrapped or not: the words so far are kept and no line outgrows the limit. |
| `LpText.ReadBack` | services/optimizer/internal/algo/ilp/solver.go:79-90 | Reading the written words back gives the same signs, numerals and names in the same order. |
| `LpText.WrittenMeansValue` | services/optimizer/internal/algo/ilp/solver.go:76-98 | If the numerals and names written for these terms denote their coefficients and columns, what a reader makes of them has the value of the linear form; nothing is asked of numbers that were not written. |
| `LpText.ColumnNamesDistinct` | services/optimizer/internal/algo/ilp/solver.go:133-139 | No two columns share a name, so a solution can be read back by name. |
| `LpText.ReportedNames` | services/optimizer/internal/algo/ilp/solver.go:481-484 | Placement columns are the ones named `x_` and their two indices, cut columns the ones named `c_` and theirs. |
| `LpText.DecimalReadsBack` | services/optimizer/internal/algo/ilp/solver.go:133-139 | Indices are written in decimal: read digit by digit they are the numbers they were. |
| `LpText.LinesWithin200` | services/optimizer/internal/algo/ilp/solver.go:84-97 | No line exceeds 200 characters but for the relation and bound of the last. |
| `LpProgram.RowNamesDistinct` | services/optimizer/internal/algo/ilp/solver.go:230-336 | No two rows share a name. |
| `LpProgram.WriteProgram` | services/optimizer/internal/algo/ilp/solver.go:169-350 | The text of the whole program, heading, objective, rows, binaries and end, has exactly the words of the program in order, however its statements are wrapped. |
| `LpProgram.BuildText` | services/optimizer/internal/algo/ilp/solver.go:114-353 | The generator: text of a program that means what the mathematics says, or none exactly when there is no edge. |
| `LpProgram.ProgramReadsBack` | services/optimizer/internal/algo/ilp/solver.go:169-350 | Reading the words of the text gives back the program: objective, rows with labels, relations and right-hand sides, and binary columns. |
| `LpProgram.TextMeansProgram` | services/optimizer/internal/algo/ilp/solver.go:169-350 | What a reader takes from the text holds and costs at every point exactly what the program says, row by row. |
| `LpProgram.LeastReadIsLeast` | services/optimizer/internal/algo/ilp/solver.go:388-410 | An optimal solution of what the text says, found by someone who sees only the text, is a least-objective point of the program. |
| `LpProgram.ColumnNamesArePlain` | services/optimizer/internal/algo/ilp/solver.go:133-139 | No column name is a keyword of the format. |
| `IlpBuilder.CollectEdges` | services/optimizer/internal/algo/ilp/solver.go:143-156 | The edge list holds every call between two different functions once, self-calls skipped. |
| `IlpBuilder.HeaviestGB` | services/optimizer/internal/algo/ilp/solver.go:200-205 | Big-M is the largest memory of any function. |
| `IlpBuilder.ObjectiveTerms` | services/optimizer/internal/algo/ilp/solver.go:207-228 | The objective row evaluates at every point to the cut charges and billed execution, per million. |
| `IlpBuilder.AssignFamily` | services/optimizer/internal/algo/ilp/solver.go:232-240 | The assignment rows say exactly that each function is in one group. |
| `IlpBuilder.RootFamily` | services/optimizer/internal/algo/ilp/solver.go:242-255 | The root rows say exactly that members follow an existing root, the degenerate row skipped. |
| `IlpBuilder.MemFamily` | services/optimizer/internal/algo/ilp/solver.go:257-267 | The memory rows bound a group's memory below by each member's. |
| `IlpBuilder.TierFamily` | services/optimizer/internal/algo/ilp/solver.go:269-291 | The big-M rows bound each member's billed memory below by its group's. |
| `IlpBuilder.CutFamily` | services/optimizer/internal/algo/ilp/solver.go:293-312 | The two cut rows per root bound the cut column by the absolute difference of the ends. |
| `IlpBuilder.LatencyRowEmitted` | services/optimizer/internal/algo/ilp/solver.go:314-336 | The latency row is emitted exactly when the hop is not 0 and some consecutive path pair is an edge. |
| `IlpBuilder.LatencyRows` | services/optimizer/internal/algo/ilp/solver.go:314-336 | The emitted row (or none) holds at a point exactly when base runtime plus charged hops meets the cap. |
| `IlpBuilder.BinarySection` | services/optimizer/internal/algo/ilp/solver.go:341-349 | Exactly the placement and cut columns are declared binary. |
| `IlpBuilder.BuildLP` | services/optimizer/internal/algo/ilp/solver.go:114-353 | The program as a list of rows is satisfied at exactly the points the mathematics says and has exactly that objective; no program exactly when there is no edge. `LpProgram.BuildText` writes it out. |
| `IlpCharges.CutChargesAreBill` | services/optimizer/internal/algo/ilp/solver.go:158-228 | Summed over the cut edges, the objective's coefficients plus execution plus the requests of functions nothing calls are the partition's whole cost. |
| `IlpExact.OneHot` | services/optimizer/internal/algo/ilp/solver.go:230-240 | Binary values that sum to one single out one root. |
| `IlpExact.DecodeGroups` | services/optimizer/internal/algo/ilp/solver.go:422-439 | The decoding loops over column values compute `Decode`. |
| `IlpExact.RowHolds` | services/optimizer/internal/algo/ilp/solver.go:428-434 | A function is placed in a root's group if and only if its column was reported above one half; an unreported column places nothing. |
| `IlpExact.DecodedHolds` | services/optimizer/internal/algo/ilp/solver.go:422-439 | A group is read if and only if its root column was reported at one half or more and something is placed there. |
| `IlpExact.DecodeIsPartition` | services/optimizer/internal/algo/ilp/solver.go:422-439 | Every point of the program decodes to a partition: one group per root, every function once. |
| `IlpExact.ObjectiveBoundsBill` | services/optimizer/internal/algo/ilp/solver.go:198-312 | Every point costs at least what its decoded partition costs (per million, less the unavoidable requests): the big-M linearisation of the maximum loses nothing. |
| `IlpOptimal.EncodingSatisfiesRows` | services/optimizer/internal/algo/ilp/solver.go:230-312 | Every partition is a point: all assignment, root, memory, tier and cut rows hold at its encoding. |
| `IlpOptimal.EncodingCostsItsBill` | services/optimizer/internal/algo/ilp/solver.go:198-228 | The encoding's objective is exactly 1e6 times (cost less the requests of functions nothing calls). |
| `IlpOptimal.ProgramIsExact` | services/optimizer/internal/algo/ilp/solver.go:114-353 | Both directions together: partitions are points at their own cost, and no point undercuts the partition it decodes to. |
| `IlpOptimal.EncodedHops` | services/optimizer/internal/algo/ilp/solver.go:324-331 | The latency row charges a partition's encoding at most the hops on cut pairs that are calls. |
| `IlpOptimal.DecodedHops` | services/optimizer/internal/algo/ilp/solver.go:324-331 | The row charges a point at least the decoded partition's hops on cut pairs that are calls. |
| `IlpOptimal.CallCapEncodes` | services/optimizer/internal/algo/ilp/solver.go:314-336 | A partition that meets the cap on the calls of the path is a feasible point, latency row included. |
| `IlpOptimal.DecodedMeetsCallCap` | services/optimizer/internal/algo/ilp/solver.go:314-336 | What a feasible point decodes to is a partition that meets the cap on the calls of the path. |
| `IlpOptimal.CallCutsArePathCuts` | services/optimizer/internal/algo/ilp/solver.go:317-323 | The cut pairs that are calls are at most the cut pairs, and all of them when the path consists of calls. |
| `IlpOptimal.SeesEveryCutExactly` | services/optimizer/internal/algo/ilp/solver.go:317-331 | The program counts the hops of every partition right if and only if every pair of the path is a call or one function twice. |
| `IlpOptimal.LeastPointSolvesCallProblem` | services/optimizer/internal/algo/ilp/solver.go:114-353 | For every well-formed application and every path: a least-objective point decodes to the cheapest partition among those that meet the cap on the calls of the path. |
| `IlpOptimal.LeastPointIsNotDearer` | services/optimizer/internal/algo/ilp.go:86-95 | Whatever the path looks like, a least-objective point decodes to a partition no feasible partition undercuts. |
| `IlpOptimal.LeastPointIsCheapest` | services/optimizer/internal/algo/ilp.go:86-95 | When the path consists of calls and some partition is feasible, the decoded partition is feasible too, hence the cheapest feasible one. |
| `IlpOptimal.SolvableExactly` | services/optimizer/internal/algo/ilp/solver.go:279-336 | For every well-formed application the program has a solution if and only if the hop is 0, no path pair is a call, or the bare runtimes of the path meet the cap: nothing limits memory. |
| `IlpAttained.OptimumIsAttained` | services/optimizer/internal/algo/ilp/solver.go:114-353 | A least-objective point exists if and only if a feasible one does, although most columns range over the reals: under the condition of `SolvableExactly` there is something for an exact solver to return. |
| `IlpAttained.CheapestEncodes` | services/optimizer/internal/algo/ilp/solver.go:198-228 | It is the encoding of a cheapest partition among those that meet the cap on the calls of the path. |
| `IlpOptimal.NoRowAlwaysSolvable` | services/optimizer/internal/algo/ilp/solver_test.go:126-134 | Without a latency row every partition, however slow, is a solution. |
| `IlpOptimal.NoEdgesSinglesOptimal` | services/optimizer/internal/algo/ilp/solver.go:369-377 | With no edges, singletons cost no more than any partition; when the path consists of calls they are feasible whenever any partition is. |
| `MtxIlp.Solve` | services/optimizer/internal/algo/ilp/solver.go:359-442 | With no call between two functions every function stays alone and no program is asked. Otherwise the solver is handed the text, there is a result if and only if it answers, and the groups are read off that answer. If it reads the numerals of that program for what they were printed for and reports the placement columns of an optimal solution of what the text says, the result is a partition, no feasible partition is cheaper, and on a path of calls it is feasible whenever anything is. |
| `MtxIlp.AnswerIsLeast` | services/optimizer/internal/algo/ilp/solver.go:388-439 | Such an answer agrees on placement with a least-objective point of the program that was printed. |
| `MtxIlp.SameDecoding` | services/optimizer/internal/algo/ilp/solver.go:422-439 | Decoding looks at the placement columns only, so the other columns need not be reported. |
| `MtxIlp.Optimize` | services/optimizer/internal/algo/ilp.go:54-96 | There is a result if and only if there is a solver and, where some function calls another, it answered; it carries the answer's groups with the cost model's own metrics, and the promise of `Solve`. |
| `Csp.IsDominated` | services/optimizer/internal/algo/csp.go:259-266 | The loop answers whether some kept label is no worse on both axes. |
| `Csp.PruneDominated` | services/optimizer/internal/algo/csp.go:269-277 | The in-place filter through the same backing array keeps exactly the labels the new one does not dominate. |
| `Csp.OfferedMeaning` | services/optimizer/internal/algo/csp.go:178-182 | Offering a label keeps an antichain and keeps everything that was dominated by a kept label dominated. |
| `Csp.StartIsLabel` | services/optimizer/internal/algo/csp.go:114-121 | The seed label satisfies the label invariant. |
| `Csp.MergeKeepsLabel` | services/optimizer/internal/algo/csp.go:163-176 | A gated merge keeps the label invariant: contiguous segments, summed runtime plus hops, transfer on cut pairs, last group's memory. |
| `Csp.CutKeepsLabel` | services/optimizer/internal/algo/csp.go:187-196 | Starting a new group keeps the label invariant. |
| `CspSearch.PopMin` | services/optimizer/internal/algo/csp.go:135-138 | Some item of least cost leaves the queue; ties are left open. |
| `CspSearch.Expand` | services/optimizer/internal/algo/csp.go:140-203 | One iteration keeps the whole-run invariant and strictly lowers the queue's weight (3 to the number of remaining chain steps), since it pushes at most two items one step further. |
| `CspSearch.OfferTracks` | services/optimizer/internal/algo/csp.go:178-201 | Every label ever generated stays dominated by one kept at its node. |
| `CspSearch.Search` | services/optimizer/internal/algo/csp.go:108-203 | The loop terminates with every frontier an antichain of invariant-keeping labels that dominate everything generated, every kept label expanded both ways. |
| `CspGate.ContinuesBothWays` | services/optimizer/internal/algo/csp.go:147-202 | In a finished search, from every kept label some label kept at the next function is as good as cutting there; and whenever the last group, whichever it is, fits and pays with that function, some label kept there is as good as fusing them. |
| `CspGate.FusedOnlyWhatFitsAndPays` | services/optimizer/internal/algo/algo_test.go:325-336 | And nothing else is fused: every group of two or more in an answer fits the memory cap and was joined by profitable single additions. |
| `CostlessCsp.SelectBest` | services/optimizer/internal/algo/csp.go:208-216 | The cheapest kept end label within the latency cap, or none when none meets it. |
| `CostlessCsp.BuildGroups` | services/optimizer/internal/algo/csp.go:229-248 | The label's groups followed by every function off them on its own. |
| `CostlessCsp.Optimize` | services/optimizer/internal/algo/csp.go:95-256 | An answer exactly when the path is not empty and some kept end label meets the cap; the groups are a partition no dearer and no slower than NoFusion, repeated calls included. |
| `CostlessCsp.BestOfAllGenerated` | services/optimizer/internal/algo/csp.go:205-277 | The returned label is the cheapest of all generated end labels within the cap, and an error means none met it. |
| `CostlessCsp.FinalIsPartition` | services/optimizer/internal/algo/csp.go:226-248 | Whatever label is chosen, the groups are a partition whose grown groups each paid their way in. |
| `CostlessCsp.GrownCostsNoMore` | services/optimizer/internal/algo/csp.go:155-183 | A group grown by profitable single additions costs no more than its members alone. |
| `CostlessCsp.NeverWorseThanNoFusion` | services/optimizer/internal/algo/algo_test.go:371-395 | No dearer, no slower, feasible whenever NoFusion is. |
| `CostlessCsp.NeverWorseWithRepeats` | services/optimizer/internal/algo/algo_test.go:371-395 | The same where a caller lists a callee more than once. |
| `CspMeaning.LabelNumbersAreMetrics` | services/optimizer/internal/algo/csp.go:31-46 | On a repetition-free path the label's latency, cost and segment count are the finished partition's own latency, path transfer and cuts; `LabelLatencyExactly` says what happens otherwise. |
| `CspMeaning.AnswerMeetsCap` | services/optimizer/internal/algo/algo_test.go:338-347 | On a repetition-free path the answer's latency as the cost model measures it equals the label's and meets the cap; with repetitions it need not (`Counterexamples.AnswerOverrunsItsCap`). |
| `CspMeaning.LabelLatencyExactly` | services/optimizer/internal/algo/csp.go:127-144 | An end label covers the whole path if and only if the path repeats nothing; its latency never exceeds the partition's; and where functions take time the two agree if and only if the path repeats nothing. |
| `CspMeaning.MeetsEveryCapExactly` | services/optimizer/internal/algo/csp.go:205-224 | Where functions take time, the answer is sure to meet every cap it could be chosen under if and only if the path repeats nothing. |
| `CspMeaning.TrailSkips` | services/optimizer/internal/algo/csp.go:127-144 | The chain a label covers skips what lies between a function's occurrences: never slower than the part of the path it stands for, and as long only if it is that part. |
| `CspMeaning.SucceedsWhenUnfusedFits` | services/optimizer/internal/algo/csp.go:185-224 | The search answers whenever the unfused path meets the cap, also when the path repeats functions. |
| `CspMeaning.ExactWhenPrefixesPay` | services/optimizer/internal/algo/csp.go:22-24 | Where every prefix of the path pays for its next function, the search answers if and only if the bare runtimes meet the cap, with the path in one group: exact on a label's two axes. Whether that is the cheapest segmentation is `CspOptimal.MergedAnswerCheapestExactly`. |
| `CspMeaning.AnswersOnlyUnfused` | services/optimizer/internal/algo/csp.go:22-24 | Where no two neighbours pay, it answers if and only if the unfused path meets the cap, even when a fused one would. |
| `CspMeaning.AnswersExactlyWhenPrefixesPay` | services/optimizer/internal/algo/csp.go:20-24 | For a path of any length that meets the cap bare but not with one hop, the search answers if and only if every prefix of the path pays for its next function, although fusing the path always meets the cap. |
| `CspGate.CutsWhereClosed` | services/optimizer/internal/algo/csp.go:147-202 | Every way of cutting the path into groups that could be fused cuts wherever nothing can be; cutting there alone is the only way to so few groups, and none has less transfer. |
| `CspGate.AnswersAsDecided` | services/optimizer/internal/algo/csp.go:22-24 | On a path where at every function either nothing before it can be fused with it or the stretch since the last cut can: the search answers if and only if that segmentation meets the latency cap, and answers with it, fusing segments after a cut like the first. |
| `HeavyHead.EveryRunFusesTheTail` | services/optimizer/internal/algo/csp.go:147-202 | On a large function before two small ones every run cuts after the first and fuses the rest, within a cap the unfused path misses. |
| `CspOptimal.SegmentsCost` | services/optimizer/internal/domain/types.go:427-470 | Two ways of grouping the same functions, everything else alone, differ on the bill by what joining their groups from left to right saves. |
| `CspOptimal.LeastIsLeast` | services/optimizer/internal/algo/csp.go:22-24 | No way of cutting a path prefix with at most that many cuts is below the recursion over the last cut, |
| `CspOptimal.LeastIsAttained` | services/optimizer/internal/algo/csp.go:22-24 | and one way of cutting it attains it. |
| `CspOptimal.CheapestExactly` | services/optimizer/internal/algo/csp.go:22-24 | For any cap with the bare runtimes within it: a segmentation of the path is the cheapest of those whose latency meets the cap if and only if joining it up saves no more than that recursion finds. |
| `CspOptimal.AnswerCheapestExactly` | services/optimizer/internal/algo/csp.go:22-24 | So the answer of any run is the cheapest segmentation within the cap exactly under that condition. |
| `CspOptimal.MergedAnswerCheapestExactly` | services/optimizer/internal/algo/csp.go:22-24 | Where every prefix pays, for every cap the bare runtimes meet: the answer is the path in one group, and no segmentation within the cap is cheaper if and only if none the cap leaves room for is joined up at a loss. |
| `CspOptimal.OneHopAnswerCheapestExactly` | services/optimizer/internal/algo/csp.go:22-24 | There, with no room for a hop the answer is always the cheapest; with room for exactly one, if and only if joining the two sides of every cut of the path saves something or nothing. |
| `CspOptimal.OneCutUndercutsExactly` | services/optimizer/internal/algo/csp.go:22-24 | At any cap, one cut undercuts the fused path if and only if its two sides are joined at a loss; its latency is the bare runtimes plus one hop. |
| `CspOptimal.UnfusedAnswerCheapestExactly` | services/optimizer/internal/algo/csp.go:22-24 | Where no neighbours pay, an answer is the unfused path, and the cheapest within the cap if and only if joining it up saves no more than joining any other segmentation. |
| `CspOptimal.OptimalAmongEquals` | services/optimizer/internal/algo/csp.go:22-24 | The promise kept: where the path calls functions of one size that fits and cutting any neighbours costs something, the search answers if and only if the bare runtimes meet the cap, and no grouping of the functions on the path costs less, contiguous or not, at any latency. |
| `Combinations.Search.Helper` | services/optimizer/internal/algo/greedytp.go:280-291 | Recursion over slices: siblings share a backing array while it has room and overwrite the slot at their depth, never the prefix below it; copies are appended in order. |
| `Combinations.Append` | services/optimizer/internal/algo/greedytp.go:289 | Appending writes in place while there is room and into a fresh, larger array otherwise. |
| `Combinations.Combinations` | services/optimizer/internal/algo/greedytp.go:272-294 | The result is the take-or-skip enumeration, the one empty choice for k = 0, nothing when k exceeds the length. |
| `Combinations.CombinationsAreExact` | services/optimizer/internal/algo/greedytp.go:270-294 | The results are the items at exactly the strictly increasing k-element index choices, each once, in lexicographic order. |
| `Combinations.FirstIsPrefix` | services/optimizer/internal/algo/greedytp.go:85-95 | The first combination takes the first k items. |
| `GreedyTP.FindCuts` | services/optimizer/internal/algo/greedytp.go:82-117 | Once the bare runtimes fit, step 1 always succeeds, with the least number of merges the cap allows, merging the head of the path: its no-feasible-partitioning error is unreachable. |
| `GreedyTP.AssignToBarriers` | services/optimizer/internal/algo/greedytp.go:143-166 | The multi-source queue loop terminates on any graph and gives each reachable function to one barrier at minimum distance, for every order of the barriers. |
| `Bfs.WalkAppend` | services/optimizer/internal/algo/greedytp.go:155-166 | Walks compose, which is what turns queue distances into shortest distances. |
| `Bfs.QueueWithinUniverse` | services/optimizer/internal/algo/greedytp.go:155-166 | The queue holds each function at most once and stays inside what the sources can reach: the termination measure on any graph, cyclic or not. |
| `Bfs.FinishedIsNearest` | services/optimizer/internal/algo/greedytp.go:148-166 | When the queue is exhausted, exactly the reachable functions have been found, each at minimum distance from its origin. |
| `GreedyTP.GroupsInGrown` | services/optimizer/internal/algo/greedytp.go:168-172 | Whatever order the map yields, the groups are a disjoint family of exactly the assigned functions, two together if and only if they share a barrier. |
| `GreedyTP.EjectOversized` | services/optimizer/internal/algo/greedytp.go:175-197 | A group over the cap keeps what fits and ejects the rest singly, possibly leaving an empty group. |
| `GreedyTP.SafeFlat` | services/optimizer/internal/algo/greedytp.go:174-199 | Ejection neither loses nor duplicates a function. |
| `GreedyTPResult.Optimize` | services/optimizer/internal/algo/greedytp.go:37-268 | Exactly three errors; otherwise the result is a disjoint family. On an acyclic application whose path is a walk of calls from the root it is feasible if and only if the bare path is fast enough and the functions the root reaches fit, and, when all functions fit, if and only if some partition is feasible. |
| `GreedyTPResult.HoldsExactlyReachable` | services/optimizer/internal/algo/greedytp.go:143-199 | The result holds exactly the functions some barrier reaches, once each. |
| `GreedyTPResult.MergesNoMoreThanNeeded` | services/optimizer/internal/algo/greedytp.go:82-109 | Step 1 merges enough path edges for the latency cap, in milliseconds, and no smaller number would do. |
| `GreedyTPResult.BarriersAreExactly` | services/optimizer/internal/algo/greedytp.go:122-134 | On a repetition-free path the barriers are the root and whatever lies beyond the merged edges. |
| `GreedyTPResult.HeadBelongsToRoot` | services/optimizer/internal/algo/greedytp.go:131-166 | On an acyclic application the merged head of the path ends up in the root's group. |
| `GreedyTPResult.RunIsFeasible` | services/optimizer/internal/algo/greedytp.go:48-260 | Every run, for every order of barriers and ties, is feasible in that regime. |
| `GreedyTPResult.FeasibleExactlyWhenPossible` | services/optimizer/internal/algo/greedytp.go:48-260 | Feasible if and only if some partition is. |
| `GreedyTPResult.FeasibleExactlyWhenReachableFit` | services/optimizer/internal/algo/greedytp.go:48-260 | In the regime without the memory condition: feasible if and only if the functions the root reaches fit, whatever is out of reach. |
| `GreedyTPResult.SameReach` | services/optimizer/internal/algo/greedytp.go:131-166 | On a path of calls from the root, the barriers reach exactly what the root reaches. |
| `GreedyTPResult.CoversExactlyWhenRootReaches` | services/optimizer/internal/algo/greedytp.go:131-199 | There the result covers the application if and only if the root reaches all of it. |
| `GreedyTPRuns.PassSame` | services/optimizer/internal/algo/greedytp.go:245-260 | The merge pass takes the same decisions on the same blocks, however groups and members are listed. |
| `GreedyTPRuns.SafeSame` | services/optimizer/internal/algo/greedytp.go:174-199 | So does ejection. |
| `GreedyTPRuns.EjectsExactly` | services/optimizer/internal/algo/greedytp.go:174-199 | Ejection separates two members of a group if and only if one of them alone is over the cap. |
| `GreedyTPRuns.RunsAgree` | services/optimizer/internal/algo/algo_test.go:309-320 | Reproducible: where no function is equally near two barriers any two runs return the same blocks, whatever order the maps are walked in. |
| `GreedyTPRuns.RunsReportTheSame` | services/optimizer/internal/algo/algo_test.go:309-320 | And the same cost, latency and feasibility. |
| `GreedyTPRuns.GrownAgreeExactly` | services/optimizer/internal/algo/greedytp.go:143-172 | Every run grows the same groups from its barriers if and only if no function is equally near two of them. |
| `Coarsening.SomeFeasibleExactly` | services/optimizer/internal/domain/types.go:490-505 | Some partition is feasible if and only if every function fits on its own and the path, if there is one, is fast enough without a hop. |
| `GreedyTPCost.SameBlocksSameCost` | services/optimizer/internal/domain/types.go:427-470 | Two partitions with the same blocks cost the same. |
| `GreedyTPCost.MergingOnlyHelps` | services/optimizer/internal/algo/greedytp.go:201-260 | After the groups are grown the cost never rises again and nobody is separated. |
| `GreedyTPCost.NoLossWhenUnfusedFits` | services/optimizer/internal/algo/greedytp.go:82-166 | When the path starts at the root, is fast enough unfused and calls off the path join equals: every function on the path is its own barrier and the result costs no more than NoFusion. |
| `GreedyTPCost.NoLossWhenAllOnPath` | services/optimizer/internal/algo/algo_test.go:371-395 | In particular when the path holds every function, whatever their sizes. |
| `GreedyTPCost.GloballyOptimalAmongEquals` | services/optimizer/internal/algo/greedytp.go:245-260 | Where every call joins functions of one size that fit and every function is within reach, no partition at all costs less than the result, in every run. |
| `GreedyTPCost.NoLossAmongEquals` | services/optimizer/internal/algo/algo_test.go:264-285 | So there GreedyTP is never dearer than NoFusion. |
| `GreedyTPCost.NoRoomMeansSingleton` | services/optimizer/internal/algo/greedytp.go:82-166 | For any number of functions within the root's reach that fit, when the cap leaves no room for one hop: the result costs exactly what one group of everything costs, so it is no dearer than NoFusion if and only if Singleton is. |
| `TightChain.PairProfit` | services/optimizer/internal/domain/types.go:562-585 | The profit of fusing a caller with its callee in closed form: transfer plus one request less the re-tiering of both. |
| `TightChain.CspAnswersExactlyWhenPairPays` | services/optimizer/internal/algo/csp.go:20-24 | On a two-function chain that meets the cap only when fused, CSP answers if and only if fusing the pair pays: the path theorem at two functions. |
| `TightChain.GreedyTPFusesRegardless` | services/optimizer/internal/algo/algo_test.go:264-285 | On the same chains GreedyTP costs exactly NoFusion less the pair's profit: the general theorem at two functions. |
| `TightChain.MismatchedDoesNotPay` | services/optimizer/internal/domain/types.go:177-181 | A 128 MB caller and a 1024 MB callee do not pay for fusing. |
| `TightChain.HeuristicsFall` | services/optimizer/internal/algo/algo_test.go:371-395 | On that application, in every run: a feasible partition exists, CSP finds none, and GreedyTP costs strictly more than NoFusion. |
| `Frontier.MarkFrontier` | services/optimizer/internal/algo/frontier.go:40-60 | In place: a result is marked exactly when it is feasible, error-free and some other error-free result dominates it, with the first such name; everything else is untouched and old marks are overwritten. |
| `Frontier.MarkedExactly` | services/optimizer/internal/algo/frontier.go:21-33 | In numbers: marked if and only if feasible and error-free and another such result costs no more and is no slower, one of the two strictly; the first such is named. |
| `Frontier.ExtremesStayOpen` | services/optimizer/internal/algo/frontier.go:10-15 | An option cheaper than every other, or faster than every other, is never marked. |
| `Frontier.TradeStaysOpen` | services/optimizer/internal/algo/frontier.go:28-32 | A cheap slow and a dear fast option are both left unmarked. |
| `Frontier.DominatesIsStrictOrder` | services/optimizer/internal/algo/frontier.go:24-33 | `Dominates` is a strict partial order. |
| `Frontier.BeatenByUnbeaten` | services/optimizer/internal/algo/frontier.go:35-60 | Every marked result is dominated by some unmarked one. |
| `Frontier.Extremes` | services/optimizer/internal/algo/frontier.go:68-87 | The first cheapest and first fastest among feasible error-free results; the flag compares their two points. |
| `Frontier.UnambiguousMeansOnePoint` | services/optimizer/internal/algo/frontier.go:62-67 | With the flag up, the unmarked options are exactly those at the one point that attains both minima. |
| `Frontier.UnambiguousExactly` | services/optimizer/internal/algo/frontier.go:62-86 | Read off the list of results: the flag is up if and only if some option is best on both axes and no option before it ties with it on one axis alone. |
| `Frontier.TieHidesBest` | services/optimizer/internal/algo/frontier.go:74-86 | Two tied costs: an option best on both axes exists and the flag stays down. |
| `Counterexamples.AnswerOverrunsItsCap` | services/optimizer/internal/algo/csp.go:127-144 | On a path that comes back to its start, every run of CSP answers and no list of groups at all meets the cap. |
| `Counterexamples.RevisitedIsWellFormed` | services/optimizer/internal/algo/csp.go:127-144 | Such an application can be well formed. |
| `Counterexamples.ReturningGraphIsBuilt` | services/optimizer/cmd/main.go:270-285 | From a graph with such a path the conversion builds an application that lists a function twice and is not well formed. |
| `Counterexamples.WellFormedPathsDoNotRepeat` | services/optimizer/cmd/main.go:270-285 | Whatever the conversion builds well formed has a repetition-free critical path. |
| `Counterexamples.HopsRemovedFromNothing` | services/optimizer/internal/domain/types.go:304-321 | On a graph whose path repeats its one function, the report credits NoFusion with a hop removed from itself. |
| `Counterexamples.OversizedIsSolvable` | services/optimizer/internal/algo/ilp/solver.go:279-281 | With one function over the memory cap the program has a solution and no partition is feasible. |
| `Counterexamples.RowlessIsSolvable` | services/optimizer/internal/algo/ilp/solver_test.go:126-134 | With a path without a call that is slower than the cap, likewise. |
| `Counterexamples.LeastPointIsInfeasible` | services/optimizer/internal/algo/ilp/solver.go:317-336 | On a path against the calls, everything an exact solver can answer decodes to a partition over the latency cap, although a feasible one exists. |
| `Counterexamples.AnswerIsUndercut` | services/optimizer/internal/algo/csp.go:22-24 | On three functions in a row, every run of CSP fuses the path although cutting after the first function meets the cap and costs less. |
| `Counterexamples.SplitProfits` | services/optimizer/internal/domain/types.go:562-585 | Closed form of both ways of splitting three functions in a row. |
| `TiedBarriers.RunsDiffer` | services/optimizer/internal/algo/greedytp.go:232-234 | A function equally near two barriers: two runs recommend different groups at different prices, one no dearer than NoFusion and one dearer. |
| `RelayChain.EveryRunStartsAtTheFirstId` | services/optimizer/internal/algo/greedytp.go:232-243 | On a chain whose calls cost the same every run merges the call whose caller comes first, and so leaves the last function alone. |
| `GraphToApp.FunctionNode.constructor` | services/optimizer/cmd/main.go:239-259 | A node starts unwired, with rate 1 and no price. |
| `GraphToApp.FunctionNode.AddChild` | services/optimizer/internal/domain/types.go:103-110 | The child is appended, its parent overwritten and the bytes recorded, with the byte map made when there is none, also when the child is the node itself. |
| `GraphToApp.WireEdge` | services/optimizer/cmd/main.go:262-268 | One edge in place is one step of the value-level graph; an edge with an unknown end is skipped and pointers stay inside the graph. |
| `GraphToApp.WiredMeaning` | services/optimizer/cmd/main.go:261-268 | After all edges: callees in edge order, byte keys exactly the callees, the last caller as parent, nothing else changed. |
| `GraphToApp.OrderFunctions` | services/optimizer/cmd/main.go:270-285 | The known critical path as given, then every other node once in any order. |
| `GraphToApp.EntryFunction` | services/optimizer/cmd/main.go:328-335 | The first function without a parent, or none. |
| `GraphToApp.RateFromEntry` | services/optimizer/cmd/main.go:302-317 | Rates become counts over the entry's count where both are positive and stay 1 otherwise; nothing else changes. |
| `GraphToApp.GraphToApp` | services/optimizer/cmd/main.go:235-326 | The whole conversion equals its value-level description: wired, priced and rated nodes, the ordering, the path and the limits with their defaults. |
| `GraphToApp.WellFormedExactly` | services/optimizer/cmd/main.go:235-326 | The result is well formed if and only if no two known edges share both ends, no known function repeats on the critical path, the hop is not negative, and neither is the price where there are nodes. |
| `GraphToApp.CallsMayRepeatExactly` | services/optimizer/cmd/main.go:235-326 | It is well formed but for repeated calls if and only if the graph is clean but for repeated edges. |
| `GraphToApp.EdgesAreKept` | services/optimizer/cmd/main.go:261-268 | A function is a child exactly when the graph has that edge, and has no parent exactly when no known edge enters it. |
| `GraphToApp.CriticalPathIsKept` | services/optimizer/cmd/main.go:270-285 | The critical path of the result is the graph's, and it opens the function list. |
| `GraphToApp.EntryRateIsOne` | services/optimizer/cmd/main.go:302-317 | The function the platform starts has no incoming edge and rate 1. |
| `GraphToApp.NodeOnFields` | services/optimizer/cmd/main.go:235-300 | Node by node in the graph's terms: sizes, callees in edge order, the bytes of the last edge between two ends, the caller of the last edge into it, the price. |
| `GraphToApp.CalleesParts` | services/optimizer/cmd/main.go:263-270 | Callees are read edge by edge in order, edges with an unknown end left out. |
| `GraphToApp.RateOnFields` | services/optimizer/cmd/main.go:302-317 | A rate times the entry's count is the function's own count; where either is not positive the rate stays 1. |
| `GraphToApp.CapsOnFields` | services/optimizer/cmd/main.go:286-292 | The caps are the graph's, or 1024 MB, 30000 ms and 20 ms a hop. |
| `Service.RunAll` | services/optimizer/cmd/main.go:59-66 | All six optimizers, and each result is its optimizer's: a result exactly when that optimizer has one (`AreOwnResults`), with the cost model's own numbers; all but GreedyTP cover a well-formed application, and GreedyTP does when the root reaches everything. |
| `Service.Optimize` | services/optimizer/cmd/main.go:59-112 | The request: six results, a tradeoff for each that succeeded, marks and extremes over the whole set. |
| `Service.CoversExactlyWhenReachable` | services/optimizer/internal/algo/greedytp.go:143-166 | GreedyTP covers the application if and only if its barriers reach every function. |
| `Service.RecommendsExactlyWhenFeasible` | services/optimizer/cmd/main.go:109-112 | When the root reaches every function there is something to recommend if and only if some partition is feasible, solver or no solver. |
| `Service.RecommendsExactlyWhenReachableFit` | services/optimizer/cmd/main.go:109-112 | On an acyclic application whose path is a walk of calls from the root: something is recommended if and only if the path is fast enough and the functions within reach fit, while some partition is feasible if and only if all functions fit; the difference is GreedyTP leaving out a function that fits nowhere. |
| `Service.Reply` | services/optimizer/cmd/main.go:114-165 | The reply describes each result and, though it looks them up by name, shows the very results that were picked as cheapest and fastest and recommends the cheapest. |
| `Service.ReportAddsUp` | services/optimizer/cmd/main.go:121-138 | The groups shown add up to the execution charge the cost model priced. |
| `Service.GroupShownExactly` | services/optimizer/cmd/main.go:121-138 | Of a group: the names in order, the largest member's memory, the runtimes added up, and that memory held for that time at the price of a GB-second. |
| `Service.ResultShownExactly` | services/optimizer/cmd/main.go:121-160 | Of a result: its own numbers, error, mark and tradeoff, and its groups in order. |
| `Service.FastestIsUnbeatable` | services/optimizer/cmd/main.go:109-112 | The fastest result is as fast as any feasible partition. |
| `Service.RecommendationIsOptimal` | services/optimizer/cmd/main.go:109-112 | With an exact solver that answers what it is asked and a path of calls, the recommended result is a feasible partition and no feasible partition is cheaper. |
| `Service.DroppedFunctionLooksCheap` | services/optimizer/internal/algo/greedytp.go:143-166 | On two unconnected functions, in every run, GreedyTP drops the one out of reach and undercuts every partition by that. |
| `Evaluation.IndexOf` | services/optimizer/internal/algo/ilp/solver.go:130-133 | The index map holds exactly the functions, the last position winning. |
| `TradeoffReport.SumGroups` | services/optimizer/internal/domain/types.go:297-302 | The loop totals invocations and execution over any list of groups. |
| `TradeoffReport.CostByTerms` | services/optimizer/internal/domain/types.go:427-470 | The cost of a partition is its execution total, its request total and the transfer that crosses blocks. |
| `Trivial.HasEdges` | services/optimizer/internal/algo/trivial.go:57-63 | True exactly when some function has a child. |
| `Trivial.VisitUnseen` | services/optimizer/internal/algo/trivial.go:84-89 | The inner loop marks and queues exactly the unseen children, keeping the search invariant. |
| `Coarsening.BaselinesBound` | services/optimizer/internal/algo/trivial.go:10-44 | NoFusion refines every partition and every partition refines one group of everything. |
| `MinWCut.PassAttainsBound` | services/optimizer/internal/algo/minwcut.go:65-96 | From any such partition the pass costs exactly the lower bound of every partition. |
| `IlpBuilder.State` | services/optimizer/internal/algo/ilp/solver.go:76-98 | A statement's terms go through an expression and hold at exactly the points the added terms say. |
| `IlpBuilder.CutObjective` | services/optimizer/internal/algo/ilp/solver.go:208-214 | The cut coefficients: transfer, plus the callee's request when the edge is its parent edge. |
| `IlpBuilder.TierObjective` | services/optimizer/internal/algo/ilp/solver.go:215-220 | The billed-memory coefficients of one root. |
| `IlpBuilder.OrZero` | services/optimizer/internal/algo/ilp/solver.go:221-228 | An empty objective is written as a zero term with the same value. |
| `IlpCharges.TransferIdentity` | services/optimizer/internal/algo/ilp/solver.go:207-214 | Cut edges carry exactly the transfer that crosses blocks. |
| `IlpCharges.RequestIdentity` | services/optimizer/internal/algo/ilp/solver.go:158-165 | Cut parent edges carry exactly the requests that are not unavoidable. |
| `CspSearch.Propose` | services/optimizer/internal/algo/csp.go:178-182 | One offer: the frontier of the node is updated, and the item is queued exactly when it was not dominated. |
| `CspSearch.Advance` | services/optimizer/internal/algo/csp.go:185-202 | One continuation is generated and offered, keeping the invariant, with at most one push. |
| `GreedyTP.TryMerges` | services/optimizer/internal/algo/greedytp.go:85-105 | With m merges every choice gives one latency, so the first one is taken or none fits; the cuts are the remaining edges. |
| `GreedyTP.MakeSafe` | services/optimizer/internal/algo/greedytp.go:174-199 | The loop over groups is ejection group by group. |
| `GreedyTP.Enumerate` | services/optimizer/internal/algo/greedytp.go:143-172 | Map iteration: every key once, in an order nothing is known about. |
| `GreedyTPResult.GrowAndMerge` | services/optimizer/internal/algo/greedytp.go:131-260 | From barriers to result: nearest barriers, grown groups, ejection, then the merge pass. |
| `GreedyTPResult.MergePhase` | services/optimizer/internal/algo/greedytp.go:217-260 | Every edge is a candidate again, including those cut in step 1; ties fall by id. |
| `Frontier.MarkOne` | services/optimizer/internal/algo/frontier.go:41-58 | One result is re-marked, and no other slot changes. |
| `GraphToApp.CreateNodes` | services/optimizer/cmd/main.go:239-259 | One fresh object per graph node, filed under its id. |
| `GraphToApp.WireEdges` | services/optimizer/cmd/main.go:261-268 | The wiring loop in place equals wiring on values, edge by edge. |
| `GraphToApp.SetPrices` | services/optimizer/cmd/main.go:294-299 | Every node gets the price and nothing else changes. |
| `GraphToApp.CalleesDistinct` | services/optimizer/cmd/main.go:261-268 | Children are distinct exactly when no two known edges share both ends. |
| `Service.OneGroupIsFeasibleFirst` | services/optimizer/internal/algo/frontier.go:10-15 | One group of everything is no slower than any partition and feasible whenever any is. |

## Left out

- Floating point: rounding is idealised away; costs are exact reals.
- `RuntimeMs` of a node: telemetry, load factor and truncation; the runtime is a given non-negative integer.
- Negative memory or byte counts, which the wire format could carry, are not modelled: both are `nat`.
- glpsol and cbc, temporary files and PATH lookup: the solver is a parameter trusted, where a theorem says so, to read the printed numerals as meant and to report the placement columns of an optimal solution of the text.
- `parseColumnValues`, `solvedOptimally` and `formatCoef`: the solver's answer is a map from columns to values; numerals and right-hand sides are opaque words, so the rounding to 12 digits is not captured.
- MergeIsHarmful: no optimizer in the repository calls it.
- Aliasing between groups: a group is a value inside the mutated slice, so `append` into a shared backing array of a group and the deep copy of `clonePartitioning` are not captured.
- GreedyTPRuns.RunsAgree: one direction only. Where a function is equally near two barriers the grown groups differ between runs (`GreedyTPRuns.GrownAgreeExactly`), but the merges after them can make up for it.
- Failed results carry zero cost where the code puts its largest float; error texts are shortened; wall-clock fields, metric counters and logging are dropped.
- Telemetry fields no cost function reads (cold start, p99, error rate).
- YAML parsing, enricher, gateway, auth, database and deployment: input, output and wrappers.
- CspMeaning.ExactWhenPrefixesPay: one regime of which answer is given, as is the wider `CspGate.AnswersAsDecided`. Dominance ignores group memory and contents while the merge gate depends on both, so where a shorter stretch can be fused and the longer one cannot no closed condition says which segmentation is answered; whether an answer is the cheapest is said of every answer (`CspOptimal.AnswerCheapestExactly`).
- CspMeaning.AnswersOnlyUnfused: one regime, for the same reason.
- CspMeaning.AnswerMeetsCap: states the cap for a repetition-free path only, since it fails otherwise (`CspMeaning.MeetsEveryCapExactly`).
- GreedyTPCost.NoLossWhenUnfusedFits: one direction only. Between the regimes of `GreedyTPCost`, whether GreedyTP beats NoFusion depends on which merges are accepted after growing.
- The 32-bit fields of the service's reply, and the fields it merely copies.
- MinWCut.GloballyOptimal: one direction only; a pass can also be optimal by luck where costly edges join unequal memories.
- IlpOptimal.LeastPointIsCheapest: states feasibility only for a path of calls, since it fails otherwise (`Counterexamples.LeastPointIsInfeasible`); `IlpOptimal.LeastPointSolvesCallProblem` says what is solved on any path.
