/** One request to the optimizer service: every algorithm runs, then the results are compared. */
module Service {
  import opened Sums
  import opened Domain
  import opened Billing
  import opened Coarsening
  import opened CostModel
  import opened RepeatedCalls
  import opened Evaluation
  import opened TradeoffReport
  import opened Results
  import opened Bfs
  import opened Frontier
  import Trivial
  import Merging
  import GreedyPass
  import MinWCut
  import opened GreedyTPResult
  import CostlessCsp
  import CspSearch
  import CspOptimal
  import opened IlpOptimal
  import opened MtxIlp

  const NAMES := ["NoFusion", "Singleton", "MinWCut Heuristic", "Greedy TP (GrTP)", "Costless (CSP)",
      "MtxILP (Optimal)"]

  const NO_TRADEOFF := Tradeoff(0.0, 0.0, 0.0, 0)

  /** The numbers are those of the groups reported, by the one cost model. */
  ghost predicate Honest(app: Application, r: AlgorithmResult) {
    r.error == "" ==> r.metrics == MetricsOf(app, r.groups)
  }

  ghost predicate Covers(app: Application, r: AlgorithmResult) {
    r.error == "" ==> IsPartition(app, r.groups)
  }

  /** The solver, if there is one, how the program is printed for it, and the program asked of it, if any. */
  datatype Consultation = Consultation(solver: Option<Solver>, formats: Formats, asked: Option<Request>)

  /** No solver, or one that answers right what it was asked. */
  ghost predicate Trusted(consulted: Consultation) {
    consulted.solver.Some? ==> ExactIfAsked(consulted.solver.value, consulted.formats, consulted.asked)
  }

  // ---- each result is its optimizer's ----

  ghost predicate IsMinWCutResult(app: Application, r: AlgorithmResult) {
    r.error == "" && exists order ::
      GreedyPass.IsMergeOrder(app, order) && r.groups == Merging.MergeAll(app, Singles(app.functions), order)
  }

  ghost predicate IsGreedyTPResult(app: Application, r: AlgorithmResult) {
    && (r.error == "" <==> CriticalPath(app) != [] && FastEnough(app) && RootFunction(app).Some?)
    && (r.error == "" ==> exists run :: GreedyTPResult.RunOK(app, run) && r.groups == GreedyTPResult.Outcome(app, run))
  }

  ghost predicate IsCspResult(app: Application, r: AlgorithmResult) {
    && (CriticalPath(app) == [] ==> r.error != "")
    && (CriticalPath(app) != [] ==> exists labels: CspSearch.Frontiers, generated, best ::
        && CspOptimal.Finished(app, labels, generated, best)
        && (r.error == "" <==> best.Some?)
        && (best.Some? ==> r.groups == CostlessCsp.FinalGroups(app, best.value.partitioning)))
  }

  /** A result exactly when there is a solver and, if some function calls another, it answered. */
  ghost predicate IsMtxIlpResult(app: Application, consulted: Consultation, r: AlgorithmResult) {
    && (consulted.asked.Some? <==> consulted.solver.Some? && HasCall(app))
    && (consulted.asked.Some? ==> Asks(app, consulted.formats, consulted.asked.value))
    && (r.error == "" <==> Answered(app, consulted.solver, consulted.asked))
    && (r.error == "" ==> IsAnswer(app, consulted.solver.value, consulted.asked, r.groups))
  }

  ghost predicate AreOwnResults(app: Application, consulted: Consultation, results: seq<AlgorithmResult>)
    requires |results| == 6
  {
    && IsMinWCutResult(app, results[2]) && IsGreedyTPResult(app, results[3]) && IsCspResult(app, results[4])
    && IsMtxIlpResult(app, consulted, results[5])
  }

  /** What is known of the six results, in the order the service runs the algorithms: only GreedyTP
      may leave functions out, and only when some are out of reach. */
  ghost predicate IsReport(app: Application, consulted: Consultation, results: seq<AlgorithmResult>) {
    && |results| == 6
    && (forall i :: 0 <= i < 6 ==> results[i].name == NAMES[i])
    && (forall i :: 0 <= i < 6 ==> Honest(app, results[i]))
    && (WellFormed(app) ==> Covers(app, results[0]) && Covers(app, results[1]))
    && (WellFormed(app) ==> Covers(app, results[2]) && Covers(app, results[4]))
    && (WellFormed(app) && AllReachable(app) ==> Covers(app, results[3]))
    && (WellFormed(app) && Trusted(consulted) ==> Covers(app, results[5]))
    && results[0].error == "" && results[0].groups == Singles(app.functions)
    && results[1].error == "" && |results[1].groups| == 1
    && results[2].error == "" && (CallsMayRepeat(app) ==> NoWorseThanAlone(app, results[2].groups))
    && (IsRooted(app) ==> (results[3].metrics.feasible <==> FastEnough(app) && ReachableFit(app)))
    && (results[3].metrics.feasible ==> results[3].error == "")
    && (results[4].error == "" && CallsMayRepeat(app) ==> NoWorseThanAlone(app, results[4].groups))
    && AreOwnResults(app, consulted, results)
    && (results[5].error == "" && WellFormed(app) && Trusted(consulted) ==> NoFeasibleIsBetter(app, results[5].groups))
  }

  /** GreedyTP covers the application exactly when the barriers reach all of it. */
  lemma CoversExactlyWhenReachable(app: Application, run: GreedyTPResult.Run)
    requires WellFormed(app) && GreedyTPResult.RunOK(app, run)
    ensures IsPartition(app, GreedyTPResult.Outcome(app, run)) <==>
      forall f :: f in app.functions ==> Reaches(app.nodes, run.barriers, f)
  {
    hide GreedyTPResult.RunOK, GreedyTPResult.Outcome, WellFormed, Family, Members, Reaches;
    GreedyTPResult.HoldsExactlyReachable(app, run);
    assert forall f :: f in app.functions <==> f in Elems(app.functions);
  }

  lemma RootReachesAll(app: Application, run: GreedyTPResult.Run)
    requires WellFormed(app) && GreedyTPResult.RunOK(app, run) && AllReachable(app)
    ensures IsPartition(app, GreedyTPResult.Outcome(app, run))
  {
    hide WellFormed, IsPartition, GreedyTPResult.RunOK, GreedyTPResult.Outcome, Reaches;
    BarriersReachWhatRootDoes(app, run);
    CoversExactlyWhenReachable(app, run);
  }

  method RunAll(app: Application, formats: Formats, solver: Option<Solver>)
    returns (results: seq<AlgorithmResult>, ghost consulted: Consultation)
    requires Printable(formats)
    ensures consulted.solver == solver && consulted.formats == formats
    ensures IsReport(app, consulted, results)
  {
    hide WellFormed, CallsMayRepeat, AllReachable, Honest, Covers, IsPartition, NoWorseThanAlone, NoFeasibleIsBetter,
      Trusted, IsReport, IsRooted, ReachableFit, Printable, IsMinWCutResult, IsGreedyTPResult, IsCspResult,
      IsMtxIlpResult;
    var none := RunNoFusion(app);
    var all := RunSingleton(app);
    var minWCut := RunMinWCut(app);
    var greedy := RunGreedyTP(app);
    var csp := RunCsp(app);
    var exact, asked := RunMtxIlp(app, formats, solver);
    consulted := Consultation(solver, formats, asked);
    results := [none, all, minWCut, greedy, csp, exact];
    Assembled(app, consulted, results);
  }

  /** Six results that each keep their promise make a report. */
  lemma Assembled(app: Application, consulted: Consultation, results: seq<AlgorithmResult>)
    requires |results| == 6 && forall i :: 0 <= i < 6 ==> results[i].name == NAMES[i]
    requires Honest(app, results[0]) && Honest(app, results[1]) && Honest(app, results[2])
    requires Honest(app, results[3]) && Honest(app, results[4]) && Honest(app, results[5])
    requires WellFormed(app) ==> Covers(app, results[0]) && Covers(app, results[1]) && Covers(app, results[2])
    requires WellFormed(app) ==> Covers(app, results[4])
    requires WellFormed(app) && Trusted(consulted) ==> Covers(app, results[5])
    requires WellFormed(app) && AllReachable(app) ==> Covers(app, results[3])
    requires results[0].error == "" && results[0].groups == Singles(app.functions)
    requires results[1].error == "" && |results[1].groups| == 1
    requires results[2].error == "" && (CallsMayRepeat(app) ==> NoWorseThanAlone(app, results[2].groups))
    requires IsRooted(app) ==> (results[3].metrics.feasible <==> FastEnough(app) && ReachableFit(app))
    requires results[3].metrics.feasible ==> results[3].error == ""
    requires results[4].error == "" && CallsMayRepeat(app) ==> NoWorseThanAlone(app, results[4].groups)
    requires AreOwnResults(app, consulted, results)
    requires results[5].error == "" && WellFormed(app) && Trusted(consulted) ==>
      NoFeasibleIsBetter(app, results[5].groups)
    ensures IsReport(app, consulted, results)
  {
    hide WellFormed, CallsMayRepeat, AllReachable, Honest, Covers, IsPartition, NoWorseThanAlone, NoFeasibleIsBetter,
      Trusted, IsRooted, ReachableFit, AreOwnResults;
  }

  method RunNoFusion(app: Application) returns (r: AlgorithmResult)
    ensures r.name == NAMES[0]
    ensures r.error == "" && r.groups == Singles(app.functions) && Honest(app, r)
    ensures WellFormed(app) ==> Covers(app, r)
  {
    hide WellFormed, IsPartition, MetricsOf;
    r := Trivial.NoFusion(app);
    AloneIsPartition(app);
  }

  method RunSingleton(app: Application) returns (r: AlgorithmResult)
    ensures r.name == NAMES[1]
    ensures r.error == "" && |r.groups| == 1 && Honest(app, r)
    ensures WellFormed(app) ==> Covers(app, r)
  {
    hide WellFormed, IsPartition, MetricsOf;
    var one, _, _ := Trivial.Singleton(app);
    r := one;
  }

  method RunMinWCut(app: Application) returns (r: AlgorithmResult)
    ensures r.name == NAMES[2]
    ensures r.error == "" && Honest(app, r) && IsMinWCutResult(app, r)
    ensures WellFormed(app) ==> Covers(app, r)
    ensures CallsMayRepeat(app) ==> NoWorseThanAlone(app, r.groups)
  {
    hide WellFormed, CallsMayRepeat, IsPartition, MetricsOf, NoWorseThanAlone;
    r := MinWCut.Optimize(app);
    WellFormedMayRepeat(app);
    Fused(app, r.groups);
  }

  method RunCsp(app: Application) returns (r: AlgorithmResult)
    ensures r.name == NAMES[4]
    ensures Honest(app, r) && IsCspResult(app, r)
    ensures r.error == "" && CallsMayRepeat(app) ==> NoWorseThanAlone(app, r.groups)
    ensures WellFormed(app) ==> Covers(app, r)
  {
    hide WellFormed, CallsMayRepeat, IsPartition, MetricsOf, NoWorseThanAlone, CspSearch.LoopState,
      CostlessCsp.Outcome, CostlessCsp.FinalGroups, CriticalPath;
    WellFormedMayRepeat(app);
    var answer, labels, generated, best := CostlessCsp.Optimize(app);
    r := answer;
    assert CriticalPath(app) != [] ==> CspOptimal.Finished(app, labels, generated, best);
    Fused(app, r.groups);
  }

  method RunMtxIlp(app: Application, formats: Formats, solver: Option<Solver>)
    returns (r: AlgorithmResult, ghost asked: Option<Request>)
    requires Printable(formats)
    ensures r.name == NAMES[5] && IsMtxIlpResult(app, Consultation(solver, formats, asked), r)
    ensures Honest(app, r)
    ensures WellFormed(app) && Trusted(Consultation(solver, formats, asked)) ==> Covers(app, r)
    ensures r.error == "" && WellFormed(app) && Trusted(Consultation(solver, formats, asked)) ==>
      NoFeasibleIsBetter(app, r.groups)
  {
    hide WellFormed, IsPartition, MetricsOf, NoFeasibleIsBetter, ExactIfAsked, Asks, Printable, IsAnswer, HasCall;
    r, asked := MtxIlp.Optimize(app, formats, solver);
  }

  method RunGreedyTP(app: Application) returns (r: AlgorithmResult)
    ensures r.name == NAMES[3]
    ensures Honest(app, r) && IsGreedyTPResult(app, r)
    ensures WellFormed(app) && AllReachable(app) ==> Covers(app, r)
    ensures IsRooted(app) ==> (r.metrics.feasible <==> FastEnough(app) && ReachableFit(app))
    ensures r.metrics.feasible ==> r.error == ""
  {
    hide WellFormed, CallsMayRepeat, AllReachable, IsPartition, MetricsOf, GreedyTPResult.RunOK, GreedyTPResult.Outcome,
      Family, IsRooted, ReachableFit;
    ghost var run;
    r, run := GreedyTPResult.Optimize(app);
    if r.error == "" && WellFormed(app) && AllReachable(app) {
      RootReachesAll(app, run.value);
    }
  }

  lemma AloneIsPartition(app: Application)
    ensures WellFormed(app) ==> IsPartition(app, Singles(app.functions))
  {
    hide IsPartition;
    if WellFormed(app) { SinglesPartition(app); }
  }

  lemma Fused(app: Application, gs: seq<Group>)
    ensures NoWorseThanAlone(app, gs) ==> IsPartition(app, gs)
  { }

  /** The whole request. */
  method Optimize(app: Application, formats: Formats, solver: Option<Solver>)
    returns (results: seq<AlgorithmResult>, tradeoffs: seq<Tradeoff>, cheapest: Option<nat>, fastest: Option<nat>,
        unambiguous: bool, ghost raw: seq<AlgorithmResult>, ghost consulted: Consultation)
    requires Printable(formats)
    ensures consulted.solver == solver && consulted.formats == formats
    ensures IsReport(app, consulted, results) && |results| == |raw| == |tradeoffs| == 6
    ensures forall i :: 0 <= i < 6 ==> MarkedAt(raw, results[i], i)
    ensures forall i ::
      0 <= i < 6 ==> tradeoffs[i] == if results[i].error == "" then TradeoffOf(app, results[i].groups) else NO_TRADEOFF
    ensures cheapest.Some? <==> exists i :: 0 <= i < |results| && IsOption(results[i])
    ensures fastest.Some? <==> cheapest.Some?
    ensures cheapest.Some? ==> FirstCheapest(results, |results|, cheapest.value)
    ensures fastest.Some? ==> FirstFastest(results, |results|, fastest.value)
    ensures unambiguous <==> cheapest.Some? && SamePoint(results[cheapest.value], results[fastest.value])
  {
    hide IsReport, TradeoffOf, MarkedAt, FirstCheapest, FirstFastest, SamePoint, Printable;
    var made, c := RunAll(app, formats, solver);
    raw, consulted := made, c;
    assert |made| == 6 by { SixResults(app, consulted, made); }
    tradeoffs := [];
    for i := 0 to |made|
      invariant |tradeoffs| == i
      invariant forall k ::
        0 <= k < i ==> tradeoffs[k] == if made[k].error == "" then TradeoffOf(app, made[k].groups) else NO_TRADEOFF
    {
      var t := NO_TRADEOFF;
      if made[i].error == "" {
        t := CalculateTradeoff(app, made[i].groups);
      }
      tradeoffs := tradeoffs + [t];
    }
    var marked := new AlgorithmResult[|made|](i requires 0 <= i < |made| => made[i]);
    assert marked[..] == made;
    MarkFrontier(marked);
    results := marked[..];
    forall i | 0 <= i < 6 ensures results[i].error == made[i].error && results[i].groups == made[i].groups {
      MarkKeeps(made, results[i], i);
    }
    MarkingKeepsReport(app, consulted, made, results);
    cheapest, fastest, unambiguous := Extremes(results);
  }

  lemma SixResults(app: Application, consulted: Consultation, results: seq<AlgorithmResult>)
    requires IsReport(app, consulted, results)
    ensures |results| == 6
  { }

  /** Marking touches neither the groups nor the numbers. */
  lemma MarkKeeps(was: seq<AlgorithmResult>, now: AlgorithmResult, i: nat)
    requires i < |was| && MarkedAt(was, now, i)
    ensures now.error == was[i].error && now.groups == was[i].groups && now.metrics == was[i].metrics
    ensures now.name == was[i].name
    ensures IsOption(now) == IsOption(was[i])
  { }

  lemma MarkingKeepsReport(app: Application, consulted: Consultation, was: seq<AlgorithmResult>,
      now: seq<AlgorithmResult>)
    requires IsReport(app, consulted, was) && |now| == 6
    requires forall i :: 0 <= i < 6 ==> MarkedAt(was, now[i], i)
    ensures IsReport(app, consulted, now)
  {
    hide WellFormed, CallsMayRepeat, AllReachable, Trusted, NoWorseThanAlone, NoFeasibleIsBetter, IsPartition,
      MetricsOf, MarkedAt, IsRooted, ReachableFit, IsMinWCutResult, IsGreedyTPResult, IsCspResult, IsMtxIlpResult;
    forall i | 0 <= i < 6
      ensures now[i].error == was[i].error && now[i].groups == was[i].groups && now[i].metrics == was[i].metrics
      ensures now[i].name == was[i].name
    {
      MarkKeeps(was, now[i], i);
    }
    OwnKept(app, consulted, was, now);
  }

  lemma OwnKept(app: Application, consulted: Consultation, was: seq<AlgorithmResult>, now: seq<AlgorithmResult>)
    requires |was| == |now| == 6 && AreOwnResults(app, consulted, was)
    requires forall i :: 0 <= i < 6 ==> now[i].error == was[i].error && now[i].groups == was[i].groups
    ensures AreOwnResults(app, consulted, now)
  {
    hide CspOptimal.Finished, GreedyTPResult.RunOK, GreedyTPResult.Outcome, GreedyPass.IsMergeOrder, Asks, Answered,
      IsAnswer, FastEnough, CriticalPath, RootFunction, CostlessCsp.FinalGroups, Merging.MergeAll;
  }

  // ---- the reply ----

  datatype FusionGroup = FusionGroup(functionIDs: seq<string>, memoryMB: nat, runtimeMs: nat, executionCostUSD: real)

  datatype ReportedResult = ReportedResult(
    name: string,
    groups: seq<FusionGroup>,
    metrics: Metrics,
    error: bool,
    errorMessage: string,
    dominated: bool,
    dominatedBy: string,
    tradeoff: Tradeoff)

  datatype Plan = Plan(
    results: seq<ReportedResult>,
    recommended: Option<ReportedResult>,
    cheapest: Option<ReportedResult>,
    fastest: Option<ReportedResult>,
    unambiguous: bool)

  function Names(g: Group): seq<string> {
    seq(|g|, i requires 0 <= i < |g| => g[i].name)
  }

  function ReportedGroup(s: Store, g: Group): FusionGroup {
    FusionGroup(Names(g), GroupMemory(s, g), GroupRuntimeMs(s, g), GroupExecutionCostUSD(s, g))
  }

  function ReportedGroups(s: Store, groups: seq<Group>): seq<FusionGroup> {
    seq(|groups|, i requires 0 <= i < |groups| => ReportedGroup(s, groups[i]))
  }

  function Reported(s: Store, r: AlgorithmResult, t: Tradeoff): ReportedResult {
    ReportedResult(
      r.name, ReportedGroups(s, r.groups), r.metrics, r.error != "", r.error, r.dominated, r.dominatedBy, t)
  }

  ghost function ReportedExecution(): FusionGroup -> real {
    (g: FusionGroup) => g.executionCostUSD
  }

  /** The groups shown add up to the execution charge the cost model priced. */
  lemma {:induction false} ReportAddsUp(s: Store, groups: seq<Group>)
    ensures SeqSum(ReportedGroups(s, groups), ReportedExecution()) == SeqSum(groups, Execution(s))
  {
    if groups != [] {
      ReportAddsUp(s, groups[..|groups| - 1]);
      assert ReportedGroups(s, groups)[..|groups| - 1] == ReportedGroups(s, groups[..|groups| - 1]);
    }
  }

  /** What is shown of a group: its members' names in order, its largest member's memory, its members'
      runtimes added up, and that memory held for that time at the price of a GB-second. */
  lemma GroupShownExactly(s: Store, g: Group)
    ensures var shown := ReportedGroup(s, g);
      && |shown.functionIDs| == |g| && (forall i :: 0 <= i < |g| ==> shown.functionIDs[i] == g[i].name)
      && (forall f :: f in g ==> At(s, f).memoryMB <= shown.memoryMB)
      && (g == [] ==> shown.memoryMB == 0) && (g != [] ==> exists f :: f in g && At(s, f).memoryMB == shown.memoryMB)
      && shown.runtimeMs as real == SeqSum(g, RuntimeOf(s))
      && shown.executionCostUSD == 0.00001667 * ((shown.memoryMB as real / 1024.0) * (shown.runtimeMs as real / 1000.0))
  {
    hide GroupMemory, GroupRuntimeMs, SeqSum;
    RuntimeOnFields(s, g);
    LargestMember(s, g);
  }

  lemma LargestMember(s: Store, g: Group)
    ensures g == [] ==> GroupMemory(s, g) == 0
    ensures g != [] ==> exists f :: f in g && At(s, f).memoryMB == GroupMemory(s, g)
  {
    if g != [] && GroupMemory(s, g) == 0 { assert g[0] in g; }
  }

  /** What is shown of a result: its own numbers, its error if it has one, its mark, its groups in order. */
  lemma ResultShownExactly(s: Store, r: AlgorithmResult, t: Tradeoff)
    ensures var shown := Reported(s, r, t);
      && shown.name == r.name && shown.metrics == r.metrics && shown.tradeoff == t
      && (shown.error <==> r.error != "") && shown.errorMessage == r.error
      && shown.dominated == r.dominated && shown.dominatedBy == r.dominatedBy
      && |shown.groups| == |r.groups|
      && forall i :: 0 <= i < |r.groups| ==> shown.groups[i].functionIDs == Names(r.groups[i])
  { }

  method DescribeGroup(s: Store, g: Group) returns (group: FusionGroup)
    ensures group == ReportedGroup(s, g)
  {
    var ids := new string[|g|](_ => "");
    for i := 0 to |g|
      invariant forall k :: 0 <= k < i ==> ids[k] == g[k].name
    {
      ids[i] := g[i].name;
    }
    var memory := GroupMemoryMB(s, g);
    var runtime := RuntimeMs(s, g);
    var cost := GroupExecutionCost(s, g);
    assert ids[..] == Names(g);
    group := FusionGroup(ids[..], memory, runtime, cost);
  }

  method DescribeGroups(s: Store, groups: seq<Group>) returns (described: seq<FusionGroup>)
    ensures described == ReportedGroups(s, groups)
  {
    described := [];
    for i := 0 to |groups|
      invariant |described| == i && forall k :: 0 <= k < i ==> described[k] == ReportedGroup(s, groups[k])
    {
      var group := DescribeGroup(s, groups[i]);
      described := described + [group];
    }
  }

  lemma NamesDistinct()
    ensures Distinct(NAMES)
  {
    assert |NAMES[0]| == 8 && |NAMES[1]| == 9 && |NAMES[2]| == 17 && |NAMES[3]| == 16 && |NAMES[4]| == 14;
    assert |NAMES[5]| == 16;
    assert NAMES[3][0] != NAMES[5][0];
  }

  /** No two optimizers share a name. */
  lemma NameFindsResult(results: seq<AlgorithmResult>, i: nat, k: nat)
    requires |results| == 6 && forall i :: 0 <= i < 6 ==> results[i].name == NAMES[i]
    requires i < 6 && k < 6
    ensures results[i].name == results[k].name <==> i == k
  {
    NamesDistinct();
    var low, high := if i < k then i else k, if i < k then k else i;
    assert low < high ==> NAMES[low] != NAMES[high];
  }

  function Shown(s: Store, results: seq<AlgorithmResult>, tradeoffs: seq<Tradeoff>,
      pick: Option<nat>): Option<ReportedResult>
    requires |results| == |tradeoffs|
  {
    if pick.Some? && pick.value < |results| then Some(Reported(s, results[pick.value], tradeoffs[pick.value])) else None
  }

  /** The reply finds the cheapest and the fastest result again by name; as no two optimizers share
      one, it shows the very results that were picked, and recommends the cheapest. */
  method Reply(s: Store, results: seq<AlgorithmResult>, tradeoffs: seq<Tradeoff>, cheapest: Option<nat>,
      fastest: Option<nat>, unambiguous: bool)
    returns (plan: Plan)
    requires |results| == |tradeoffs| == 6 && forall i :: 0 <= i < 6 ==> results[i].name == NAMES[i]
    requires (cheapest.Some? ==> cheapest.value < 6) && (fastest.Some? ==> fastest.value < 6)
    ensures |plan.results| == 6 && forall i :: 0 <= i < 6 ==> plan.results[i] == Reported(s, results[i], tradeoffs[i])
    ensures plan.cheapest == plan.recommended == Shown(s, results, tradeoffs, cheapest)
    ensures plan.fastest == Shown(s, results, tradeoffs, fastest)
    ensures plan.unambiguous == unambiguous
  {
    hide Reported;
    var shown: seq<ReportedResult> := [];
    var cheapestShown: Option<ReportedResult>, fastestShown: Option<ReportedResult> := None, None;
    for i := 0 to 6
      invariant |shown| == i && forall k :: 0 <= k < i ==> shown[k] == Reported(s, results[k], tradeoffs[k])
      invariant cheapestShown == Shown(s, results[..i], tradeoffs[..i], cheapest)
      invariant fastestShown == Shown(s, results[..i], tradeoffs[..i], fastest)
    {
      var result := Describe(s, results[i], tradeoffs[i]);
      shown := shown + [result];
      if cheapest.Some? { NameFindsResult(results, i, cheapest.value); }
      if fastest.Some? { NameFindsResult(results, i, fastest.value); }
      if cheapest.Some? && results[i].name == results[cheapest.value].name {
        cheapestShown := Some(result);
      }
      if fastest.Some? && results[i].name == results[fastest.value].name {
        fastestShown := Some(result);
      }
    }
    plan := Plan(shown, cheapestShown, cheapestShown, fastestShown, unambiguous);
  }

  method Describe(s: Store, r: AlgorithmResult, t: Tradeoff) returns (result: ReportedResult)
    ensures result == Reported(s, r, t)
  {
    var groups := DescribeGroups(s, r.groups);
    result := ReportedResult(r.name, groups, r.metrics, r.error != "", r.error, r.dominated, r.dominatedBy, t);
  }

  // ---- what the report is good for ----

  /** If any partition is feasible, the one holding everything is. */
  lemma OneGroupIsFeasibleFirst(app: Application, one: seq<Group>, q: seq<Group>)
    requires WellFormed(app) && app.functions != [] && IsPartition(app, one) && |one| == 1
    requires IsPartition(app, q)
    ensures Latency(app, one) <= Latency(app, q)
    ensures Feasible(app, q) ==> Feasible(app, one)
  {
    hide WellFormed, Latency, GroupMemory, SeqSum;
    var g := one[0];
    assert one == [g];
    HeldByOne(app, g);
    BaselinesBoundTheSpace(app, q, g);
    if Feasible(app, q) {
      forall f | f in app.functions ensures At(app.nodes, f).memoryMB <= app.maxMemoryMB { MemberFits(app, q, f); }
      MemberFits(app, q, app.functions[0]);
      MemoryFitsIsPartitionFree(app, one);
    }
  }

  lemma HeldByOne(app: Application, g: Group)
    requires IsPartition(app, [g])
    ensures Distinct(g) && Elems(g) == Elems(app.functions)
  {
    FamilyGroupDistinct([g], 0);
    forall f ensures f in g <==> f in Members([g]) {
      if f in g { assert f in [g][0]; }
    }
  }

  lemma OptionIsFeasible(app: Application, consulted: Consultation, results: seq<AlgorithmResult>, i: nat)
    requires WellFormed(app) && AllReachable(app) && Trusted(consulted) && IsReport(app, consulted, results)
    requires i < |results| && IsOption(results[i])
    ensures IsPartition(app, results[i].groups) && Feasible(app, results[i].groups)
  {
    hide WellFormed, CallsMayRepeat, AllReachable, Trusted, Feasible, IsPartition, NoWorseThanAlone, NoFeasibleIsBetter,
      TotalCostUSD, Latency;
    assert Honest(app, results[i]) && Covers(app, results[i]);
  }

  lemma SingletonIsOption(app: Application, consulted: Consultation, results: seq<AlgorithmResult>, q: seq<Group>)
    requires WellFormed(app) && app.functions != [] && IsReport(app, consulted, results)
    requires IsPartition(app, q) && Feasible(app, q)
    ensures |results| == 6 && IsOption(results[1]) && results[1].metrics.latencyMS <= Latency(app, q)
  {
    hide WellFormed, CallsMayRepeat, AllReachable, Trusted, Feasible, IsPartition, NoWorseThanAlone, NoFeasibleIsBetter,
      TotalCostUSD, Latency;
    assert Honest(app, results[1]) && Covers(app, results[1]);
    OneGroupIsFeasibleFirst(app, results[1].groups, q);
  }

  /** The service has something to recommend exactly when some partition is feasible, with or
      without a solver, provided the root reaches every function. */
  lemma RecommendsExactlyWhenFeasible(app: Application, consulted: Consultation, results: seq<AlgorithmResult>)
    requires WellFormed(app) && AllReachable(app) && Trusted(consulted) && IsReport(app, consulted, results)
    ensures (exists i :: 0 <= i < |results| && IsOption(results[i])) <==>
      exists q :: IsPartition(app, q) && Feasible(app, q)
  {
    hide WellFormed, CallsMayRepeat, AllReachable, Trusted, Feasible, IsPartition, IsReport, IsOption;
    if i: nat :| i < |results| && IsOption(results[i]) {
      OptionIsFeasible(app, consulted, results, i);
    }
    if q :| IsPartition(app, q) && Feasible(app, q) {
      RootMeansFunctions(app);
      SingletonIsOption(app, consulted, results, q);
    }
  }

  /** What the root's reach decides, exactly: on a rooted application there is something to recommend
      when the path is fast enough and the functions within reach fit, whereas some partition is
      feasible when all functions fit. The difference is a function out of reach that fits nowhere:
      only GreedyTP, which leaves it out, then has an answer. */
  lemma RecommendsExactlyWhenReachableFit(app: Application, consulted: Consultation, results: seq<AlgorithmResult>)
    requires IsRooted(app) && Trusted(consulted) && IsReport(app, consulted, results)
    ensures (exists i :: 0 <= i < |results| && IsOption(results[i])) <==> FastEnough(app) && ReachableFit(app)
    ensures (exists q :: IsPartition(app, q) && Feasible(app, q)) <==>
      FastEnough(app) && forall f :: f in app.functions ==> At(app.nodes, f).memoryMB <= app.maxMemoryMB
  {
    hide WellFormed, CallsMayRepeat, AllReachable, Trusted, Feasible, IsPartition, Acyclic, PathIsWalk, CriticalPath,
      GroupRuntimeMs, ReachableFit, NoWorseThanAlone, NoFeasibleIsBetter, Honest, Covers;
    SomeFeasibleExactly(app);
    if i: nat :| i < |results| && IsOption(results[i]) {
      if i != 3 {
        CoveringOptionIsFeasible(app, consulted, results, i);
        AllFitReachable(app);
      }
    }
  }

  lemma CoveringOptionIsFeasible(app: Application, consulted: Consultation, results: seq<AlgorithmResult>, i: nat)
    requires WellFormed(app) && Trusted(consulted) && IsReport(app, consulted, results)
    requires i < |results| && IsOption(results[i]) && i != 3
    ensures IsPartition(app, results[i].groups) && Feasible(app, results[i].groups)
  {
    hide WellFormed, CallsMayRepeat, AllReachable, Trusted, Feasible, IsPartition, NoWorseThanAlone, NoFeasibleIsBetter,
      TotalCostUSD, Latency, IsRooted, ReachableFit;
    assert Honest(app, results[i]) && Covers(app, results[i]);
  }

  lemma AllFitReachable(app: Application)
    requires WellFormed(app) && RootFunction(app).Some?
    requires forall f :: f in app.functions ==> At(app.nodes, f).memoryMB <= app.maxMemoryMB
    ensures ReachableFit(app)
  {
    hide WellFormed;
    var root := RootFunction(app).value;
    RootIsFunction(app.nodes, app.functions);
    forall f | Reaches(app.nodes, {root}, f) ensures At(app.nodes, f).memoryMB <= app.maxMemoryMB {
      var b, n: nat :| b in {root} && Walk(app.nodes, b, f, n);
      WalkInside(app, b, f, n);
    }
  }

  lemma RootMeansFunctions(app: Application)
    requires AllReachable(app)
    ensures app.functions != []
  { }

  /** The fastest result is as fast as any feasible partition can be. */
  lemma FastestIsUnbeatable(app: Application, consulted: Consultation, results: seq<AlgorithmResult>, f: nat,
      q: seq<Group>)
    requires WellFormed(app) && app.functions != [] && IsReport(app, consulted, results)
    requires FirstFastest(results, |results|, f) && IsPartition(app, q) && Feasible(app, q)
    ensures results[f].metrics.latencyMS <= Latency(app, q)
  {
    hide WellFormed, Feasible, IsPartition, Latency, IsReport, IsOption;
    SingletonIsOption(app, consulted, results, q);
  }

  /** With an exact solver that answers what it is asked and a path made of calls, the recommendation is
      a feasible partition and no feasible partition is cheaper. */
  lemma RecommendationIsOptimal(app: Application, consulted: Consultation, results: seq<AlgorithmResult>, c: nat,
      q: seq<Group>)
    requires WellFormed(app) && AllReachable(app) && IsReport(app, consulted, results)
    requires Trusted(consulted) && Answered(app, consulted.solver, consulted.asked)
    requires PairsAreCalls(app.nodes, CriticalPath(app))
    requires FirstCheapest(results, |results|, c) && IsPartition(app, q) && Feasible(app, q)
    ensures IsPartition(app, results[c].groups) && Feasible(app, results[c].groups)
    ensures results[c].metrics.totalCostUSD == TotalCostUSD(app, results[c].groups) <= TotalCostUSD(app, q)
  {
    hide WellFormed, CallsMayRepeat, AllReachable, Feasible, IsPartition, NoWorseThanAlone, TotalCostUSD, Latency,
      Trusted, PairsAreCalls;
    assert Honest(app, results[5]) && IsOption(results[5]);
    OptionIsFeasible(app, consulted, results, c);
    assert Honest(app, results[c]);
  }

  // ---- a plan that leaves a function out ----

  const USED := Id("used")
  const IDLE := Id("idle")

  /** Two functions that do not call each other, only one of them on the critical path. */
  function Disconnected(): Application {
    Application(
      map[USED := Node(128, 1000, 1.0, 0.0, map[], None, []), IDLE := Node(128, 1000, 1.0, 0.0, map[], None, [])],
      [USED, IDLE], [USED], 1024, 2000, 10)
  }

  lemma DisconnectedShape()
    ensures WellFormed(Disconnected()) && USED != IDLE
    ensures CriticalPath(Disconnected()) == [USED] && RootFunction(Disconnected()) == Some(USED)
    ensures Elems(Disconnected().functions) == {USED, IDLE}
  {
    var app := Disconnected();
    assert USED.name[0] != IDLE.name[0];
    assert app.functions[0] == USED && app.functions[1] == IDLE;
    assert [USED][..0] == [] && [USED, IDLE][..1] == [USED];
    assert FirstParentless(app.nodes, [USED]) == Some(USED);
    assert Elems<Id>([]) == {};
  }

  lemma NothingCalled(v: Id, n: nat)
    ensures Walk(Disconnected().nodes, USED, v, n) ==> v == USED
  {
    assert forall w :: At(Disconnected().nodes, w).children == [];
  }

  /** GreedyTP drops the function out of reach, in every run, and by that undercuts every partition. */
  lemma DroppedFunctionLooksCheap(run: GreedyTPResult.Run, q: seq<Group>)
    requires GreedyTPResult.RunOK(Disconnected(), run) && IsPartition(Disconnected(), q)
    ensures Members(GreedyTPResult.Outcome(Disconnected(), run)) == {USED}
    ensures TotalCostUSD(Disconnected(), GreedyTPResult.Outcome(Disconnected(), run)) < TotalCostUSD(Disconnected(), q)
  {
    hide GreedyTPResult.Outcome, IsPartition, Family, Members, WellFormed, TotalCostUSD, Sum, MinWCut.Unavoidable,
      BillIn;
    var app, gs := Disconnected(), GreedyTPResult.Outcome(Disconnected(), run);
    DisconnectedShape();
    DropsIdle(run);
    CostIsSumOfBills(app, gs);
    SumSingle(USED, BillIn(app.nodes, gs));
    MinWCut.CostLowerBound(app, q);
    assert {USED} + {IDLE} == {USED, IDLE};
    SumUnion({USED}, {IDLE}, MinWCut.Unavoidable(app.nodes));
    SumSingle(USED, MinWCut.Unavoidable(app.nodes));
    SumSingle(IDLE, MinWCut.Unavoidable(app.nodes));
    UsedBill(gs);
  }

  lemma DropsIdle(run: GreedyTPResult.Run)
    requires GreedyTPResult.RunOK(Disconnected(), run)
    ensures Family(GreedyTPResult.Outcome(Disconnected(), run))
    ensures Members(GreedyTPResult.Outcome(Disconnected(), run)) == {USED}
  {
    hide GreedyTPResult.Outcome, Family, Members, WellFormed, Walk;
    var app := Disconnected();
    DisconnectedShape();
    GreedyTPResult.HoldsExactlyReachable(app, run);
    assert run.barriers == {USED};
    forall v ensures Reaches(app.nodes, run.barriers, v) <==> v == USED {
      forall n: nat ensures Walk(app.nodes, USED, v, n) ==> v == USED { NothingCalled(v, n); }
      SelfWalk(app.nodes, USED);
    }
  }

  lemma SelfWalk(s: Store, v: Id)
    ensures Walk(s, v, v, 0)
  { }

  /** Alone in the plan, the reachable function costs what it costs in any plan; the other one would
      have cost something. */
  lemma UsedBill(gs: seq<Group>)
    requires Family(gs) && Members(gs) == {USED}
    ensures BillIn(Disconnected().nodes, gs)(USED) == MinWCut.Unavoidable(Disconnected().nodes)(USED)
    ensures MinWCut.Unavoidable(Disconnected().nodes)(IDLE) > 0.0
  {
    hide Sum, Family, WellFormed, Elems;
    assert USED.name[0] != IDLE.name[0];
    UsedAlone(gs);
    assert Members(gs) - {USED} == {};
    NothingToSum(Fix(Transfer(Disconnected().nodes), USED));
  }

  lemma UsedAlone(gs: seq<Group>)
    requires Family(gs) && Members(gs) == {USED}
    ensures Block(gs, USED) == {USED}
  {
    var o := Owner(gs, USED);
    assert USED in Members(gs);
    forall f | f in gs[o.value] ensures f == USED { assert f in Members(gs); }
  }

  lemma NothingToSum(h: Id -> real)
    ensures Sum({}, h) == 0.0
  { }
}
