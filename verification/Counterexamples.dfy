/** Inputs on which a promise fails. */
module Counterexamples {
  import opened Sums
  import opened Domain
  import opened Coarsening
  import opened CostModel
  import opened TradeoffReport
  import opened GraphToApp
  import opened Csp
  import opened CspSearch
  import opened CspMeaning
  import opened CspOptimal
  import opened TightChain
  import opened CostlessCsp
  import opened GreedyTPCost
  import opened Billing
  import LinearExpr
  import IlpModel
  import IlpExact
  import IlpOptimal

  const ALPHA := Id("alpha")
  const BETA := Id("beta")

  lemma TwoNames()
    ensures ALPHA != BETA
  {
    assert ALPHA.name[0] != BETA.name[0];
  }

  // ---- a critical path that comes back ----

  /** The path goes from `ALPHA` to `BETA` and back, and the cap is the runtime of one of them. */
  ghost predicate ComesBack(app: Application) {
    && CriticalPath(app) == [ALPHA, BETA, ALPHA]
    && At(app.nodes, ALPHA).runtimeMs == 1000 && At(app.nodes, BETA).runtimeMs == 1000
    && app.maxLatencyMS == 1000 && app.networkHopMS >= 0
  }

  lemma PathTakesThreeSeconds(app: Application)
    requires ComesBack(app)
    ensures GroupRuntimeMs(app.nodes, CriticalPath(app)) == 3000
  {
    hide CriticalPath, Known;
    RuntimeSnoc(app.nodes, [], ALPHA);
    RuntimeSnoc(app.nodes, [ALPHA], BETA);
    RuntimeSnoc(app.nodes, [ALPHA, BETA], ALPHA);
    assert [] + [ALPHA] == [ALPHA] && [ALPHA] + [BETA] == [ALPHA, BETA];
    assert [ALPHA, BETA] + [ALPHA] == [ALPHA, BETA, ALPHA];
  }

  /** The position map keeps the last occurrence, so the first label is already an end label: every run
      answers, and no list of groups at all meets the cap. */
  lemma AnswerOverrunsItsCap(app: Application, labels: Frontiers, generated: set<Item>, best: Option<CspLabel>,
      groups: seq<Group>)
    requires ComesBack(app)
    requires LoopState(app, CriticalPath(app), labels, [], generated) && Outcome(app, labels, best)
    requires Item(ALPHA, StartLabel(app, ALPHA)) in generated
    ensures best.Some? && Latency(app, groups) > app.maxLatencyMS
  {
    hide LoopState, Outcome, CriticalPath, PathCuts, GroupRuntimeMs;
    PathTakesThreeSeconds(app);
    HopsMonotone(0, PathCuts(groups, CriticalPath(app)), app.networkHopMS);
    BestOfAllGenerated(app, labels, generated, best);
    assert Item(ALPHA, StartLabel(app, ALPHA)).mark.latency == 1000;
  }

  function Revisited(): Application {
    Application(
      map[ALPHA := Node(128, 1000, 1.0, 0.0, map[], None, []), BETA := Node(128, 1000, 1.0, 0.0, map[], None, [])],
      [ALPHA, BETA], [ALPHA, BETA, ALPHA], 1024, 1000, 10)
  }

  /** Such a path is no obstacle to being well formed. */
  lemma RevisitedIsWellFormed()
    ensures WellFormed(Revisited()) && ComesBack(Revisited())
  {
    hide WellFormedNode, Known;
    TwoNames();
    var app := Revisited();
    assert app.functions[0] == ALPHA && app.functions[1] == BETA;
    LoneNode(app, ALPHA);
    LoneNode(app, BETA);
    KnownWhenAllAre(app.functions, [ALPHA, BETA, ALPHA]);
  }

  lemma LoneNode(app: Application, f: Id)
    requires At(app.nodes, f) == Node(128, 1000, 1.0, 0.0, map[], None, [])
    ensures WellFormedNode(app, f)
  {
    assert Elems<Id>([]) == {};
  }

  // ---- the same from a graph ----

  function ReturningGraph(): Graph {
    Graph(
      map[ALPHA := GraphNode(128, 1000, 0), BETA := GraphNode(128, 1000, 0)],
      [], [ALPHA, BETA, ALPHA], Some(Constraints(1024, 1000, 10, 0.0)))
  }

  lemma ReturningPath()
    ensures InOrder(ReturningGraph().nodes.Keys, [ALPHA, BETA, ALPHA]) == [ALPHA, BETA, ALPHA]
  {
    var nodes := ReturningGraph().nodes.Keys;
    assert ALPHA in nodes && BETA in nodes;
    TwoNames();
    assert [ALPHA, BETA, ALPHA][..2] == [ALPHA, BETA] && [ALPHA, BETA][..1] == [ALPHA] && [ALPHA][..0] == [];
    assert InOrder(nodes, [ALPHA]) == [ALPHA];
    assert InOrder(nodes, [ALPHA, BETA]) == [ALPHA, BETA];
  }

  /** The conversion lets the path through, but lists `ALPHA` twice: what it builds is not well formed,
      and CSP still answers over the cap on it. */
  lemma ReturningGraphIsBuilt(app: Application)
    requires IsBuiltFrom(ReturningGraph(), app)
    ensures ComesBack(app) && !Distinct(app.functions) && !WellFormed(app)
  {
    hide Built, IsOrdering, CriticalPath, InOrder, WellFormedNode;
    var g := ReturningGraph();
    TwoNames();
    ReturningPath();
    CriticalPathIsKept(g, app);
    assert app.functions[0] == CriticalPath(app)[0] && app.functions[2] == CriticalPath(app)[2];
    BuiltNode(g, app.functions, ALPHA);
    BuiltNode(g, app.functions, BETA);
  }

  /** On what the conversion builds well formed, the critical path repeats nothing. */
  lemma WellFormedPathsDoNotRepeat(g: Graph, app: Application)
    requires IsBuiltFrom(g, app) && WellFormed(app)
    ensures Distinct(CriticalPath(app)) && !Repeats(CriticalPath(app))
  {
    hide Built, WellFormedNode, IsOrdering;
    CriticalPathIsKept(g, app);
    WellFormedExactly(g, app);
  }

  // ---- a report of hops that were never there ----

  function StutteringGraph(): Graph {
    Graph(map[ALPHA := GraphNode(128, 1000, 0)], [], [ALPHA, ALPHA], Some(Constraints(1024, 30000, 10, 0.0)))
  }

  lemma StutteringPath()
    ensures InOrder(StutteringGraph().nodes.Keys, [ALPHA, ALPHA]) == [ALPHA, ALPHA]
  {
    var nodes := StutteringGraph().nodes.Keys;
    assert ALPHA in nodes;
    assert [ALPHA, ALPHA][..1] == [ALPHA] && [ALPHA][..0] == [];
    assert InOrder(nodes, [ALPHA]) == [ALPHA];
  }

  lemma StutteringGraphIsBuilt(app: Application)
    requires IsBuiltFrom(StutteringGraph(), app)
    ensures CriticalPath(app) == [ALPHA, ALPHA] && app.functions == [ALPHA, ALPHA] && app.networkHopMS == 10
  {
    hide Built, CriticalPath, InOrder, Distinct;
    var g, path := StutteringGraph(), [ALPHA, ALPHA];
    StutteringPath();
    CriticalPathIsKept(g, app);
    var rest := app.functions[2..];
    assert Elems(path) == {ALPHA};
    HasMember(rest);
    assert forall f :: f in rest ==> f in Elems(rest);
    assert app.functions == path + rest;
  }

  /** The report credits NoFusion itself with a removed hop, though its latency is its own: with a
      repeated function the figure explains nothing. */
  lemma HopsRemovedFromNothing(app: Application)
    requires IsBuiltFrom(StutteringGraph(), app)
    ensures var none := Singles(app.functions);
      && NamesTellApart(none, CriticalPath(app))
      && TradeoffOf(app, none).hopsRemoved == 1
      && Latency(app, none) - Latency(app, none) != app.networkHopMS * TradeoffOf(app, none).hopsRemoved
  {
    hide IsBuiltFrom, CriticalPath, TradeoffOf, Latency;
    StutteringGraphIsBuilt(app);
    var none, path := Singles(app.functions), [ALPHA, ALPHA];
    assert ALPHA in none[1];
    HopsOf(app, none);
    assert Repetitions(path) == 1 by { assert path[..1] == [ALPHA]; }
  }

  // ---- programs with solutions but no feasible partition ----

  /** `BETA` is larger than any group may be. */
  function Oversized(): Application {
    Application(
      map[ALPHA := Node(128, 1000, 1.0, 0.0, map[BETA := 0], None, [BETA]),
          BETA := Node(2048, 1000, 1.0, 0.0, map[], Some(ALPHA), [])],
      [ALPHA, BETA], [ALPHA, BETA], 1024, 30000, 10)
  }

  /** `ALPHA` alone is the critical path, and it is slower than the cap. */
  function Rowless(): Application {
    Application(
      map[ALPHA := Node(128, 1000, 1.0, 0.0, map[BETA := 0], None, [BETA]),
          BETA := Node(128, 1000, 1.0, 0.0, map[], Some(ALPHA), [])],
      [ALPHA, BETA], [ALPHA], 1024, 500, 10)
  }

  ghost predicate IsPairOf(app: Application) {
    && app.functions == [ALPHA, BETA] && app.networkHopMS == 10
    && At(app.nodes, ALPHA).children == [BETA] && At(app.nodes, ALPHA).parent == None
    && At(app.nodes, BETA).children == [] && At(app.nodes, BETA).parent == Some(ALPHA)
    && At(app.nodes, ALPHA).dataOutBytes.Keys == {BETA} && At(app.nodes, BETA).dataOutBytes.Keys == {}
    && At(app.nodes, ALPHA).invocationRate == 1.0 && At(app.nodes, BETA).invocationRate == 1.0
    && At(app.nodes, ALPHA).transferUSDPerGiB == 0.0 && At(app.nodes, BETA).transferUSDPerGiB == 0.0
  }

  lemma PairIsWellFormed(app: Application)
    requires IsPairOf(app)
    ensures WellFormed(app)
  {
    TwoNames();
    assert app.functions[0] == ALPHA && app.functions[1] == BETA;
    assert At(app.nodes, ALPHA).children[0] == BETA;
    assert Elems([BETA]) == {BETA} && Elems<Id>([]) == {} && Elems([ALPHA, BETA]) == {ALPHA, BETA};
  }

  /** Nothing in the program limits memory: the solver can answer although no partition is feasible. */
  lemma OversizedIsSolvable(edges: seq<IlpModel.Edge>)
    requires IlpModel.AreEdges(Oversized(), edges)
    ensures exists a :: IlpModel.FeasiblePoint(Oversized(), edges, a)
    ensures !exists q :: IsPartition(Oversized(), q) && Feasible(Oversized(), q)
  {
    hide IlpModel.AreEdges, IlpModel.FeasiblePoint, IlpModel.HasPathEdge, IsPartition, Feasible, WellFormed;
    var app := Oversized();
    TwoNames();
    PairIsWellFormed(app);
    KnownWhenAllAre(app.functions, [ALPHA, BETA]);
    RuntimeSnoc(app.nodes, [], ALPHA);
    RuntimeSnoc(app.nodes, [ALPHA], BETA);
    assert [] + [ALPHA] == [ALPHA] && [ALPHA] + [BETA] == [ALPHA, BETA];
    IlpOptimal.SolvableExactly(app, edges);
    SomeFeasibleExactly(app);
    assert BETA in app.functions && At(app.nodes, BETA).memoryMB > app.maxMemoryMB;
  }

  /** Nor is the cap checked on a path without a call. */
  lemma RowlessIsSolvable(edges: seq<IlpModel.Edge>)
    requires IlpModel.AreEdges(Rowless(), edges)
    ensures exists a :: IlpModel.FeasiblePoint(Rowless(), edges, a)
    ensures !exists q :: IsPartition(Rowless(), q) && Feasible(Rowless(), q)
  {
    hide IlpModel.AreEdges, IlpModel.FeasiblePoint, IsPartition, Feasible, WellFormed;
    var app := Rowless();
    TwoNames();
    PairIsWellFormed(app);
    KnownWhenAllAre(app.functions, [ALPHA]);
    RuntimeSnoc(app.nodes, [], ALPHA);
    assert [] + [ALPHA] == [ALPHA];
    IlpOptimal.SolvableExactly(app, edges);
    SomeFeasibleExactly(app);
  }

  // ---- a path against the calls ----

  /** The critical path runs from the callee to the caller: no pair of it is a call. */
  function Backwards(): Application {
    Mismatched().(criticalPathIDs := [CALLEE, CALLER])
  }

  lemma BackwardsIsWellFormed()
    ensures WellFormed(Backwards()) && Backwards().functions == [CALLER, CALLEE] && CALLER != CALLEE
    ensures CriticalPath(Backwards()) == [CALLEE, CALLER]
    ensures GroupRuntimeMs(Backwards().nodes, [CALLEE, CALLER]) == 2000
  {
    hide WellFormedNode, Known, GroupRuntimeMs;
    var app, s := Backwards(), Mismatched().nodes;
    MismatchedIsTight();
    CallerAndCallee(app);
    KnownWhenAllAre([CALLER, CALLEE], [CALLEE, CALLER]);
    TwoMembersRun(s, CALLEE, CALLER);
    assert [CALLEE] + [CALLER] == [CALLEE, CALLER];
  }

  lemma CallerAndCallee(app: Application)
    requires WellFormed(Mismatched()) && app.nodes == Mismatched().nodes && app.functions == Mismatched().functions
    ensures WellFormedNode(app, CALLER) && WellFormedNode(app, CALLEE)
  {
    assert WellFormedNode(Mismatched(), CALLER) && WellFormedNode(Mismatched(), CALLEE);
  }

  lemma FusedWhenUncut(app: Application, p: seq<Group>)
    requires Distinct(app.functions) && app.functions == [CALLER, CALLEE] && IsPartition(app, p)
    requires !IsCut(p, CALLEE, CALLER)
    ensures forall f :: f in app.functions ==> Block(p, f) == Block([app.functions], f)
  {
    hide Family, Block;
    OneGroupPartition(app, app.functions);
    CutMeaning(p, CALLEE, CALLER);
    assert CALLER in Members(p) && CALLEE in Members(p);
    assert Together(p, CALLEE, CALLER);
    assert forall u, v :: Together(p, u, v) <==> Together(p, v, u);
    forall u, v | u in app.functions && v in app.functions
      ensures Together(p, u, v) <==> Together([app.functions], u, v)
    {
      BlockIsTogether([app.functions], u, v);
      assert Together(p, u, u);
    }
    TogetherSameBlocks(app, p, [app.functions]);
  }

  lemma TwoCuts(groups: seq<Group>, u: Id, v: Id)
    ensures PathCuts(groups, [u, v]) == if IsCut(groups, u, v) then 1 else 0
  {
    assert [u, v][..1] == [u];
  }

  /** A pair of the path that is not a call is charged no hop: every answer an exact solver can give
      here decodes to a partition over the cap, although a feasible one exists. */
  lemma LeastPointIsInfeasible(edges: seq<IlpModel.Edge>, a: LinearExpr.Point)
    requires IlpModel.AreEdges(Backwards(), edges) && IlpOptimal.IsLeastPoint(Backwards(), edges, a)
    ensures IsPartition(Backwards(), [Backwards().functions]) && Feasible(Backwards(), [Backwards().functions])
    ensures IsPartition(Backwards(), IlpExact.Decode(Backwards(), a))
    ensures !Feasible(Backwards(), IlpExact.Decode(Backwards(), a))
  {
    hide IlpOptimal.IsLeastPoint, IlpExact.Decode, WellFormed, TotalCostUSD, MergeProfitUSD, IsPartition, Known,
      GroupRuntimeMs, IsCut, PathCuts, Block;
    var app, p := Backwards(), IlpExact.Decode(Backwards(), a);
    BackwardsIsWellFormed();
    FunctionsDistinct(app);
    SinglesPartition(app);
    OneGroupFeasible(app);
    assert IlpOptimal.MeetsCallCap(app, edges, Singles(app.functions));
    IlpOptimal.LeastPointSolvesCallProblem(app, edges, a, Singles(app.functions));
    FusedCost(app, CALLER, CALLEE);
    MismatchedDoesNotPay();
    TwoCuts(p, CALLEE, CALLER);
    if !IsCut(p, CALLEE, CALLER) {
      FusedWhenUncut(app, p);
      SameBlocksSameCost(app, p, [app.functions]);
    }
  }

  // ---- an answer a cheaper segmentation undercuts ----

  const DELTA := Id("delta")

  /** Three functions in a row: the last is large, most bytes go to it, the middle one is short. */
  function Tapered(): Application {
    Application(
      map[ALPHA := Node(128, 1000, 1.0, 0.01, map[BETA := 0], None, [BETA]),
          BETA := Node(128, 1, 1.0, 0.01, map[DELTA := 2097152], Some(ALPHA), [DELTA]),
          DELTA := Node(1024, 1000, 1.0, 0.01, map[], Some(BETA), [])],
      [ALPHA, BETA, DELTA], [ALPHA, BETA, DELTA], 1024, 2015, 10)
  }

  lemma ThreeNames()
    ensures ALPHA != BETA && ALPHA != DELTA && BETA != DELTA
  {
    assert ALPHA.name[0] != BETA.name[0] && ALPHA.name[0] != DELTA.name[0] && BETA.name[0] != DELTA.name[0];
  }

  ghost function RowExecution(s: Store, a: Id, b: Id, d: Id): real {
    ExecutionCostUSD(Max(Max(At(s, a).memoryMB, At(s, b).memoryMB), At(s, d).memoryMB),
                     At(s, a).runtimeMs + At(s, b).runtimeMs + At(s, d).runtimeMs)
  }

  lemma ThreeMembers(s: Store, a: Id, b: Id, d: Id)
    ensures GroupMemory(s, [a, b, d]) == Max(Max(At(s, a).memoryMB, At(s, b).memoryMB), At(s, d).memoryMB)
    ensures GroupRuntimeMs(s, [a, b, d]) == At(s, a).runtimeMs + At(s, b).runtimeMs + At(s, d).runtimeMs
    ensures GroupExecutionCostUSD(s, [a, b, d]) == RowExecution(s, a, b, d)
    ensures RequestCostUSD(s, [a, b, d]) == RequestCharge(RowRate(s, a, b, d))
  {
    hide ExecutionCostUSD, GroupMemory, GroupRuntimeMs, SeqSum, EntryRateAt, RequestCharge;
    TwoMembersRun(s, a, b);
    RuntimeSnoc(s, [a] + [b], d);
    MemorySnoc(s, [a] + [b], d);
    assert [a] + [b] + [d] == [a, b, d] && [a] + [b] == [a, b];
    assert Elems([a, b, d]) == {a, b, d};
    var h := EntryRate(s, Elems([a, b, d]));
    OneTerm(a, h);
    SeqSumSnoc([a], b, h);
    SeqSumSnoc([a, b], d, h);
  }

  ghost function RowRate(s: Store, a: Id, b: Id, d: Id): real {
    EntryRateAt(s, {a, b, d}, a) + EntryRateAt(s, {a, b, d}, b) + EntryRateAt(s, {a, b, d}, d)
  }

  /** What the two ways of splitting three functions in a row save when joined up again. */
  lemma SplitProfits(s: Store, a: Id, b: Id, d: Id)
    ensures MergeProfitUSD(s, [a, b], [d]) ==
      Exchange(s)(a, d) + Exchange(s)(b, d)
      + RequestCharge(PairRate(s, a, b)) + RequestCharge(EntryRateAt(s, {d}, d)) - RequestCharge(RowRate(s, a, b, d))
      - (RowExecution(s, a, b, d) - PairExecution(s, a, b) - ExecutionCostUSD(At(s, d).memoryMB, At(s, d).runtimeMs))
    ensures MergeProfitUSD(s, [a], [b, d]) ==
      Exchange(s)(a, b) + Exchange(s)(a, d)
      + RequestCharge(EntryRateAt(s, {a}, a)) + RequestCharge(PairRate(s, b, d)) - RequestCharge(RowRate(s, a, b, d))
      - (RowExecution(s, a, b, d) - ExecutionCostUSD(At(s, a).memoryMB, At(s, a).runtimeMs) - PairExecution(s, b, d))
  {
    hide ExecutionCostUSD, GroupExecutionCostUSD, RequestCostUSD, PairExecution, RowExecution, SeqSum, EntryRateAt,
      RequestCharge;
    OneMember(s, a);
    OneMember(s, d);
    TwoMembers(s, a, b);
    TwoMembers(s, b, d);
    ThreeMembers(s, a, b, d);
    assert [a] + [b] == [a, b] && [b] + [d] == [b, d] && [a, b] + [d] == [a, b, d] && [a] + [b, d] == [a, b, d];
    var x := Exchange(s);
    OneTerm(a, SeqRow([d], x));
    SeqSumSnoc([a], b, SeqRow([d], x));
    OneTerm(d, Fix(x, a));
    OneTerm(d, Fix(x, b));
    OneTerm(a, SeqRow([b, d], x));
    OneTerm(b, Fix(x, a));
    SeqSumSnoc([b], d, Fix(x, a));
  }

  lemma TaperedProfits()
    ensures var s := Tapered().nodes;
      && MergeProfitUSD(s, [ALPHA], [BETA]) > 0.0
      && MergeProfitUSD(s, [ALPHA, BETA], [DELTA]) > 0.0
      && MergeProfitUSD(s, [ALPHA], [BETA, DELTA]) < 0.0
  {
    hide MergeProfitUSD;
    var s := Tapered().nodes;
    ThreeNames();
    PairProfit(s, ALPHA, BETA);
    SplitProfits(s, ALPHA, BETA, DELTA);
    assert ExecutionCostUSD(128, 1000) == 0.00001667 * 0.125;
    assert ExecutionCostUSD(128, 1) == 0.00001667 * 0.000125;
    assert ExecutionCostUSD(128, 1001) == 0.00001667 * 0.125125;
    assert ExecutionCostUSD(1024, 1000) == 0.00001667;
    assert ExecutionCostUSD(1024, 1001) == 0.00001667 * 1.001;
    assert ExecutionCostUSD(1024, 2001) == 0.00001667 * 2.001;
    assert DataTransferCostUSD(s, BETA, DELTA) == 0.01 / 512.0;
  }

  lemma TaperedPath()
    ensures CriticalPath(Tapered()) == [ALPHA, BETA, DELTA] && Distinct([ALPHA, BETA, DELTA])
  {
    hide Known;
    ThreeNames();
    KnownWhenAllAre([ALPHA, BETA, DELTA], [ALPHA, BETA, DELTA]);
  }

  lemma TaperedRuntime()
    ensures GroupRuntimeMs(Tapered().nodes, [ALPHA, BETA, DELTA]) == 2001
  {
    hide GroupRuntimeMs;
    var s := Tapered().nodes;
    ThreeNames();
    ThreeMembers(s, ALPHA, BETA, DELTA);
  }

  lemma TaperedIsWellFormed()
    ensures WellFormed(Tapered())
  {
    hide WellFormedNode;
    var app := Tapered();
    ThreeNames();
    assert app.functions[0] == ALPHA && app.functions[1] == BETA && app.functions[2] == DELTA;
    RowNode(app, ALPHA, [BETA]);
    RowNode(app, BETA, [DELTA]);
    RowNode(app, DELTA, []);
  }

  lemma RowNode(app: Application, f: Id, kids: seq<Id>)
    requires var n := At(app.nodes, f);
      && n.invocationRate == 1.0 && n.transferUSDPerGiB == 0.01 && n.children == kids && |kids| <= 1
      && n.dataOutBytes.Keys == (set c | c in kids)
      && (forall c :: c in kids ==> c in app.functions)
      && (n.parent.Some? ==> n.parent.value in app.functions && At(app.nodes, n.parent.value).children == [f])
    ensures WellFormedNode(app, f)
  {
    assert [f][0] == f;
  }

  lemma TaperedPrefixesPay()
    ensures PrefixesPay(Tapered(), [ALPHA, BETA, DELTA])
  {
    hide MergeProfitUSD;
    var chain := [ALPHA, BETA, DELTA];
    ThreeNames();
    TaperedProfits();
    assert chain[..1] == [ALPHA] && chain[..2] == [ALPHA, BETA];
    assert [chain[1]] == [BETA] && [chain[2]] == [DELTA];
    GrownOne(Tapered().nodes, ALPHA);
    TwoMembersRun(Tapered().nodes, ALPHA, BETA);
    assert [ALPHA] + [BETA] == [ALPHA, BETA];
  }

  /** Every run fuses the whole path, although another segmentation meets the cap and costs less: the
      fused label carries no transfer, so it dominates every other, whatever the bills are. */
  lemma AnswerIsUndercut(labels: Frontiers, generated: set<Item>, best: Option<CspLabel>)
    requires Finished(Tapered(), labels, generated, best)
    ensures best.Some? && best.value.partitioning == [[ALPHA, BETA, DELTA]]
    ensures var app := Tapered();
      var cheaper := FinalGroups(app, [[ALPHA], [BETA, DELTA]]);
      && Latency(app, cheaper) == 2011 <= app.maxLatencyMS
      && TotalCostUSD(app, cheaper) < TotalCostUSD(app, FinalGroups(app, best.value.partitioning))
  {
    hide Finished, Latency, TotalCostUSD, FinalGroups, CriticalPath, MergeProfitUSD, PrefixesPay, WellFormed,
      GroupRuntimeMs, CheapestWithin;
    var app, chain := Tapered(), [ALPHA, BETA, DELTA];
    TaperedPath();
    TaperedRuntime();
    TaperedIsWellFormed();
    TaperedPrefixesPay();
    TaperedProfits();
    MergedAnswerCheapestExactly(app, labels, generated, best);
    OneCutUndercutsExactly(app, 1);
    assert chain[..1] == [ALPHA] && chain[1..] == [BETA, DELTA];
  }
}
