/** Two functions, one calling the other, fast enough only when fused: an input on which CSP gives up
    and GreedyTP overpays. */
module TightChain {
  import opened Sums
  import opened Domain
  import opened Merging
  import opened Coarsening
  import opened Bfs
  import opened GreedyTPResult
  import opened GreedyTPCost
  import opened Csp
  import opened CspSearch
  import CostlessCsp
  import opened CspMeaning

  ghost predicate IsTightChain(app: Application, a: Id, b: Id) {
    && WellFormed(app) && a != b
    && app.functions == [a, b] && app.criticalPathIDs == [a, b] && app.nodes.Keys == {a, b}
    && At(app.nodes, a).parent == None && At(app.nodes, a).children == [b]
    && At(app.nodes, b).parent == Some(a) && At(app.nodes, b).children == []
    && At(app.nodes, a).memoryMB <= app.maxMemoryMB && At(app.nodes, b).memoryMB <= app.maxMemoryMB
    && var base := At(app.nodes, a).runtimeMs + At(app.nodes, b).runtimeMs;
      base <= app.maxLatencyMS < base + app.networkHopMS
  }

  lemma ChainShape(app: Application, a: Id, b: Id)
    requires IsTightChain(app, a, b)
    ensures CriticalPath(app) == [a, b] && RootFunction(app) == Some(a)
    ensures GroupRuntimeMs(app.nodes, [a, b]) == At(app.nodes, a).runtimeMs + At(app.nodes, b).runtimeMs
    ensures Singles(app.functions) == [[a], [b]]
  {
    hide WellFormed;
    assert [a, b][..1] == [a] && [a][..0] == [];
    assert Known(app.functions, [a]) == [a];
    assert FirstParentless(app.nodes, [a]) == Some(a);
    assert GroupRuntimeMs(app.nodes, [a]) == At(app.nodes, a).runtimeMs;
  }

  /** Some partition is feasible: the fused pair. */
  lemma FusedIsFeasible(app: Application, a: Id, b: Id)
    requires IsTightChain(app, a, b)
    ensures IsPartition(app, [app.functions]) && Feasible(app, [app.functions])
  {
    hide Feasible, Family;
    ChainShape(app, a, b);
    FunctionsDistinct(app);
    OneGroupFeasible(app);
  }

  /** CSP answers exactly when fusing the pair pays, although a feasible partition always exists. */
  lemma CspAnswersExactlyWhenPairPays(app: Application, a: Id, b: Id, labels: Frontiers, generated: set<Item>,
      best: Option<CspLabel>)
    requires IsTightChain(app, a, b)
    requires LoopState(app, [a, b], labels, [], generated) && Item(a, StartLabel(app, a)) in generated
    requires CostlessCsp.Outcome(app, labels, best)
    ensures best.Some? <==> MergeProfitUSD(app.nodes, [a], [b]) > 0.0
  {
    hide MergeProfitUSD, LoopState, StartLabel, CostlessCsp.Outcome, WellFormed, CriticalPath, GroupRuntimeMs;
    ChainShape(app, a, b);
    var chain := [a, b];
    assert chain[..1] == [a] && [chain[1]] == [b];
    AnswersExactlyWhenPrefixesPay(app, labels, generated, best);
  }

  /** GreedyTP grows the pair into one group whatever that costs: its bill is the unfused one less
      the merge profit, so it does worse than nothing exactly when fusing the pair does not pay. */
  lemma GreedyTPFusesRegardless(app: Application, a: Id, b: Id, run: Run)
    requires IsTightChain(app, a, b) && RunOK(app, run)
    ensures IsPartition(app, Outcome(app, run))
    ensures TotalCostUSD(app, Outcome(app, run))
            == TotalCostUSD(app, Singles(app.functions)) - MergeProfitUSD(app.nodes, [a], [b])
    ensures TotalCostUSD(app, Outcome(app, run)) <= TotalCostUSD(app, Singles(app.functions)) <==>
      MergeProfitUSD(app.nodes, [a], [b]) >= 0.0
  {
    hide MergeProfitUSD, TotalCostUSD, RunOK, Outcome, WellFormed, Family, GroupRuntimeMs, CriticalPath, Reaches;
    ChainShape(app, a, b);
    RootReachesPair(app, a, b);
    NoRoomMeansSingleton(app, run);
    FusedCost(app, a, b);
  }

  lemma RootReachesPair(app: Application, a: Id, b: Id)
    requires IsTightChain(app, a, b)
    ensures Reaches(app.nodes, {a}, a) && Reaches(app.nodes, {a}, b)
  {
    assert Walk(app.nodes, a, a, 0);
    assert Walk(app.nodes, a, b, 1) by { assert b in At(app.nodes, a).children; }
  }

  lemma FusedCost(app: Application, a: Id, b: Id)
    requires WellFormed(app) && app.functions == [a, b]
    ensures TotalCostUSD(app, [[a, b]])
            == TotalCostUSD(app, Singles(app.functions)) - MergeProfitUSD(app.nodes, [a], [b])
  {
    hide MergeProfitUSD, TotalCostUSD, WellFormed;
    var none := Singles(app.functions);
    assert none == [[a], [b]];
    FunctionsDistinct(app);
    SinglesPartition(app);
    MergeProfitIsCostDrop(app, none, 0, 1);
    assert Merged(none, 0, 1) == [[a, b]] by { assert [a] + [b] == [a, b]; }
  }

  // ---- what fusing the pair is worth ----

  ghost function PairExecution(s: Store, a: Id, b: Id): real {
    ExecutionCostUSD(Max(At(s, a).memoryMB, At(s, b).memoryMB), At(s, a).runtimeMs + At(s, b).runtimeMs)
  }

  lemma OneTerm<T>(x: T, h: T -> real)
    ensures SeqSum([x], h) == h(x)
  {
    SeqSumSnoc([], x, h);
    assert [] + [x] == [x];
  }

  lemma OneMember(s: Store, a: Id)
    ensures GroupExecutionCostUSD(s, [a]) == ExecutionCostUSD(At(s, a).memoryMB, At(s, a).runtimeMs)
    ensures RequestCostUSD(s, [a]) == RequestCharge(EntryRateAt(s, {a}, a))
  {
    hide ExecutionCostUSD, SeqSum, EntryRateAt, RequestCharge;
    GrownOne(s, a);
    RuntimeSnoc(s, [], a);
    assert [] + [a] == [a] && Elems([a]) == {a};
    OneTerm(a, EntryRate(s, Elems([a])));
  }

  lemma TwoMembersRun(s: Store, a: Id, b: Id)
    ensures GroupMemory(s, [a] + [b]) == Max(At(s, a).memoryMB, At(s, b).memoryMB)
    ensures GroupRuntimeMs(s, [a] + [b]) == At(s, a).runtimeMs + At(s, b).runtimeMs
  {
    GrownOne(s, a);
    RuntimeSnoc(s, [], a);
    assert [] + [a] == [a];
    RuntimeSnoc(s, [a], b);
    MemorySnoc(s, [a], b);
  }

  lemma TwoMembers(s: Store, a: Id, b: Id)
    ensures GroupExecutionCostUSD(s, [a] + [b]) == PairExecution(s, a, b)
    ensures RequestCostUSD(s, [a] + [b]) == RequestCharge(EntryRateAt(s, {a, b}, a) + EntryRateAt(s, {a, b}, b))
  {
    hide ExecutionCostUSD, GroupMemory, GroupRuntimeMs, SeqSum, EntryRateAt, RequestCharge;
    TwoMembersRun(s, a, b);
    assert Elems([a] + [b]) == {a, b};
    var h := EntryRate(s, Elems([a] + [b]));
    OneTerm(a, h);
    SeqSumSnoc([a], b, h);
  }

  ghost function PairRate(s: Store, a: Id, b: Id): real {
    EntryRateAt(s, {a, b}, a) + EntryRateAt(s, {a, b}, b)
  }

  lemma TwoProfit(s: Store, a: Id, b: Id)
    ensures MergeProfitUSD(s, [a], [b]) ==
      Exchange(s)(a, b)
      + RequestCharge(EntryRateAt(s, {a}, a)) + RequestCharge(EntryRateAt(s, {b}, b)) - RequestCharge(PairRate(s, a, b))
      - (PairExecution(s, a, b)
         - ExecutionCostUSD(At(s, a).memoryMB, At(s, a).runtimeMs)
         - ExecutionCostUSD(At(s, b).memoryMB, At(s, b).runtimeMs))
  {
    hide ExecutionCostUSD, GroupExecutionCostUSD, RequestCostUSD, PairExecution, EntryRateAt, RequestCharge;
    OneMember(s, a);
    OneMember(s, b);
    TwoMembers(s, a, b);
    OneTerm(a, SeqRow([b], Exchange(s)));
    OneTerm(b, Fix(Exchange(s), a));
  }

  /** The callee's request and the transfer are saved; both run at the larger memory. */
  lemma PairProfit(s: Store, a: Id, b: Id)
    requires a != b && At(s, a).parent == None && At(s, b).parent == Some(a)
    ensures MergeProfitUSD(s, [a], [b]) ==
      Exchange(s)(a, b) + RequestCharge(Rate(s, b))
      - (PairExecution(s, a, b)
         - ExecutionCostUSD(At(s, a).memoryMB, At(s, a).runtimeMs)
         - ExecutionCostUSD(At(s, b).memoryMB, At(s, b).runtimeMs))
  {
    hide ExecutionCostUSD, PairExecution, MergeProfitUSD;
    TwoProfit(s, a, b);
  }

  const CALLER := Id("caller")
  const CALLEE := Id("callee")

  /** A 128 MB function calling a 1024 MB one, a second each, with 2 s in all and 10 ms a hop. */
  function Mismatched(): Application {
    Application(
      map[CALLER := Node(128, 1000, 1.0, 0.0, map[CALLEE := 0], None, [CALLEE]),
          CALLEE := Node(1024, 1000, 1.0, 0.0, map[], Some(CALLER), [])],
      [CALLER, CALLEE], [CALLER, CALLEE], 1024, 2000, 10)
  }

  lemma MismatchedIsTight()
    ensures IsTightChain(Mismatched(), CALLER, CALLEE)
  {
    assert CALLER.name[5] != CALLEE.name[5];
    var app := Mismatched();
    assert app.functions[0] == CALLER && app.functions[1] == CALLEE;
    assert At(app.nodes, CALLER).children[0] == CALLEE;
    assert Elems([CALLEE]) == {CALLEE} && Elems<Id>([]) == {};
  }

  lemma MismatchedDoesNotPay()
    ensures MergeProfitUSD(Mismatched().nodes, [CALLER], [CALLEE]) < 0.0
  {
    var s := Mismatched().nodes;
    assert CALLER.name[5] != CALLEE.name[5];
    PairProfit(s, CALLER, CALLEE);
    assert ExecutionCostUSD(1024, 2000) == 0.00001667 * 2.0;
    assert ExecutionCostUSD(1024, 1000) == 0.00001667 * 1.0;
    assert ExecutionCostUSD(128, 1000) == 0.00001667 * 0.125;
  }

  /** On this application a feasible partition exists, yet CSP finds none and GreedyTP's answer
      costs more than leaving everything alone, in every run of either. */
  lemma HeuristicsFall(run: Run, labels: Frontiers, generated: set<Item>, best: Option<CspLabel>)
    requires RunOK(Mismatched(), run)
    requires CostlessCsp.Outcome(Mismatched(), labels, best)
    requires LoopState(Mismatched(), [CALLER, CALLEE], labels, [], generated)
    requires Item(CALLER, StartLabel(Mismatched(), CALLER)) in generated
    ensures IsPartition(Mismatched(), [Mismatched().functions]) && Feasible(Mismatched(), [Mismatched().functions])
    ensures best.None?
    ensures TotalCostUSD(Mismatched(), Outcome(Mismatched(), run))
            > TotalCostUSD(Mismatched(), Singles(Mismatched().functions))
  {
    hide *;
    MismatchedIsTight();
    MismatchedDoesNotPay();
    FusedIsFeasible(Mismatched(), CALLER, CALLEE);
    CspAnswersExactlyWhenPairPays(Mismatched(), CALLER, CALLEE, labels, generated, best);
    GreedyTPFusesRegardless(Mismatched(), CALLER, CALLEE, run);
  }
}
