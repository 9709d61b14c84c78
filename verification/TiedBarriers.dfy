/** An input on which GreedyTP is not reproducible: a function equally near two barriers. */
module TiedBarriers {
  import opened Sums
  import opened Domain
  import opened Merging
  import opened Coarsening
  import opened GreedyPass
  import opened Bfs
  import opened GreedyTP
  import opened GreedyTPResult
  import opened GreedyTPRuns
  import opened TightChain
  import opened CostModel
  import opened Counterexamples
  import RelayChain

  /** `ALPHA` calls `BETA` and both call `DELTA`, which is off the path; only `BETA` is large. */
  function Tied(): Application {
    Application(
      map[ALPHA := Node(128, 1000, 1.0, 0.0, map[BETA := 0, DELTA := 0], None, [BETA, DELTA]),
          BETA := Node(1024, 1000, 1.0, 0.0, map[DELTA := 0], Some(ALPHA), [DELTA]),
          DELTA := Node(128, 1000, 1.0, 0.0, map[], Some(BETA), [])],
      [ALPHA, BETA, DELTA], [ALPHA, BETA], 1024, 30000, 10)
  }

  const BARRIERS := {ALPHA, BETA}
  const DISTANCES: map<Id, nat> := map[ALPHA := 0, BETA := 0, DELTA := 1]

  function Origins(nearest: Id): map<Id, Id> {
    map[ALPHA := ALPHA, BETA := BETA, DELTA := nearest]
  }

  function Calls(): seq<Candidate> {
    [Candidate(0.0, ALPHA, BETA), Candidate(0.0, ALPHA, DELTA), Candidate(0.0, BETA, DELTA)]
  }

  function WithAlpha(): Run {
    Run(0, BARRIERS, DISTANCES, Origins(ALPHA), [[ALPHA, DELTA], [BETA]], Calls())
  }

  function WithBeta(): Run {
    Run(0, BARRIERS, DISTANCES, Origins(BETA), [[ALPHA], [BETA, DELTA]], Calls())
  }

  lemma TiedIsWellFormed()
    ensures WellFormed(Tied())
  {
    hide WellFormedNode;
    var app := Tied();
    ThreeNames();
    assert app.functions[0] == ALPHA && app.functions[1] == BETA && app.functions[2] == DELTA;
    AlphaNode();
    BetaNode();
    DeltaNode();
  }

  lemma AlphaNode()
    ensures WellFormedNode(Tied(), ALPHA)
  {
    ThreeNames();
    assert Elems([BETA, DELTA]) == {BETA, DELTA};
    assert Elems(Tied().functions) == {ALPHA, BETA, DELTA};
  }

  lemma BetaNode()
    ensures WellFormedNode(Tied(), BETA)
  {
    ThreeNames();
    assert Elems([DELTA]) == {DELTA} && Elems(Tied().functions) == {ALPHA, BETA, DELTA};
    assert [BETA, DELTA][0] == BETA;
  }

  lemma DeltaNode()
    ensures WellFormedNode(Tied(), DELTA)
  {
    ThreeNames();
    assert Elems<Id>([]) == {};
    assert [DELTA][0] == DELTA;
  }

  lemma TiedPath()
    ensures CriticalPath(Tied()) == [ALPHA, BETA] && RootFunction(Tied()) == Some(ALPHA)
    ensures GroupRuntimeMs(Tied().nodes, [ALPHA, BETA]) == 2000
  {
    hide Known, GroupRuntimeMs;
    var s := Tied().nodes;
    ThreeNames();
    KnownWhenAllAre([ALPHA, BETA, DELTA], [ALPHA, BETA]);
    TwoMembersRun(s, ALPHA, BETA);
    assert [ALPHA] + [BETA] == [ALPHA, BETA];
    TiedRoot();
  }

  lemma TiedRoot()
    ensures FirstParentless(Tied().nodes, [ALPHA, BETA, DELTA]) == Some(ALPHA)
  {
    var s := Tied().nodes;
    assert [ALPHA, BETA, DELTA][..2] == [ALPHA, BETA] && [ALPHA, BETA][..1] == [ALPHA] && [ALPHA][..0] == [];
    assert FirstParentless(s, [ALPHA]) == Some(ALPHA);
    assert FirstParentless(s, [ALPHA, BETA]) == Some(ALPHA);
  }

  // ---- both runs happen ----

  lemma OneStep(s: Store, u: Id, v: Id)
    requires v in At(s, u).children
    ensures Walk(s, u, v, 1)
  {
    assert Walk(s, u, u, 0);
  }

  lemma TiedWalk(b: Id, v: Id, n: nat)
    requires b in BARRIERS && Walk(Tied().nodes, b, v, n)
    ensures v in DISTANCES && DISTANCES[v] <= n
  {
    ThreeNames();
    TiedIsWellFormed();
    WalkInside(Tied(), b, v, n);
    assert forall f :: f in [ALPHA, BETA, DELTA] <==> f == ALPHA || f == BETA || f == DELTA;
    hide WellFormed;
  }

  lemma TiedReached(v: Id, nearest: Id)
    requires nearest in BARRIERS && v in Origins(nearest)
    ensures Origins(nearest)[v] in BARRIERS && Walk(Tied().nodes, Origins(nearest)[v], v, DISTANCES[v])
  {
    ThreeNames();
    assert [BETA, DELTA][1] == DELTA && [DELTA][0] == DELTA;
    OneStep(Tied().nodes, nearest, DELTA);
  }

  lemma TiedDistances(nearest: Id)
    requires nearest in BARRIERS
    ensures Nearest(Tied().nodes, BARRIERS, DISTANCES, Origins(nearest))
  {
    hide Walk, Tied;
    var s, dist, origin := Tied().nodes, DISTANCES, Origins(nearest);
    assert dist.Keys == origin.Keys;
    forall b, v, n: nat | b in BARRIERS && Walk(s, b, v, n) ensures v in dist && dist[v] <= n { TiedWalk(b, v, n); }
    forall v | v in origin ensures origin[v] in BARRIERS && Walk(s, origin[v], v, dist[v]) { TiedReached(v, nearest); }
    forall v ensures v in origin <==> Reaches(s, BARRIERS, v) { }
  }

  lemma TwoGroups(a: Group, b: Group, u: Id, v: Id)
    ensures Together([a, b], u, v) <==> (u in a && v in a) || (u in b && v in b)
    ensures u in Members([a, b]) <==> u in a || u in b
  {
    var gs := [a, b];
    assert gs[0] == a && gs[1] == b;
  }

  lemma TiedFamily(a: Group, b: Group)
    requires (a == [ALPHA, DELTA] && b == [BETA]) || (a == [ALPHA] && b == [BETA, DELTA])
    ensures Family([a, b])
  {
    ThreeNames();
  }

  lemma TiedGrown(a: Group, b: Group, nearest: Id)
    requires nearest in BARRIERS
    requires if nearest == ALPHA then a == [ALPHA, DELTA] && b == [BETA] else a == [ALPHA] && b == [BETA, DELTA]
    ensures IsGrown([a, b], Origins(nearest))
  {
    hide Family, Together, Members;
    var origin := Origins(nearest);
    ThreeNames();
    TiedFamily(a, b);
    forall f ensures f in Members([a, b]) <==> f in origin { TwoGroups(a, b, f, f); }
    forall u, v | u in origin && v in origin ensures Together([a, b], u, v) <==> origin[u] == origin[v] {
      TwoGroups(a, b, u, v);
    }
  }

  lemma TiedOrder()
    ensures IsTieBroken(Tied(), Calls())
  {
    hide LexBefore, AllCalls;
    ThreeNames();
    TiedCalls();
    NamesInOrder();
  }

  lemma NamesInOrder()
    ensures !LexBefore(BETA.name, ALPHA.name)
    ensures !LexBefore(DELTA.name, BETA.name) && !LexBefore(DELTA.name, ALPHA.name)
  {
    assert ALPHA.name[0] < BETA.name[0] < DELTA.name[0];
  }

  lemma TiedCalls()
    ensures AllCalls(Tied().nodes, Tied().functions) == Calls()
  {
    var s := Tied().nodes;
    ThreeNames();
    assert [ALPHA, BETA, DELTA][..2] == [ALPHA, BETA] && [ALPHA, BETA][..1] == [ALPHA] && [ALPHA][..0] == [];
    assert AllCalls(s, []) == [];
    assert CallsOf(s, ALPHA, 2) == [Candidate(0.0, ALPHA, BETA), Candidate(0.0, ALPHA, DELTA)];
    assert CallsOf(s, BETA, 1) == [Candidate(0.0, BETA, DELTA)];
    assert CallsOf(s, DELTA, 0) == [];
    assert AllCalls(s, [ALPHA]) == AllCalls(s, []) + CallsOf(s, ALPHA, 2);
    assert AllCalls(s, [ALPHA, BETA]) == AllCalls(s, [ALPHA]) + CallsOf(s, BETA, 1);
  }

  lemma TiedCuts()
    ensures Barriers([ALPHA, BETA], ALPHA, 0) == BARRIERS
    ensures FewestMerges(2000, 10, 30000, 1, 0)
  {
    var edges := PathEdges([ALPHA, BETA]);
    assert edges == [PathEdge(ALPHA, BETA)];
    assert Elems(edges[..0]) == {} && Elems(edges) == {PathEdge(ALPHA, BETA)};
    assert PathEdge(ALPHA, BETA) in Elems(edges) - Elems(edges[..0]);
  }

  lemma BothRunsHappen()
    ensures RunOK(Tied(), WithAlpha()) && RunOK(Tied(), WithBeta())
  {
    hide CriticalPath, RootFunction, GroupRuntimeMs, Nearest, IsGrown, IsTieBroken, IsMergeOrder, Barriers,
      FewestMerges;
    ThreeNames();
    TiedPath();
    TiedCuts();
    TiedDistances(ALPHA);
    TiedDistances(BETA);
    TiedGrown([ALPHA, DELTA], [BETA], ALPHA);
    TiedGrown([ALPHA], [BETA, DELTA], BETA);
    TiedOrder();
    TieBrokenIsOrder(Tied(), Calls());
  }

  // ---- and they differ ----

  /** Sharing the large function's memory costs more than the requests it saves. */
  lemma BetaStaysOut()
    ensures MergeProfitUSD(Tied().nodes, [ALPHA, DELTA], [BETA]) < 0.0
    ensures MergeProfitUSD(Tied().nodes, [BETA], [ALPHA, DELTA]) < 0.0
  {
    hide MergeProfitUSD, EntryRateAt;
    var s := Tied().nodes;
    ThreeNames();
    SplitProfits(s, ALPHA, DELTA, BETA);
    SplitProfits(s, BETA, ALPHA, DELTA);
    BetaRates();
    TiedPrices();
  }

  lemma BetaRates()
    ensures var s := Tied().nodes;
      && EntryRateAt(s, {BETA}, BETA) == 1.0
      && PairRate(s, ALPHA, DELTA) == 2.0
      && RowRate(s, ALPHA, DELTA, BETA) == RowRate(s, BETA, ALPHA, DELTA) == 1.0
  {
    ThreeNames();
  }

  lemma AlphaStaysOut()
    ensures MergeProfitUSD(Tied().nodes, [ALPHA], [BETA, DELTA]) < 0.0
    ensures MergeProfitUSD(Tied().nodes, [BETA, DELTA], [ALPHA]) < 0.0
  {
    hide MergeProfitUSD, EntryRateAt;
    var s := Tied().nodes;
    ThreeNames();
    SplitProfits(s, ALPHA, BETA, DELTA);
    SplitProfits(s, BETA, DELTA, ALPHA);
    TiedRates();
    TiedPrices();
  }

  lemma TiedRates()
    ensures var s := Tied().nodes;
      && EntryRateAt(s, {ALPHA}, ALPHA) == 1.0
      && PairRate(s, BETA, DELTA) == 1.0
      && RowRate(s, ALPHA, BETA, DELTA) == RowRate(s, BETA, DELTA, ALPHA) == 1.0
  {
    ThreeNames();
  }

  lemma TiedPrices()
    ensures ExecutionCostUSD(128, 1000) == 0.00001667 * 0.125 && ExecutionCostUSD(128, 2000) == 0.00001667 * 0.25
    ensures ExecutionCostUSD(1024, 1000) == 0.00001667 && ExecutionCostUSD(1024, 2000) == 0.00001667 * 2.0
    ensures ExecutionCostUSD(1024, 3000) == 0.00001667 * 3.0
  { }

  lemma PairProfits()
    ensures MergeProfitUSD(Tied().nodes, [ALPHA], [DELTA]) == 0.0
    ensures MergeProfitUSD(Tied().nodes, [BETA], [DELTA]) < 0.0
  {
    hide MergeProfitUSD;
    var s := Tied().nodes;
    ThreeNames();
    TwoProfit(s, ALPHA, DELTA);
    TwoProfit(s, BETA, DELTA);
    TiedPrices();
  }

  lemma NotAccepted(a: Group, b: Group, c: Candidate)
    requires MergeProfitUSD(Tied().nodes, a, b) < 0.0 && MergeProfitUSD(Tied().nodes, b, a) < 0.0
    ensures MergeStep(Tied(), [a, b], c) == [a, b]
  {
    hide MergeProfitUSD, Tied;
    RelayChain.TwoOwners(a, b, c.parent);
    RelayChain.TwoOwners(a, b, c.child);
  }

  lemma NothingMerges(a: Group, b: Group)
    requires MergeProfitUSD(Tied().nodes, a, b) < 0.0 && MergeProfitUSD(Tied().nodes, b, a) < 0.0
    ensures MergeAll(Tied(), [a, b], Calls()) == [a, b]
  {
    hide MergeProfitUSD, Tied, MergeStep;
    var cs := Calls();
    assert cs[..2][..1] == cs[..1] && cs[..1][..0] == [];
    NotAccepted(a, b, cs[0]);
    NotAccepted(a, b, cs[1]);
    NotAccepted(a, b, cs[2]);
    assert MergeAll(Tied(), [a, b], []) == [a, b];
    assert MergeAll(Tied(), [a, b], cs[..1]) == [a, b];
    assert MergeAll(Tied(), [a, b], cs[..2]) == [a, b];
  }

  lemma TiedOutcome(run: Run, a: Group, b: Group)
    requires run.grown == [a, b] && run.order == Calls()
    requires MergeProfitUSD(Tied().nodes, a, b) < 0.0 && MergeProfitUSD(Tied().nodes, b, a) < 0.0
    requires forall f :: f in a || f in b ==> At(Tied().nodes, f).memoryMB <= 1024
    ensures Outcome(Tied(), run) == [a, b]
  {
    hide MergeProfitUSD;
    forall g | g in run.grown ensures GroupMemory(Tied().nodes, g) <= 1024 { assert g == a || g == b; }
    SafeWhenAllFit(Tied().nodes, 1024, [a, b]);
    NothingMerges(a, b);
  }

  /** What joining `DELTA` to either of the others does to the bill of doing nothing. */
  lemma TiedCosts()
    ensures TotalCostUSD(Tied(), [[ALPHA, DELTA], [BETA]]) == TotalCostUSD(Tied(), Singles(Tied().functions))
    ensures TotalCostUSD(Tied(), [[ALPHA], [BETA, DELTA]]) > TotalCostUSD(Tied(), Singles(Tied().functions))
  {
    hide MergeProfitUSD, TotalCostUSD, WellFormed;
    var none := Singles(Tied().functions);
    assert none == [[ALPHA], [BETA], [DELTA]];
    TiedIsWellFormed();
    FunctionsDistinct(Tied());
    SinglesPartition(Tied());
    PairProfits();
    MergeProfitIsCostDrop(Tied(), none, 0, 2);
    MergeProfitIsCostDrop(Tied(), none, 1, 2);
    assert [ALPHA] + [DELTA] == [ALPHA, DELTA] && [BETA] + [DELTA] == [BETA, DELTA];
    assert Merged(none, 0, 2) == [[ALPHA, DELTA], [BETA]];
    assert Merged(none, 1, 2) == [[ALPHA], [BETA, DELTA]];
  }

  /** Breaking ties among merges is not enough: both runs happen, and they recommend different groups
      at different prices, one no dearer than doing nothing and one dearer. */
  lemma RunsDiffer()
    ensures RunOK(Tied(), WithAlpha()) && RunOK(Tied(), WithBeta())
    ensures !SamePartition(Outcome(Tied(), WithAlpha()), Outcome(Tied(), WithBeta()))
    ensures TotalCostUSD(Tied(), Outcome(Tied(), WithAlpha())) == TotalCostUSD(Tied(), Singles(Tied().functions))
    ensures TotalCostUSD(Tied(), Outcome(Tied(), WithBeta())) > TotalCostUSD(Tied(), Singles(Tied().functions))
  {
    hide MergeProfitUSD, TotalCostUSD, RunOK, Outcome;
    ThreeNames();
    BothRunsHappen();
    BetaStaysOut();
    AlphaStaysOut();
    TiedOutcome(WithAlpha(), [ALPHA, DELTA], [BETA]);
    TiedOutcome(WithBeta(), [ALPHA], [BETA, DELTA]);
    TiedCosts();
    assert Together([[ALPHA, DELTA], [BETA]], ALPHA, DELTA) by { assert DELTA in [[ALPHA, DELTA], [BETA]][0]; }
    assert !Together([[ALPHA], [BETA, DELTA]], ALPHA, DELTA);
  }
}
