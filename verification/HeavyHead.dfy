/** A large function before two small ones: CSP cuts after the first and fuses the rest. */
module HeavyHead {
  import opened Domain
  import opened Coarsening
  import opened Csp
  import opened CspSearch
  import opened CostlessCsp
  import opened CspOptimal
  import opened CspGate
  import opened TightChain
  import opened Counterexamples
  import opened WorkedBill
  import opened RelayChain

  /** 1024 MB before twice 128 MB; unfused the path takes 1220 ms and the cap is 1215. */
  function TopHeavy(): Application {
    Application(
      map[API := Node(1024, 1000, 1.0, 0.0, map[WORKER := 0], None, [WORKER]),
          WORKER := Node(128, 100, 1.0, 0.0, map[ARCHIVE := 0], Some(API), [ARCHIVE]),
          ARCHIVE := Node(128, 100, 1.0, 0.0, map[], Some(WORKER), [])],
      [API, WORKER, ARCHIVE], [API, WORKER, ARCHIVE], 1024, 1215, 10)
  }

  lemma TopHeavyIsRow()
    ensures IsRow(TopHeavy())
  {
    RelayNames();
  }

  lemma TopHeavyPrices()
    ensures ExecutionCostUSD(1024, 1000) == 0.00001667 && ExecutionCostUSD(1024, 1100) == 0.00001667 * 1.1
    ensures ExecutionCostUSD(128, 100) == 0.00001667 * 0.0125 && ExecutionCostUSD(128, 200) == 0.00001667 * 0.025
  { }

  lemma TopHeavyProfits()
    ensures MergeProfitUSD(TopHeavy().nodes, [API], [WORKER]) < 0.0
    ensures MergeProfitUSD(TopHeavy().nodes, [WORKER], [ARCHIVE]) == 0.0000002
  {
    hide MergeProfitUSD, EntryRateAt, ExecutionCostUSD, Exchange, PairRate;
    var s := TopHeavy().nodes;
    RelayNames();
    TopHeavyIsRow();
    RowRates(TopHeavy());
    TwoProfit(s, API, WORKER);
    TwoProfit(s, WORKER, ARCHIVE);
    TopHeavyPrices();
  }

  lemma TopHeavySegments()
    ensures var app, chain := TopHeavy(), [API, WORKER, ARCHIVE];
      Decided(app, chain) && Segments(app, chain, 2) == [[API], [WORKER, ARCHIVE]]
  {
    hide MergeProfitUSD, Closed, Segments, GroupMemory;
    var app, chain, s := TopHeavy(), [API, WORKER, ARCHIVE], TopHeavy().nodes;
    RelayNames();
    TopHeavyProfits();
    CutAfterFirst();
    OpenAtLast();
    SegmentsStart(app, chain);
    SegmentsStep(app, chain, 1);
    SegmentsStep(app, chain, 2);
    assert [[API]] + [[WORKER]] == [[API], [WORKER]];
    assert [WORKER] + [ARCHIVE] == [WORKER, ARCHIVE];
    TwoMembersRun(s, WORKER, ARCHIVE);
    assert [[API], [WORKER]][1 := [WORKER, ARCHIVE]] == [[API], [WORKER, ARCHIVE]];
  }

  lemma CutAfterFirst()
    ensures Closed(TopHeavy(), [API, WORKER, ARCHIVE], 1)
  {
    hide MergeProfitUSD, GroupMemory, Fusable;
    var chain := [API, WORKER, ARCHIVE];
    TopHeavyProfits();
    assert chain[0..1] == [API];
  }

  lemma OpenAtLast()
    ensures !Closed(TopHeavy(), [API, WORKER, ARCHIVE], 2)
  {
    hide MergeProfitUSD, GroupMemory, Fusable;
    var chain, s := [API, WORKER, ARCHIVE], TopHeavy().nodes;
    RelayNames();
    TopHeavyProfits();
    TwoMembersRun(s, WORKER, ARCHIVE);
    OneIsFusable(TopHeavy(), WORKER);
    assert chain[1..2] == [WORKER];
  }

  lemma OneIsFusable(app: Application, f: Id)
    ensures Fusable(app, [f])
  { }

  /** Every run fuses the last two, which the first does not pay for: 1210 ms, within a cap the unfused
      path misses. */
  lemma EveryRunFusesTheTail(labels: Frontiers, generated: set<Item>, best: Option<CspLabel>)
    requires Finished(TopHeavy(), labels, generated, best)
    ensures best.Some? && best.value.partitioning == [[API], [WORKER, ARCHIVE]]
    ensures Latency(TopHeavy(), FinalGroups(TopHeavy(), best.value.partitioning)) == 1210
  {
    hide Finished, Decided, Segments, WellFormed, CriticalPath, GroupRuntimeMs, FinalGroups, Latency, IsSegmentation;
    var app, chain, s := TopHeavy(), [API, WORKER, ARCHIVE], TopHeavy().nodes;
    RelayNames();
    TopHeavyIsRow();
    RowIsWellFormed(app);
    RowPath(app);
    ThreeMembers(s, API, WORKER, ARCHIVE);
    TopHeavySegments();
    AnswersAsDecided(app, labels, generated, best);
    AnswerIsSegmentation(app, labels, generated, best.value);
    FunctionsDistinct(app);
    SegmentsLatency(app, best.value.partitioning);
  }
}
