/** A chain of calls that cost the same: which of them GreedyTP merges first decides the plan. */
module RelayChain {
  import opened Sums
  import opened Domain
  import opened Merging
  import opened Coarsening
  import opened GreedyPass
  import opened GreedyTP
  import opened GreedyTPResult
  import opened GreedyTPCost
  import opened GreedyTPRuns
  import opened TightChain
  import opened CostModel
  import opened Counterexamples
  import opened WorkedBill

  const ARCHIVE := Id("archive")

  /** `worker` could join the function before it or the larger one after it; not both. No call carries bytes. */
  function Relay(): Application {
    Application(
      map[API := Node(128, 100, 1.0, 0.0, map[WORKER := 0], None, [WORKER]),
          WORKER := Node(128, 50, 1.0, 0.0, map[ARCHIVE := 0], Some(API), [ARCHIVE]),
          ARCHIVE := Node(290, 100, 1.0, 0.0, map[], Some(WORKER), [])],
      [API, WORKER, ARCHIVE], [API, WORKER, ARCHIVE], 1024, 30000, 10)
  }

  function Calls(): seq<Candidate> {
    [Candidate(0.0, API, WORKER), Candidate(0.0, WORKER, ARCHIVE)]
  }

  lemma RelayNames()
    ensures API != WORKER && API != ARCHIVE && WORKER != ARCHIVE
  {
    assert API.name[1] != ARCHIVE.name[1] && API.name[0] != WORKER.name[0] && WORKER.name[0] != ARCHIVE.name[0];
  }

  /** Three functions in a row, each invoked once, all on the critical path. */
  ghost predicate IsRow(app: Application) {
    && app.functions == app.criticalPathIDs == [API, WORKER, ARCHIVE] && app.networkHopMS == 10
    && (forall f :: f in app.functions ==>
        At(app.nodes, f).invocationRate == 1.0 && At(app.nodes, f).transferUSDPerGiB == 0.0)
    && At(app.nodes, API).children == [WORKER] && At(app.nodes, API).dataOutBytes.Keys == {WORKER}
    && At(app.nodes, WORKER).children == [ARCHIVE] && At(app.nodes, WORKER).dataOutBytes.Keys == {ARCHIVE}
    && At(app.nodes, ARCHIVE).children == [] && At(app.nodes, ARCHIVE).dataOutBytes.Keys == {}
    && At(app.nodes, API).parent == None && At(app.nodes, WORKER).parent == Some(API)
    && At(app.nodes, ARCHIVE).parent == Some(WORKER)
  }

  lemma RowIsWellFormed(app: Application)
    requires IsRow(app)
    ensures WellFormed(app)
  {
    hide WellFormedNode;
    RelayNames();
    assert app.functions[0] == API && app.functions[1] == WORKER && app.functions[2] == ARCHIVE;
    RowNode(app, API);
    RowNode(app, WORKER);
    RowNode(app, ARCHIVE);
  }

  lemma RowNode(app: Application, f: Id)
    requires IsRow(app) && f in app.functions
    ensures WellFormedNode(app, f)
  {
    RelayNames();
    assert Elems([WORKER]) == {WORKER} && Elems([ARCHIVE]) == {ARCHIVE} && Elems<Id>([]) == {};
    assert [WORKER][0] == WORKER && [ARCHIVE][0] == ARCHIVE;
    assert Elems(app.functions) == {API, WORKER, ARCHIVE} by {
      assert app.functions[0] == API && app.functions[1] == WORKER && app.functions[2] == ARCHIVE;
    }
  }

  lemma RowPath(app: Application)
    requires IsRow(app)
    ensures CriticalPath(app) == [API, WORKER, ARCHIVE] && Distinct([API, WORKER, ARCHIVE])
    ensures RootFunction(app) == Some(API)
  {
    hide Known;
    var fs := [API, WORKER, ARCHIVE];
    RelayNames();
    KnownWhenAllAre(fs, fs);
    assert fs[..2] == [API, WORKER] && [API, WORKER][..1] == [API] && [API][..0] == [];
    assert FirstParentless(app.nodes, [API]) == Some(API);
    assert FirstParentless(app.nodes, [API, WORKER]) == Some(API);
  }

  lemma RelayIsRow()
    ensures IsRow(Relay())
  {
    RelayNames();
  }

  lemma RelayRuntime()
    ensures GroupRuntimeMs(Relay().nodes, [API, WORKER, ARCHIVE]) == 250
  {
    hide GroupRuntimeMs;
    RelayNames();
    ThreeMembers(Relay().nodes, API, WORKER, ARCHIVE);
  }

  // ---- what every run does ----

  lemma RelayCalls()
    ensures AllCalls(Relay().nodes, Relay().functions) == Calls()
  {
    var s := Relay().nodes;
    RelayNames();
    var fs := [API, WORKER, ARCHIVE];
    assert fs[..2] == [API, WORKER] && [API, WORKER][..1] == [API] && [API][..0] == [];
    assert AllCalls(s, []) == [];
    assert CallsOf(s, API, 1) == [Candidate(0.0, API, WORKER)];
    assert CallsOf(s, WORKER, 1) == [Candidate(0.0, WORKER, ARCHIVE)];
    assert CallsOf(s, ARCHIVE, 0) == [];
    assert AllCalls(s, [API]) == AllCalls(s, []) + CallsOf(s, API, 1);
    assert AllCalls(s, [API, WORKER]) == AllCalls(s, [API]) + CallsOf(s, WORKER, 1);
  }

  lemma RelayOrder(run: Run)
    requires RunOK(Relay(), run)
    ensures run.order == Calls()
  {
    hide FewestMerges, IsGrown, IsMergeOrder, AllCalls, CriticalPath, RootFunction, GroupRuntimeMs;
    RelayNames();
    RelayCalls();
    assert !LexBefore(WORKER.name, API.name) by { assert API.name[0] < WORKER.name[0]; }
    OneOrder(run.order, Calls());
  }

  lemma RelayGrown(run: Run)
    requires RunOK(Relay(), run)
    ensures SamePartition(run.grown, Singles(Relay().functions))
  {
    hide RunOK, GroupRuntimeMs, CriticalPath, RootFunction, StepLatency, Family, Together, Members;
    var app := Relay();
    RelayIsRow();
    RowIsWellFormed(app);
    RowPath(app);
    RelayRuntime();
    assert StepLatency(250, 10, 2, 0) <= 30000 by { Unfused(); }
    NoneMerged(app, run);
    GrownMembers(app, run);
    FunctionsDistinct(app);
    SinglesPartition(app);
    assert forall f :: f in app.functions <==> f in [API, WORKER, ARCHIVE];
    forall f | f in app.functions ensures f in run.origin && run.origin[f] == f {
      AllBarriers(app, run, f);
      OwnBarrier(app, run, f);
    }
    OwnGroups(app, run);
  }

  lemma Unfused()
    ensures StepLatency(250, 10, 2, 0) == 270
  { }

  /** Where every function is its own barrier, every group is one function. */
  lemma OwnGroups(app: Application, run: Run)
    requires RunOK(app, run) && Distinct(app.functions)
    requires Family(run.grown) && Members(run.grown) <= Elems(app.functions)
    requires IsPartition(app, Singles(app.functions))
    requires forall f :: f in app.functions ==> f in run.origin && run.origin[f] == f
    ensures SamePartition(run.grown, Singles(app.functions))
  {
    hide FewestMerges, IsMergeOrder, IsTieBroken, Family, Together, CriticalPath, RootFunction;
    var none := Singles(app.functions);
    forall u, v ensures Together(run.grown, u, v) <==> Together(none, u, v) {
      SinglesTogether(app.functions, u, v);
      TogetherAreMembers(run.grown, u, v);
    }
  }

  // ---- the plan ----

  lemma RelayPrices()
    ensures ExecutionCostUSD(128, 100) == 0.00001667 * 0.0125 && ExecutionCostUSD(128, 50) == 0.00001667 * 0.00625
    ensures ExecutionCostUSD(128, 150) == 0.00001667 * 0.01875
    ensures ExecutionCostUSD(290, 100) == 0.00001667 * 0.0283203125
    ensures ExecutionCostUSD(290, 150) == 0.00001667 * 0.04248046875
    ensures ExecutionCostUSD(290, 250) == 0.00001667 * 0.07080078125
  { }

  /** Every function of a row is invoked once from outside unless its caller is with it. */
  lemma RowRates(app: Application)
    requires IsRow(app)
    ensures var s := app.nodes;
      && EntryRateAt(s, {API}, API) == EntryRateAt(s, {WORKER}, WORKER) == EntryRateAt(s, {ARCHIVE}, ARCHIVE) == 1.0
      && PairRate(s, API, WORKER) == PairRate(s, WORKER, ARCHIVE) == RowRate(s, API, WORKER, ARCHIVE) == 1.0
    ensures forall f, g :: f in app.functions && g in app.functions ==> Exchange(app.nodes)(f, g) == 0.0
  {
    RelayNames();
    assert app.functions[0] == API && app.functions[1] == WORKER && app.functions[2] == ARCHIVE;
  }

  lemma RelayProfits()
    ensures MergeProfitUSD(Relay().nodes, [API], [WORKER]) == 0.0000002
    ensures 0.0 < MergeProfitUSD(Relay().nodes, [WORKER], [ARCHIVE]) < 0.0000002
    ensures MergeProfitUSD(Relay().nodes, [API, WORKER], [ARCHIVE]) < 0.0
  {
    hide MergeProfitUSD, EntryRateAt, ExecutionCostUSD, Exchange, PairRate, RowRate;
    var s := Relay().nodes;
    RelayNames();
    RelayIsRow();
    RowRates(Relay());
    TwoProfit(s, API, WORKER);
    TwoProfit(s, WORKER, ARCHIVE);
    SplitProfits(s, API, WORKER, ARCHIVE);
    RelayPrices();
  }

  lemma ThreeOwners(a: Group, b: Group, c: Group, u: Id)
    ensures Owner([a, b, c], u)
      == if u in c then Some(2) else if u in b then Some(1) else if u in a then Some(0) else None
  {
    assert [a, b, c][..2] == [a, b] && [a, b][..1] == [a] && [a][..0] == [];
    assert Owner([a], u) == if u in a then Some(0) else None;
    assert Owner([a, b], u) == if u in b then Some(1) else if u in a then Some(0) else None;
  }

  lemma TwoOwners(a: Group, b: Group, u: Id)
    ensures Owner([a, b], u) == if u in b then Some(1) else if u in a then Some(0) else None
  {
    assert [a, b][..1] == [a] && [a][..0] == [];
    assert Owner([a], u) == if u in a then Some(0) else None;
  }

  lemma FirstMerge()
    ensures MergeStep(Relay(), [[API], [WORKER], [ARCHIVE]], Calls()[0]) == [[API, WORKER], [ARCHIVE]]
  {
    hide MergeProfitUSD, Owner, GroupMemory;
    RelayNames();
    RelayProfits();
    ThreeOwners([API], [WORKER], [ARCHIVE], API);
    ThreeOwners([API], [WORKER], [ARCHIVE], WORKER);
    GrownMemories();
    assert [API] + [WORKER] == [API, WORKER];
    assert Merged([[API], [WORKER], [ARCHIVE]], 0, 1) == [[API, WORKER], [ARCHIVE]];
  }

  lemma GrownMemories()
    ensures GroupMemory(Relay().nodes, [API]) == GroupMemory(Relay().nodes, [WORKER]) == 128
  {
    RelayNames();
    assert [API][..0] == [] && [WORKER][..0] == [];
  }

  lemma SecondMerge()
    ensures MergeStep(Relay(), [[API, WORKER], [ARCHIVE]], Calls()[1]) == [[API, WORKER], [ARCHIVE]]
  {
    hide MergeProfitUSD, Owner, GroupMemory;
    RelayNames();
    RelayProfits();
    TwoOwners([API, WORKER], [ARCHIVE], WORKER);
    TwoOwners([API, WORKER], [ARCHIVE], ARCHIVE);
  }

  lemma RelayMerged()
    ensures MergeAll(Relay(), [[API], [WORKER], [ARCHIVE]], Calls()) == [[API, WORKER], [ARCHIVE]]
  {
    hide MergeStep, Relay;
    var cs := Calls();
    assert cs[..1] == [cs[0]] && cs[..1][..0] == [];
    FirstMerge();
    SecondMerge();
    assert MergeAll(Relay(), [[API], [WORKER], [ARCHIVE]], []) == [[API], [WORKER], [ARCHIVE]];
    assert MergeAll(Relay(), [[API], [WORKER], [ARCHIVE]], cs[..1]) == [[API, WORKER], [ARCHIVE]];
  }

  lemma RelayFits()
    ensures SafeGroups(Relay().nodes, 1024, Singles(Relay().functions)) == Singles(Relay().functions)
    ensures Singles(Relay().functions) == [[API], [WORKER], [ARCHIVE]]
  {
    var none := Singles(Relay().functions);
    RelayNames();
    assert none == [[API], [WORKER], [ARCHIVE]];
    forall g | g in none ensures GroupMemory(Relay().nodes, g) <= 1024 {
      assert g == [API] || g == [WORKER] || g == [ARCHIVE];
      assert g[..0] == [];
    }
    SafeWhenAllFit(Relay().nodes, 1024, none);
  }

  /** Both calls cost nothing to cut, so the ids decide: every run merges `api` and `worker`, which saves
      more than the other merge would, and leaves `archive` alone. */
  lemma EveryRunStartsAtTheFirstId(run: Run)
    requires RunOK(Relay(), run)
    ensures SamePartition(Outcome(Relay(), run), [[API, WORKER], [ARCHIVE]])
  {
    hide RunOK, SamePartition, SafeGroups, MergeAll;
    RelayOrder(run);
    RelayGrown(run);
    RelayFits();
    SafeSame(Relay().nodes, 1024, run.grown, Singles(Relay().functions));
    PassSame(Relay(), SafeGroups(Relay().nodes, 1024, run.grown), Singles(Relay().functions), Calls());
    RelayMerged();
  }
}
