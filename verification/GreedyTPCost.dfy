/** What GreedyTP's groups cost: growing is not gated by profit, merging is. */
module GreedyTPCost {
  import opened Sums
  import opened Domain
  import opened Billing
  import opened Merging
  import opened Coarsening
  import opened GreedyPass
  import opened Bfs
  import opened GreedyTP
  import opened GreedyTPResult
  import opened MinWCut

  /** The bill depends on the blocks alone: not on the order of groups, nor of members in them. */
  lemma BillByBlocks(app: Application, p: seq<Group>, q: seq<Group>)
    requires WellFormed(app) && Family(p) && Family(q) && Members(p) == Members(q) <= Elems(app.functions)
    requires forall f :: f in Members(p) ==> Block(p, f) == Block(q, f)
    ensures TotalCostUSD(app, p) == TotalCostUSD(app, q)
  {
    hide Sum, SeqSum, TotalCostUSD, FunctionBill, Block, Family, WellFormed, Members;
    CostIsSumOfBills(app, p);
    CostIsSumOfBills(app, q);
    forall f | f in Members(p) ensures BillIn(app.nodes, p)(f) == BillIn(app.nodes, q)(f) { }
    SumCong(Members(p), BillIn(app.nodes, p), BillIn(app.nodes, q));
  }

  lemma SameBlocksSameCost(app: Application, p: seq<Group>, q: seq<Group>)
    requires WellFormed(app) && IsPartition(app, p) && IsPartition(app, q)
    requires forall f :: f in app.functions ==> Block(p, f) == Block(q, f)
    ensures TotalCostUSD(app, p) == TotalCostUSD(app, q)
  {
    hide TotalCostUSD, Block, Family, WellFormed, Members;
    assert forall f :: f in Elems(app.functions) ==> f in app.functions;
    BillByBlocks(app, p, q);
  }

  lemma TogetherSameBlocks(app: Application, p: seq<Group>, q: seq<Group>)
    requires IsPartition(app, p) && IsPartition(app, q)
    requires forall u, v :: u in app.functions && v in app.functions ==> (Together(p, u, v) <==> Together(q, u, v))
    ensures forall f :: f in app.functions ==> Block(p, f) == Block(q, f)
  {
    hide Block, Family;
    forall f | f in app.functions ensures Block(p, f) == Block(q, f) {
      forall v ensures v in Block(p, f) <==> v in Block(q, f) {
        BlockIsTogether(p, f, v);
        BlockIsTogether(q, f, v);
        TogetherAreMembers(p, f, v);
        TogetherAreMembers(q, f, v);
      }
    }
  }

  lemma TogetherAreMembers(p: seq<Group>, u: Id, v: Id)
    ensures Together(p, u, v) ==> u in Members(p) && v in Members(p)
  { }

  // ---- growing and merging ----

  /** After step 2 the bill never rises again. */
  lemma MergingOnlyHelps(app: Application, run: Run)
    requires WellFormed(app) && RunOK(app, run)
    requires forall f :: f in app.functions ==> At(app.nodes, f).memoryMB <= app.maxMemoryMB
    ensures Family(run.grown) && Members(run.grown) <= Elems(app.functions)
    ensures Members(Outcome(app, run)) == Members(run.grown) && Family(Outcome(app, run))
    ensures TotalCostUSD(app, Outcome(app, run)) <= TotalCostUSD(app, run.grown)
    ensures forall u, v :: Together(run.grown, u, v) ==> Together(Outcome(app, run), u, v)
  {
    hide RunOK, Family, Together, TotalCostUSD, WellFormed, GroupMemory;
    GrownMembers(app, run);
    OriginIsFunctions(app, run);
    GrownFits(app, run);
    SafeWhenAllFit(app.nodes, app.maxMemoryMB, run.grown);
    MergeAllConserves(app, run.grown, run.order);
  }

  /** A barrier is nearest to itself. */
  lemma OwnBarrier(app: Application, run: Run, b: Id)
    requires RunOK(app, run) && b in run.barriers
    ensures b in run.origin && run.origin[b] == b
  {
    assert Walk(app.nodes, b, b, 0);
    assert b in run.dist && run.dist[b] <= 0;
    assert Walk(app.nodes, run.origin[b], b, 0);
  }

  lemma AllBarriers(app: Application, run: Run, f: Id)
    requires RunOK(app, run) && run.k == 0 && f in CriticalPath(app)
    requires RootFunction(app) == Some(CriticalPath(app)[0])
    ensures f in run.barriers
  {
    var path := CriticalPath(app);
    var i :| 0 <= i < |path| && path[i] == f;
    if i > 0 {
      var e := PathEdges(path)[i - 1];
      assert e in PathEdges(path) && e.to == f;
      assert PathEdges(path)[..0] == [];
    }
  }

  /** Every call to a function off the path joins two functions of one size. */
  ghost predicate EqualOffPath(app: Application) {
    forall u, v :: u in app.functions && v in At(app.nodes, u).children && v !in CriticalPath(app)
      ==> At(app.nodes, u).memoryMB == At(app.nodes, v).memoryMB
  }

  /** The last step of a shortest walk starts one step closer, and ends at no barrier. */
  lemma LastStep(s: Store, sources: set<Id>, dist: map<Id, nat>, origin: map<Id, Id>, b: Id, v: Id, n: nat)
    returns (w: Id)
    requires Nearest(s, sources, dist, origin)
    requires n > 0 && b in sources && Walk(s, b, v, n) && v in dist && dist[v] == n
    ensures Walk(s, b, w, n - 1) && v in At(s, w).children && w in dist && dist[w] == n - 1
    ensures v !in sources
  {
    w :| Walk(s, b, w, n - 1) && v in At(s, w).children;
    assert w in dist && dist[w] <= n - 1;
    assert Walk(s, origin[w], v, dist[w] + 1);
    assert v in sources ==> Walk(s, v, v, 0);
  }

  lemma RunIsNearest(app: Application, run: Run)
    requires RunOK(app, run)
    ensures Nearest(app.nodes, run.barriers, run.dist, run.origin)
  { }

  /** With nothing merged in step 1, a shortest walk from a barrier leaves the path at once. */
  lemma {:induction false} ShortestKeepsMemory(app: Application, run: Run, b: Id, v: Id, n: nat)
    requires WellFormed(app) && RunOK(app, run) && run.k == 0 && EqualOffPath(app)
    requires RootFunction(app) == Some(CriticalPath(app)[0])
    requires b in run.barriers && Walk(app.nodes, b, v, n) && v in run.dist && run.dist[v] == n
    ensures At(app.nodes, v).memoryMB == At(app.nodes, b).memoryMB
    decreases n
  {
    hide RunOK, WellFormed, CriticalPath, RootFunction, Nearest;
    if n > 0 {
      RunIsNearest(app, run);
      var w := LastStep(app.nodes, run.barriers, run.dist, run.origin, b, v, n);
      ShortestKeepsMemory(app, run, b, w, n - 1);
      BarrierIsFunction(app, run, b);
      WalkInside(app, b, w, n - 1);
      if v in CriticalPath(app) { AllBarriers(app, run, v); }
    }
  }

  lemma GrownUniformOffPath(app: Application, run: Run)
    requires WellFormed(app) && RunOK(app, run) && run.k == 0 && EqualOffPath(app)
    requires RootFunction(app) == Some(CriticalPath(app)[0])
    ensures UniformGroups(app.nodes, run.grown)
  {
    hide FewestMerges, IsMergeOrder, IsTieBroken, EqualOffPath, WellFormed, CriticalPath, RootFunction, Barriers;
    forall g, u, v | g in run.grown && u in g && v in g ensures At(app.nodes, u).memoryMB == At(app.nodes, v).memoryMB {
      var i :| 0 <= i < |run.grown| && run.grown[i] == g;
      assert Together(run.grown, u, v) && u in Members(run.grown) && v in Members(run.grown);
      ShortestKeepsMemory(app, run, run.origin[u], u, run.dist[u]);
      ShortestKeepsMemory(app, run, run.origin[v], v, run.dist[v]);
    }
  }

  lemma UniformBill(app: Application, gs: seq<Group>, f: Id)
    requires WellFormed(app) && IsPartition(app, gs) && UniformGroups(app.nodes, gs) && f in app.functions
    ensures BillIn(app.nodes, gs)(f) <= BillIn(app.nodes, Singles(app.functions))(f)
  {
    hide Sum, ExecutedAt, RequestCharge, UniformGroups, DataTransferCostUSD;
    var s, b, F, flow := app.nodes, Block(gs, f), Elems(app.functions), Fix(Transfer(app.nodes), f);
    UniformBlock(app, gs, f);
    OwnMemoryLeast(s, b, f);
    RatePositive(app, f);
    SinglesPartition(app);
    RequestsMonotone(EntryRateAt(s, b, f), EntryRateAt(s, {f}, f));
    forall c ensures flow(c) >= 0.0 { TransferNonNegative(app, f, c); }
    assert F - {f} == (F - b) + (b * F - {f});
    SumUnion(F - b, b * F - {f}, flow);
    SumNonNegative(b * F - {f}, flow);
    assert BillIn(s, gs)(f) == FunctionBill(s, F, b, f);
    assert BillIn(s, Singles(app.functions))(f) == FunctionBill(s, F, {f}, f);
  }

  lemma RequestsMonotone(few: real, many: real)
    requires few <= many
    ensures RequestCharge(few) <= RequestCharge(many)
  { }

  /** Groups of one size each are no dearer than no groups. */
  lemma UniformCostsNoMore(app: Application, gs: seq<Group>)
    requires WellFormed(app) && IsPartition(app, gs) && UniformGroups(app.nodes, gs)
    ensures TotalCostUSD(app, gs) <= TotalCostUSD(app, Singles(app.functions))
  {
    hide Sum, TotalCostUSD, UniformGroups, BillIn;
    var none := Singles(app.functions);
    SinglesPartition(app);
    CostIsSumOfBills(app, gs);
    CostIsSumOfBills(app, none);
    forall f | f in Elems(app.functions) ensures BillIn(app.nodes, gs)(f) <= BillIn(app.nodes, none)(f) {
      UniformBill(app, gs, f);
    }
    SumLe(Elems(app.functions), BillIn(app.nodes, gs), BillIn(app.nodes, none));
  }

  lemma NoneMerged(app: Application, run: Run)
    requires RunOK(app, run)
    requires StepLatency(GroupRuntimeMs(app.nodes, CriticalPath(app)), app.networkHopMS, |CriticalPath(app)| - 1, 0)
            <= app.maxLatencyMS
    ensures run.k == 0
  {
    hide StepLatency, Nearest, IsMergeOrder, IsTieBroken, IsGrown, Barriers, GroupRuntimeMs, CriticalPath;
  }

  /** When the path starts at the root and is fast enough unfused, every function on it is a barrier; if
      calls off the path join equals, the result costs no more than doing nothing. On an application
      that is all path that is every application. */
  lemma NoLossWhenUnfusedFits(app: Application, run: Run)
    requires WellFormed(app) && RunOK(app, run) && EqualOffPath(app)
    requires forall f :: f in app.functions ==> At(app.nodes, f).memoryMB <= app.maxMemoryMB
    requires RootFunction(app) == Some(CriticalPath(app)[0])
    requires forall f :: f in app.functions ==> Reaches(app.nodes, run.barriers, f)
    requires StepLatency(GroupRuntimeMs(app.nodes, CriticalPath(app)), app.networkHopMS, |CriticalPath(app)| - 1, 0)
            <= app.maxLatencyMS
    ensures run.k == 0
    ensures IsPartition(app, Outcome(app, run))
    ensures TotalCostUSD(app, Outcome(app, run)) <= TotalCostUSD(app, Singles(app.functions))
  {
    hide StepLatency, TotalCostUSD, Family, RunOK, WellFormed, Outcome, CriticalPath, RootFunction, Members,
      GroupRuntimeMs, EqualOffPath, Reaches, UniformGroups;
    NoneMerged(app, run);
    MergingOnlyHelps(app, run);
    ReachedIsPartition(app, run);
    GrownUniformOffPath(app, run);
    UniformCostsNoMore(app, run.grown);
  }

  /** In particular when the path holds every function. */
  lemma NoLossWhenAllOnPath(app: Application, run: Run)
    requires WellFormed(app) && RunOK(app, run) && Elems(CriticalPath(app)) == Elems(app.functions)
    requires forall f :: f in app.functions ==> At(app.nodes, f).memoryMB <= app.maxMemoryMB
    requires RootFunction(app) == Some(CriticalPath(app)[0])
    requires StepLatency(GroupRuntimeMs(app.nodes, CriticalPath(app)), app.networkHopMS, |CriticalPath(app)| - 1, 0)
            <= app.maxLatencyMS
    ensures IsPartition(app, Outcome(app, run))
    ensures TotalCostUSD(app, Outcome(app, run)) <= TotalCostUSD(app, Singles(app.functions))
  {
    hide StepLatency, TotalCostUSD, RunOK, Outcome, CriticalPath, RootFunction, GroupRuntimeMs, IsPartition;
    NoneMerged(app, run);
    forall f | f in app.functions ensures Reaches(app.nodes, run.barriers, f) {
      assert f in Elems(CriticalPath(app));
      AllBarriers(app, run, f);
      assert Walk(app.nodes, f, f, 0);
    }
    forall u, v | u in app.functions && v in At(app.nodes, u).children ensures v in CriticalPath(app) {
      assert WellFormedNode(app, u);
      assert v in Elems(At(app.nodes, u).children) && v in Elems(CriticalPath(app));
    }
    NoLossWhenUnfusedFits(app, run);
  }

  // ---- when every call joins equals ----

  /** Every call joins two functions of one size. */
  ghost predicate EqualAlongEdges(app: Application) {
    forall u, v :: u in app.functions && v in At(app.nodes, u).children
      ==> At(app.nodes, u).memoryMB == At(app.nodes, v).memoryMB
  }

  lemma {:induction false} WalkKeepsMemory(app: Application, u: Id, v: Id, n: nat)
    requires WellFormed(app) && EqualAlongEdges(app) && u in app.functions && Walk(app.nodes, u, v, n)
    ensures At(app.nodes, v).memoryMB == At(app.nodes, u).memoryMB
    decreases n
  {
    if n > 0 {
      var w :| Walk(app.nodes, u, w, n - 1) && v in At(app.nodes, w).children;
      WalkInside(app, u, w, n - 1);
      WalkKeepsMemory(app, u, w, n - 1);
    }
  }

  lemma GrownIsUniform(app: Application, run: Run)
    requires WellFormed(app) && RunOK(app, run) && EqualAlongEdges(app)
    ensures UniformGroups(app.nodes, run.grown)
  {
    hide FewestMerges, IsMergeOrder, EqualAlongEdges;
    forall g, u, v | g in run.grown && u in g && v in g ensures At(app.nodes, u).memoryMB == At(app.nodes, v).memoryMB {
      var i :| 0 <= i < |run.grown| && run.grown[i] == g;
      assert Together(run.grown, u, v) && u in Members(run.grown) && v in Members(run.grown);
      var b := run.origin[u];
      BarrierIsFunction(app, run, b);
      WalkKeepsMemory(app, b, u, run.dist[u]);
      WalkKeepsMemory(app, b, v, run.dist[v]);
    }
  }

  lemma ReachedIsPartition(app: Application, run: Run)
    requires WellFormed(app) && RunOK(app, run)
    requires forall f :: f in app.functions ==> Reaches(app.nodes, run.barriers, f)
    ensures IsPartition(app, run.grown)
  {
    hide FewestMerges, IsMergeOrder, Family, Reaches, Walk;
    GrownMembers(app, run);
    assert forall f :: f in app.functions ==> f in Members(run.grown);
  }

  /** Where every call joins functions of one size that fits, and every function is within reach,
      GreedyTP is globally optimal in every run: no partition at all costs less. */
  lemma GloballyOptimalAmongEquals(app: Application, run: Run, p: seq<Group>)
    requires WellFormed(app) && RunOK(app, run) && EqualAlongEdges(app)
    requires forall f :: f in app.functions ==> At(app.nodes, f).memoryMB <= app.maxMemoryMB
    requires forall f :: f in app.functions ==> Reaches(app.nodes, run.barriers, f)
    requires IsPartition(app, p)
    ensures IsPartition(app, Outcome(app, run))
    ensures TotalCostUSD(app, Outcome(app, run)) <= TotalCostUSD(app, p)
  {
    hide TotalCostUSD, UniformGroups, Sum, IsPartition, MergeAll, GroupMemory, Nearest, IsGrown, Reaches,
      EqualAlongEdges, WellFormed;
    ReachedIsPartition(app, run);
    GrownIsUniform(app, run);
    OriginIsFunctions(app, run);
    GrownFits(app, run);
    SafeWhenAllFit(app.nodes, app.maxMemoryMB, run.grown);
    EqualEdgesAreEqualWhereCostly(app);
    PassAttainsBound(app, run.grown, run.order);
    CostLowerBound(app, p);
  }

  lemma EqualEdgesAreEqualWhereCostly(app: Application)
    requires EqualAlongEdges(app) && forall f :: f in app.functions ==> At(app.nodes, f).memoryMB <= app.maxMemoryMB
    ensures EqualAlongCostlyEdges(app)
  { }

  /** So it never loses to doing nothing there. */
  lemma NoLossAmongEquals(app: Application, run: Run)
    requires WellFormed(app) && RunOK(app, run) && EqualAlongEdges(app)
    requires forall f :: f in app.functions ==> At(app.nodes, f).memoryMB <= app.maxMemoryMB
    requires forall f :: f in app.functions ==> Reaches(app.nodes, run.barriers, f)
    ensures TotalCostUSD(app, Outcome(app, run)) <= TotalCostUSD(app, Singles(app.functions))
  {
    hide TotalCostUSD, Outcome, EqualAlongEdges, RunOK, Reaches, WellFormed;
    FunctionsDistinct(app);
    SinglesPartition(app);
    GloballyOptimalAmongEquals(app, run, Singles(app.functions));
  }

  // ---- when the cap leaves no room for a hop ----

  /** The bare runtimes meet the latency cap, but not with one hop more. */
  ghost predicate NoRoomForAHop(app: Application) {
    FastEnough(app) && app.maxLatencyMS < GroupRuntimeMs(app.nodes, CriticalPath(app)) + app.networkHopMS
  }

  lemma HopsOverflow(m: nat, hop: int, room: int)
    requires m * hop <= room < hop
    ensures m == 0 || hop <= 0
  { }

  lemma AllEdgesMerged(app: Application, run: Run)
    requires RunOK(app, run) && app.networkHopMS > 0 && NoRoomForAHop(app)
    ensures run.k == |CriticalPath(app)| - 1
    ensures run.barriers == {RootFunction(app).value}
  {
    hide Nearest, IsGrown, IsMergeOrder, GroupRuntimeMs, CriticalPath;
    var path := CriticalPath(app);
    FewestBound(GroupRuntimeMs(app.nodes, path), app.networkHopMS, app.maxLatencyMS, |path| - 1, run.k);
    HopsOverflow(|path| - 1 - run.k, app.networkHopMS, app.maxLatencyMS - GroupRuntimeMs(app.nodes, path));
    assert PathEdges(path)[..run.k] == PathEdges(path);
  }

  /** Then step 1 merges the whole path, the root is the only barrier and everything grows into one
      group: for any number of functions, GreedyTP costs exactly what Singleton costs. */
  lemma NoRoomMeansSingleton(app: Application, run: Run)
    requires WellFormed(app) && RunOK(app, run) && app.networkHopMS > 0 && NoRoomForAHop(app) && AllReachable(app)
    requires forall f :: f in app.functions ==> At(app.nodes, f).memoryMB <= app.maxMemoryMB
    ensures IsPartition(app, Outcome(app, run))
    ensures TotalCostUSD(app, Outcome(app, run)) == TotalCostUSD(app, [app.functions])
    ensures TotalCostUSD(app, Outcome(app, run)) <= TotalCostUSD(app, Singles(app.functions)) <==>
      TotalCostUSD(app, [app.functions]) <= TotalCostUSD(app, Singles(app.functions))
  {
    hide TotalCostUSD, Outcome, Family, Members, Nearest, IsMergeOrder, FewestMerges, WellFormedNode, NoRoomForAHop,
      Barriers, Together, Reaches;
    AllEdgesMerged(app, run);
    MergingOnlyHelps(app, run);
    ReachedIsPartition(app, run);
    assert Elems(app.functions) == Members(run.grown);
    var gs, all := Outcome(app, run), [app.functions];
    OneGroupPartition(app, app.functions);
    forall u, v | u in app.functions && v in app.functions ensures Together(gs, u, v) <==> Together(all, u, v) {
      OneOrigin(app, run, u);
      OneOrigin(app, run, v);
      BlockIsTogether(all, u, v);
    }
    TogetherSameBlocks(app, gs, all);
    SameBlocksSameCost(app, gs, all);
  }

  lemma OneOrigin(app: Application, run: Run, v: Id)
    requires RunOK(app, run) && run.barriers == {RootFunction(app).value} && v in Members(run.grown)
    ensures v in run.origin && run.origin[v] == RootFunction(app).value
  { }
}
