/** One graph carried through the conversion to the bills of both baselines, in dollars and milliseconds. */
module WorkedBill {
  import opened Sums
  import opened Domain
  import opened Billing
  import opened Coarsening
  import opened GraphToApp
  import opened CostModel
  import opened TightChain

  const API := Id("api")
  const WORKER := Id("worker")
  const GONE := Id("gone")

  /** `api` is invoked 100 times and `worker`, which it calls, 300 times; a GiB goes between them at two
      cents; each has 128 MB and takes 100 ms. A third id is on no node. */
  function FanOut(): Graph {
    Graph(
      map[API := GraphNode(128, 100, 100), WORKER := GraphNode(128, 100, 300)],
      [Edge(API, GONE, 9), Edge(API, WORKER, 1073741824)],
      [API, GONE, WORKER], Some(Constraints(1024, 30000, 10, 0.02)))
  }

  lemma Names()
    ensures API != WORKER && API != GONE && WORKER != GONE
  {
    assert API.name[0] != WORKER.name[0] && API.name[0] != GONE.name[0] && WORKER.name[0] != GONE.name[0];
  }

  lemma FanOutNodes()
    ensures FanOut().nodes.Keys == {API, WORKER} && GONE !in FanOut().nodes
  {
    Names();
  }

  lemma FanOutPath()
    ensures InOrder({API, WORKER}, [API, GONE, WORKER]) == [API, WORKER] && Distinct([API, WORKER])
  {
    hide InOrder, Known;
    var fs := [API, WORKER];
    Names();
    assert Elems(fs) == {API, WORKER} && GONE !in fs;
    KnownIsInOrder({API, WORKER}, fs, [API, GONE, WORKER]);
    KnownParts(fs, [API], [GONE]);
    KnownParts(fs, [API, GONE], [WORKER]);
    KnownWhenAllAre(fs, [API]);
    KnownWhenAllAre(fs, [WORKER]);
    UnknownAreDropped(fs, [GONE]);
    assert [API] + [GONE] == [API, GONE] && [API, GONE] + [WORKER] == [API, GONE, WORKER];
  }

  lemma FanOutFunctions(app: Application)
    requires IsBuiltFrom(FanOut(), app)
    ensures app.functions == CriticalPath(app) == [API, WORKER] && app.networkHopMS == 10
  {
    hide Built, CriticalPath, InOrder;
    FanOutNodes();
    FanOutPath();
    CriticalPathIsKept(FanOut(), app);
    var path, rest := [API, WORKER], app.functions[2..];
    assert Elems(path) == {API, WORKER};
    HasMember(rest);
    assert forall f :: f in rest ==> f in Elems(rest);
    assert app.functions == path + rest;
  }

  lemma FanOutCalls()
    ensures var g := FanOut();
      && Callees(g.nodes.Keys, g.edges, API) == [WORKER] && Callees(g.nodes.Keys, g.edges, WORKER) == []
      && IsLastBetween(g.edges, 1, API, WORKER) && IsLastInto(g.nodes.Keys, g.edges, 1, WORKER)
      && (forall i: nat :: !IsLastInto(g.nodes.Keys, g.edges, i, API))
  {
    var g := FanOut();
    var known, first, last := g.nodes.Keys, [Edge(API, GONE, 9)], [Edge(API, WORKER, 1073741824)];
    Names();
    FanOutNodes();
    assert g.edges == first + last;
    CalleesParts(known, first, last, API);
    CalleesParts(known, first, last, WORKER);
    CalleesParts(known, last, [], API);
    CalleesParts(known, last, [], WORKER);
  }

  /** Sizes, calls, bytes, price and rates as they arrive in the application. */
  lemma FanOutBuilt(app: Application)
    requires IsBuiltFrom(FanOut(), app)
    ensures var api, worker := At(app.nodes, API), At(app.nodes, WORKER);
      && api.memoryMB == worker.memoryMB == 128 && api.runtimeMs == worker.runtimeMs == 100
      && api.invocationRate == 1.0 && worker.invocationRate == 3.0
      && api.children == [WORKER] && worker.children == []
      && api.parent == None && worker.parent == Some(API)
      && WORKER in api.dataOutBytes && api.dataOutBytes[WORKER] == 1073741824
      && api.transferUSDPerGiB == worker.transferUSDPerGiB == 0.02
  {
    hide Built, Callees, IsLastBetween, IsLastInto, IsOrdering, InOrder, CriticalPath, FirstParentless;
    var g := FanOut();
    Names();
    FanOutNodes();
    FanOutFunctions(app);
    FanOutCalls();
    NodeOnFields(g, app, API);
    NodeOnFields(g, app, WORKER);
    FanOutRoot(app);
    RateOnFields(g, app, API);
    RateOnFields(g, app, WORKER);
  }

  lemma FanOutRoot(app: Application)
    requires app.functions == [API, WORKER] && At(app.nodes, API).parent == None
    ensures RootFunction(app) == Some(API)
  {
    assert [API, WORKER][..1] == [API] && [API][..0] == [];
    assert FirstParentless(app.nodes, [API]) == Some(API);
  }

  lemma FanOutWellFormed(app: Application)
    requires IsBuiltFrom(FanOut(), app)
    ensures WellFormed(app)
  {
    hide Built, InOrder;
    Names();
    FanOutNodes();
    FanOutPath();
    WellFormedExactly(FanOut(), app);
  }

  lemma TwoFunctions(h: Id -> real)
    ensures Sum({API, WORKER}, h) == h(API) + h(WORKER)
  {
    Names();
    SumSingle(API, h);
    SumInsert({API}, h, WORKER);
    assert {API} + {WORKER} == {API, WORKER};
  }

  /** What a function of 128 MB and 100 ms costs in a block of its equals. */
  lemma MemberBill(app: Application, p: seq<Group>, f: Id, entry: real, sent: real)
    requires At(app.nodes, f).runtimeMs == 100 && MaxMemory(app.nodes, Block(p, f)) == 128
    requires Sum(Elems(app.functions) - Block(p, f), PricedBytes(app.nodes, f)) == sent
    requires entry == if At(app.nodes, f).parent.Some? && At(app.nodes, f).parent.value in Block(p, f) then 0.0
                      else At(app.nodes, f).invocationRate
    requires At(app.nodes, f).invocationRate > 0.0
    ensures FieldBill(app, p)(f) == 0.00001667 * 0.0125 + 0.0000002 * entry + sent
  {
    hide Sum, MaxMemory, Block;
    assert (128 as real / 1024.0) * (100 as real / 1000.0) == 0.0125;
  }

  lemma Sent(app: Application)
    requires IsBuiltFrom(FanOut(), app)
    ensures Sum({WORKER}, PricedBytes(app.nodes, API)) == 0.02
    ensures Sum({API}, PricedBytes(app.nodes, WORKER)) == 0.0
    ensures Sum({}, PricedBytes(app.nodes, API)) == Sum({}, PricedBytes(app.nodes, WORKER)) == 0.0
  {
    hide IsBuiltFrom;
    FanOutBuilt(app);
    NoBytesBack(app);
    SumSingle(WORKER, PricedBytes(app.nodes, API));
    SumSingle(API, PricedBytes(app.nodes, WORKER));
  }

  /** NoFusion: four requests per request to the application, the execution of both, and a GiB at two cents. */
  lemma UnfusedBill(app: Application)
    requires IsBuiltFrom(FanOut(), app)
    ensures TotalCostUSD(app, Singles(app.functions)) == 0.0000008 + 2.0 * (0.00001667 * 0.0125) + 0.02
  {
    hide TotalCostUSD, Sum, WellFormed, IsPartition, IsBuiltFrom, MaxMemory, Block, PricedBytes, FieldBill,
      CriticalPath;
    var none, s := Singles(app.functions), app.nodes;
    Names();
    FanOutBuilt(app);
    FanOutFunctions(app);
    FanOutWellFormed(app);
    FunctionsDistinct(app);
    SinglesPartition(app);
    BillOnFields(app, none);
    assert API in app.functions && WORKER in app.functions && Elems(app.functions) == {API, WORKER};
    TwoFunctions(FieldBill(app, none));
    Sent(app);
    assert {API, WORKER} - {API} == {WORKER} && {API, WORKER} - {WORKER} == {API};
    OneSize(s, {API});
    OneSize(s, {WORKER});
    MemberBill(app, none, API, 1.0, 0.02);
    MemberBill(app, none, WORKER, 3.0, 0.0);
  }

  lemma OneSize(s: Store, b: set<Id>)
    requires b != {} && forall f :: f in b ==> At(s, f).memoryMB == 128
    ensures MaxMemory(s, b) == 128
  { }

  lemma NoBytesBack(app: Application)
    requires IsBuiltFrom(FanOut(), app)
    ensures WORKER in At(app.nodes, API).dataOutBytes && API !in At(app.nodes, WORKER).dataOutBytes
  {
    hide IsBuiltFrom;
    FanOutBuilt(app);
    FanOutWellFormed(app);
    FanOutFunctions(app);
    assert WellFormedNode(app, WORKER) by { assert app.functions[1] == WORKER; }
    assert Elems<Id>([]) == {};
  }

  /** Fused, only the request to `api` and the execution are left. */
  lemma FusedBill(app: Application)
    requires IsBuiltFrom(FanOut(), app)
    ensures TotalCostUSD(app, [[API, WORKER]]) == 0.0000002 + 2.0 * (0.00001667 * 0.0125)
    ensures MergeProfitUSD(app.nodes, [API], [WORKER]) == 0.0000006 + 0.02
  {
    hide TotalCostUSD, Sum, WellFormed, IsPartition, IsBuiltFrom, MaxMemory, Block, MergeProfitUSD, PricedBytes,
      FieldBill, CriticalPath;
    var one, s := [[API, WORKER]], app.nodes;
    Names();
    FanOutBuilt(app);
    FanOutFunctions(app);
    FanOutWellFormed(app);
    FunctionsDistinct(app);
    OneGroupPartition(app, app.functions);
    BillOnFields(app, one);
    assert API in app.functions && WORKER in app.functions && Elems(app.functions) == {API, WORKER};
    TwoFunctions(FieldBill(app, one));
    Sent(app);
    assert {API, WORKER} - {API, WORKER} == {};
    OneSize(s, {API, WORKER});
    MemberBill(app, one, API, 1.0, 0.0);
    MemberBill(app, one, WORKER, 0.0, 0.0);
    UnfusedBill(app);
    FusedCost(app, API, WORKER);
  }

  lemma OneBoundary(app: Application)
    requires Distinct(app.functions) && app.functions == [API, WORKER]
    ensures Boundaries(Singles(app.functions), [API, WORKER]) == {0}
    ensures Boundaries([app.functions], [API, WORKER]) == {}
  {
    hide Block;
    Names();
    SinglesPartition(app);
    OneGroupPartition(app, app.functions);
    assert API in app.functions && WORKER in app.functions && WORKER in Elems(app.functions);
  }

  lemma PathTime(s: Store)
    ensures SeqSum([API, WORKER], RuntimeOf(s)) == At(s, API).runtimeMs as real + At(s, WORKER).runtimeMs as real
  {
    SeqSumSnoc([], API, RuntimeOf(s));
    SeqSumSnoc([API], WORKER, RuntimeOf(s));
    assert [] + [API] == [API] && [API] + [WORKER] == [API, WORKER];
  }

  /** Two times 100 ms, and a hop of 10 ms unless they are fused. */
  lemma FanOutLatency(app: Application)
    requires IsBuiltFrom(FanOut(), app)
    ensures Latency(app, Singles(app.functions)) == 210 && Latency(app, [[API, WORKER]]) == 200
  {
    hide IsBuiltFrom, CriticalPath, Block, Latency, Boundaries, SeqSum, WellFormed, IsPartition;
    FanOutBuilt(app);
    FanOutFunctions(app);
    FanOutWellFormed(app);
    FunctionsDistinct(app);
    SinglesPartition(app);
    OneGroupPartition(app, app.functions);
    LatencyOnFields(app, Singles(app.functions));
    LatencyOnFields(app, [app.functions]);
    OneBoundary(app);
    PathTime(app.nodes);
  }
}
