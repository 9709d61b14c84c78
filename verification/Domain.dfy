/** The application graph, partitions of it, and what they cost.

    A pointer to a function node is its `Id`; a `Store` is the heap those pointers look into. */
module Domain {
  import opened Sums

  datatype Option<+T> = None | Some(value: T)

  datatype Id = Id(name: string)

  /** One function of the call graph, with the fields the cost model reads. */
  datatype Node = Node(
    memoryMB: nat,
    runtimeMs: nat,
    invocationRate: real,
    transferUSDPerGiB: real,
    dataOutBytes: map<Id, nat>,
    parent: Option<Id>,
    children: seq<Id>)

  type Store = map<Id, Node>

  const EMPTY_NODE := Node(0, 0, 0.0, 0.0, map[], None, [])

  function At(s: Store, f: Id): Node {
    if f in s then s[f] else EMPTY_NODE
  }

  type Group = seq<Id>

  datatype Application = Application(
    nodes: Store,
    functions: seq<Id>,
    criticalPathIDs: seq<Id>,
    maxMemoryMB: int,
    maxLatencyMS: int,
    networkHopMS: int)

  datatype Metrics = Metrics(totalCostUSD: real, latencyMS: int, feasible: bool)

  datatype Tradeoff = Tradeoff(
    invocationsRemoved: real,
    requestDeltaUSD: real,
    executionDeltaUSD: real,
    hopsRemoved: int)

  /** A graph as `graphToApp` builds it from distinct edges: closed, duplicate free, non-negative. */
  ghost predicate WellFormed(app: Application) {
    && Distinct(app.functions)
    && app.networkHopMS >= 0
    && forall f :: f in app.functions ==> WellFormedNode(app, f)
  }

  ghost predicate WellFormedNode(app: Application, f: Id) {
    var n := At(app.nodes, f);
    && n.invocationRate >= 0.0
    && n.transferUSDPerGiB >= 0.0
    && Distinct(n.children)
    && n.dataOutBytes.Keys == Elems(n.children)
    && Elems(n.children) <= Elems(app.functions)
    && (n.parent.Some? ==> n.parent.value in app.functions && f in At(app.nodes, n.parent.value).children)
  }

  // ---- prices ----

  const EXECUTION_PRICE_USD_PER_GB_SECOND: real := 0.00001667
  const GIB: real := 1073741824.0

  function Rate(s: Store, f: Id): real {
    if At(s, f).invocationRate == 0.0 then 1.0 else At(s, f).invocationRate
  }

  function DataTransferCostUSD(s: Store, f: Id, child: Id): real {
    var n := At(s, f);
    if n.transferUSDPerGiB == 0.0 then 0.0 else
    var bytes := if child in n.dataOutBytes then n.dataOutBytes[child] else 0;
    bytes as real / GIB * n.transferUSDPerGiB
  }

  function ExecutionCostUSD(memoryMB: nat, runtimeMs: nat): real {
    EXECUTION_PRICE_USD_PER_GB_SECOND * ((memoryMB as real / 1024.0) * (runtimeMs as real / 1000.0))
  }

  /** $0.20 per million platform invocations. */
  function RequestCharge(invocations: real): real {
    0.0000002 * invocations
  }

  function Max(a: nat, b: nat): nat {
    if a < b then b else a
  }

  // ---- one group ----

  function GroupMemory(s: Store, g: Group): (m: nat)
    ensures forall f :: f in g ==> At(s, f).memoryMB <= m
    ensures m == 0 || exists f :: f in g && At(s, f).memoryMB == m
  {
    if g == [] then 0 else
    var last := g[|g| - 1];
    assert g == g[..|g| - 1] + [last];
    Max(GroupMemory(s, g[..|g| - 1]), At(s, last).memoryMB)
  }

  function GroupRuntimeMs(s: Store, g: Group): nat {
    if g == [] then 0 else GroupRuntimeMs(s, g[..|g| - 1]) + At(s, g[|g| - 1]).runtimeMs
  }

  function GroupExecutionCostUSD(s: Store, g: Group): real {
    ExecutionCostUSD(GroupMemory(s, g), GroupRuntimeMs(s, g))
  }

  /** The platform invokes a member exactly when its caller is not in the same group. */
  function EntryRateAt(s: Store, inGroup: set<Id>, f: Id): real {
    var p := At(s, f).parent;
    if p.None? || p.value !in inGroup then Rate(s, f) else 0.0
  }

  ghost function EntryRate(s: Store, inGroup: set<Id>): Id -> real {
    (f: Id) => EntryRateAt(s, inGroup, f)
  }

  ghost function BlockInvocationRate(s: Store, g: Group): real {
    SeqSum(g, EntryRate(s, Elems(g)))
  }

  ghost function RequestCostUSD(s: Store, g: Group): real {
    RequestCharge(BlockInvocationRate(s, g))
  }

  ghost function BlockCharge(s: Store): Group -> real {
    (g: Group) => GroupExecutionCostUSD(s, g) + RequestCostUSD(s, g)
  }

  // ---- two groups ----

  /** Bytes in both directions between `f` and `g`. */
  ghost function Exchange(s: Store): (Id, Id) -> real {
    (f: Id, g: Id) => DataTransferCostUSD(s, f, g) + DataTransferCostUSD(s, g, f)
  }

  ghost function SeqRow(ys: seq<Id>, h: (Id, Id) -> real): Id -> real {
    (x: Id) => SeqSum(ys, Fix(h, x))
  }

  ghost function MergeProfitUSD(s: Store, a: Group, b: Group): real {
    var executionAdded := GroupExecutionCostUSD(s, a + b) - GroupExecutionCostUSD(s, a) - GroupExecutionCostUSD(s, b);
    var requestSaved := RequestCostUSD(s, a) + RequestCostUSD(s, b) - RequestCostUSD(s, a + b);
    var transferSaved := SeqSum(a, SeqRow(b, Exchange(s)));
    transferSaved + requestSaved - executionAdded
  }

  // ---- a list of groups ----

  /** The index the last assignment to `f` leaves behind when groups are scanned in order. */
  function Owner(groups: seq<Group>, f: Id): (o: Option<nat>)
    ensures o.Some? ==> o.value < |groups| && f in groups[o.value]
    ensures o.None? ==> forall i :: 0 <= i < |groups| ==> f !in groups[i]
  {
    if groups == [] then None
    else if f in groups[|groups| - 1] then Some(|groups| - 1)
    else Owner(groups[..|groups| - 1], f)
  }

  function GroupID(g: Group): Id {
    if g == [] then Id("") else g[0]
  }

  /** Both ends are placed, in groups with different canonical names. */
  predicate IsCut(groups: seq<Group>, u: Id, v: Id) {
    && Owner(groups, u).Some?
    && Owner(groups, v).Some?
    && GroupID(groups[Owner(groups, u).value]) != GroupID(groups[Owner(groups, v).value])
  }

  ghost function CutEdgeCharge(s: Store, groups: seq<Group>, f: Id): Id -> real {
    (c: Id) => if IsCut(groups, f, c) then DataTransferCostUSD(s, f, c) else 0.0
  }

  ghost function CutCharge(s: Store, groups: seq<Group>): Id -> real {
    (f: Id) => SeqSum(At(s, f).children, CutEdgeCharge(s, groups, f))
  }

  ghost function TotalCostUSD(app: Application, groups: seq<Group>): real {
    SeqSum(groups, BlockCharge(app.nodes)) + SeqSum(app.functions, CutCharge(app.nodes, groups))
  }

  // ---- positions ----

  /** The position an index map built in order ends up with. */
  function LastIndex(functions: seq<Id>, f: Id): nat {
    if functions == [] then 0
    else if functions[|functions| - 1] == f then |functions| - 1
    else LastIndex(functions[..|functions| - 1], f)
  }

  lemma IndexIsUnique(functions: seq<Id>, i: nat)
    requires Distinct(functions) && i < |functions|
    ensures LastIndex(functions, functions[i]) == i
  {
    if i < |functions| - 1 {
      IndexIsUnique(functions[..|functions| - 1], i);
    }
  }

  lemma IndexOfMember(functions: seq<Id>, f: Id)
    requires f in functions
    ensures LastIndex(functions, f) < |functions| && functions[LastIndex(functions, f)] == f
  {
    if functions[|functions| - 1] != f {
      IndexOfMember(functions[..|functions| - 1], f);
    }
  }

  // ---- the critical path ----

  function Known(functions: seq<Id>, ids: seq<Id>): (path: seq<Id>)
    ensures forall f :: f in path ==> f in functions
  {
    if ids == [] then [] else
    var rest := Known(functions, ids[..|ids| - 1]);
    if ids[|ids| - 1] in functions then rest + [ids[|ids| - 1]] else rest
  }

  function CriticalPath(app: Application): (path: seq<Id>)
    ensures forall f :: f in path ==> f in app.functions
  {
    Known(app.functions, app.criticalPathIDs)
  }

  /** The first function nothing calls. */
  function FirstParentless(s: Store, functions: seq<Id>): Option<Id> {
    if functions == [] then None else
    var rest, last := FirstParentless(s, functions[..|functions| - 1]), functions[|functions| - 1];
    if rest.Some? then rest else if At(s, last).parent.None? then Some(last) else None
  }

  lemma {:induction false} RootIsFunction(s: Store, functions: seq<Id>)
    ensures FirstParentless(s, functions).Some? ==>
      FirstParentless(s, functions).value in functions && At(s, FirstParentless(s, functions).value).parent.None?
  {
    if functions != [] {
      RootIsFunction(s, functions[..|functions| - 1]);
    }
  }

  function RootFunction(app: Application): Option<Id> {
    FirstParentless(app.nodes, app.functions)
  }

  /** Consecutive pairs of a path whose ends are cut. */
  function PathCuts(groups: seq<Group>, path: seq<Id>): nat {
    if |path| < 2 then 0 else
    PathCuts(groups, path[..|path| - 1]) + if IsCut(groups, path[|path| - 2], path[|path| - 1]) then 1 else 0
  }

  function Latency(app: Application, groups: seq<Group>): int {
    var path := CriticalPath(app);
    GroupRuntimeMs(app.nodes, path) + PathCuts(groups, path) * app.networkHopMS
  }

  /** Every consecutive pair of a path is a call. */
  ghost predicate PathIsWalk(s: Store, path: seq<Id>) {
    forall i :: 0 <= i < |path| - 1 ==> path[i + 1] in At(s, path[i]).children
  }

  predicate MemoryFits(app: Application, groups: seq<Group>) {
    forall g :: g in groups ==> GroupMemory(app.nodes, g) <= app.maxMemoryMB
  }

  predicate Feasible(app: Application, groups: seq<Group>) {
    && MemoryFits(app, groups)
    && (CriticalPath(app) == [] || Latency(app, groups) <= app.maxLatencyMS)
  }

  ghost function MetricsOf(app: Application, groups: seq<Group>): Metrics {
    Metrics(TotalCostUSD(app, groups), Latency(app, groups), Feasible(app, groups))
  }

  // ---- partitions ----

  /** No function appears twice, in one group or in two. */
  ghost predicate Family(groups: seq<Group>) {
    forall i, k, j, l |
      0 <= i < |groups| && 0 <= k < |groups[i]| && 0 <= j < |groups| && 0 <= l < |groups[j]| ::
      groups[i][k] == groups[j][l] ==> i == j && k == l
  }

  ghost function Members(groups: seq<Group>): set<Id> {
    set i, f | 0 <= i < |groups| && f in groups[i] :: f
  }

  ghost predicate Together(groups: seq<Group>, u: Id, v: Id) {
    exists i :: 0 <= i < |groups| && u in groups[i] && v in groups[i]
  }

  ghost predicate IsPartition(app: Application, groups: seq<Group>) {
    Family(groups) && Members(groups) == Elems(app.functions)
  }

  lemma HasMember(g: seq<Id>)
    ensures g != [] ==> exists f :: f in g
  {
    if g != [] { assert g[0] in g; }
  }

  /** The members of the group `f` is in. */
  ghost function Block(groups: seq<Group>, f: Id): set<Id> {
    match Owner(groups, f)
    case None => {}
    case Some(i) => Elems(groups[i])
  }
}
