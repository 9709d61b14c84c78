/** From a parsed graph to the application the optimizers read: nodes are created, then wired and
    priced in place. */
module GraphToApp {
  import opened Sums
  import opened Domain
  import opened Families
  import opened RepeatedCalls
  import Evaluation

  datatype GraphNode = GraphNode(memoryMB: nat, runtimeMs: nat, invocationCount: int)

  datatype Edge = Edge(from: Id, to: Id, dataBytes: nat)

  datatype Constraints = Constraints(maxMemoryMB: int, maxLatencyMS: int, networkHopMS: int, transferUSDPerGiB: real)

  datatype Graph = Graph(
    nodes: map<Id, GraphNode>,
    edges: seq<Edge>,
    criticalPath: seq<Id>,
    constraints: Option<Constraints>)

  // ---- the nodes as objects ----

  class FunctionNode {
    const id: Id
    const memoryMB: nat
    const runtimeMs: nat
    const invocationCount: int
    var invocationRate: real
    var transferUSDPerGiB: real
    var dataOutBytes: Option<map<Id, nat>>
    var parent: FunctionNode?
    var children: seq<FunctionNode>

    constructor (id: Id, from: GraphNode)
      ensures this.id == id && invocationCount == from.invocationCount
      ensures parent == null && children == [] && invocationRate == 1.0
      ensures Value() == Unwired(from)
    {
      this.id, memoryMB, runtimeMs, invocationCount := id, from.memoryMB, from.runtimeMs, from.invocationCount;
      invocationRate, transferUSDPerGiB := 1.0, 0.0;
      dataOutBytes, parent, children := Some(map[]), null, [];
    }

    /** A node that was never given a byte map reads as one with no bytes. */
    function Bytes(): map<Id, nat>
      reads `dataOutBytes
    {
      if dataOutBytes.None? then map[] else dataOutBytes.value
    }

    /** What the cost model sees of this object. */
    function Value(): Node
      reads this
    {
      Node(memoryMB, runtimeMs, invocationRate, transferUSDPerGiB, Bytes(),
           if parent == null then None else Some(parent.id), Ids(children))
    }

    /** `child` may be this very object, and the byte map is made when there is none. */
    method AddChild(child: FunctionNode, dataBytes: nat)
      modifies `children, `dataOutBytes, child`parent
      ensures children == old(children) + [child] && child.parent == this
      ensures dataOutBytes == Some(old(Bytes())[child.id := dataBytes])
    {
      children := children + [child];
      child.parent := this;
      if dataOutBytes.None? {
        dataOutBytes := Some(map[]);
      }
      dataOutBytes := Some(dataOutBytes.value[child.id := dataBytes]);
    }
  }

  function Ids(nodes: seq<FunctionNode>): seq<Id> {
    seq(|nodes|, i requires 0 <= i < |nodes| => nodes[i].id)
  }

  function Unwired(from: GraphNode): Node {
    Node(from.memoryMB, from.runtimeMs, 1.0, 0.0, map[], None, [])
  }

  /** Every object is filed under its own id and points only at objects of the same map. */
  ghost predicate Linked(fm: map<Id, FunctionNode>)
    reads fm.Values`parent, fm.Values`children
  {
    forall id :: id in fm ==>
      && fm[id].id == id
      && (fm[id].parent != null ==> fm[id].parent.id in fm && fm[fm[id].parent.id] == fm[id].parent)
      && forall c :: c in fm[id].children ==> c.id in fm && fm[c.id] == c
  }

  function View(fm: map<Id, FunctionNode>): Store
    reads fm.Values
  {
    map id | id in fm :: fm[id].Value()
  }

  // ---- what wiring means ----

  ghost predicate InGraph(known: set<Id>, e: Edge) {
    e.from in known && e.to in known
  }

  /** A caller gains a callee and the callee's parent is overwritten; an edge with an unknown end is skipped. */
  function AddEdge(s: Store, e: Edge): (r: Store)
    ensures r.Keys == s.Keys
  {
    if e.from !in s || e.to !in s then s else
    var caller := s[e.from];
    var called := s[e.from := caller.(children := caller.children + [e.to],
        dataOutBytes := caller.dataOutBytes[e.to := e.dataBytes])];
    called[e.to := called[e.to].(parent := Some(e.from))]
  }

  function Wired(s: Store, edges: seq<Edge>): (r: Store)
    ensures r.Keys == s.Keys
  {
    if edges == [] then s else AddEdge(Wired(s, edges[..|edges| - 1]), edges[|edges| - 1])
  }

  function Fresh(g: Graph): Store {
    map id | id in g.nodes :: Unwired(g.nodes[id])
  }

  /** The callees of `u` in edge order, with repetitions. */
  ghost function Callees(known: set<Id>, edges: seq<Edge>, u: Id): (callees: seq<Id>)
    ensures forall v :: v in callees <==> exists e :: e in edges && e.from == u && e.to == v && InGraph(known, e)
  {
    if edges == [] then [] else
    var last := edges[|edges| - 1];
    assert edges == edges[..|edges| - 1] + [last];
    Callees(known, edges[..|edges| - 1], u) + if InGraph(known, last) && last.from == u then [last.to] else []
  }

  /** The source of the last edge into `v`. */
  ghost function LastCaller(known: set<Id>, edges: seq<Edge>, v: Id): (caller: Option<Id>)
    ensures caller.None? <==> forall e :: e in edges && InGraph(known, e) ==> e.to != v
    ensures caller.Some? ==> exists e :: e in edges && e.from == caller.value && e.to == v && InGraph(known, e)
  {
    if edges == [] then None else
    var last := edges[|edges| - 1];
    assert edges == edges[..|edges| - 1] + [last];
    if InGraph(known, last) && last.to == v then Some(last.from) else LastCaller(known, edges[..|edges| - 1], v)
  }

  /** `after` is `before` with exactly these edges added: callees in edge order, the last caller as parent. */
  ghost predicate IsWired(known: set<Id>, edges: seq<Edge>, id: Id, before: Node, after: Node) {
    && after.children == Callees(known, edges, id)
    && after.dataOutBytes.Keys == Elems(after.children)
    && after.parent == LastCaller(known, edges, id)
    && after == before.(children := after.children, dataOutBytes := after.dataOutBytes, parent := after.parent)
  }

  lemma EdgeKeepsWired(known: set<Id>, edges: seq<Edge>, id: Id, before: Node, s: Store)
    requires edges != [] && s.Keys == known && id in known
    requires IsWired(known, edges[..|edges| - 1], id, before, s[id])
    ensures IsWired(known, edges, id, before, AddEdge(s, edges[|edges| - 1])[id])
  {
    var e := edges[|edges| - 1];
    var n, n' := s[id], AddEdge(s, e)[id];
    if InGraph(known, e) && e.from == id {
      assert n'.children == n.children + [e.to] && n'.dataOutBytes == n.dataOutBytes[e.to := e.dataBytes];
      assert Elems(n'.children) == Elems(n.children) + {e.to};
    } else {
      assert n'.children == n.children && n'.dataOutBytes == n.dataOutBytes;
    }
  }

  lemma NotYetWired(known: set<Id>, id: Id, n: Node)
    requires n.children == [] && n.dataOutBytes == map[] && n.parent == None
    ensures IsWired(known, [], id, n, n)
  { }

  lemma {:induction false} WiredMeaning(s: Store, edges: seq<Edge>)
    requires forall id :: id in s ==> s[id].children == [] && s[id].dataOutBytes == map[] && s[id].parent == None
    ensures forall id :: id in s ==> IsWired(s.Keys, edges, id, s[id], Wired(s, edges)[id])
  {
    hide IsWired, AddEdge, Callees, LastCaller;
    if edges == [] {
      forall id | id in s ensures IsWired(s.Keys, [], id, s[id], s[id]) {
        NotYetWired(s.Keys, id, s[id]);
      }
    } else {
      var init := edges[..|edges| - 1];
      WiredMeaning(s, init);
      forall id | id in s ensures IsWired(s.Keys, edges, id, s[id], Wired(s, edges)[id]) {
        EdgeKeepsWired(s.Keys, edges, id, s[id], Wired(s, init));
      }
    }
  }

  /** No two edges inside the graph share both ends. */
  ghost predicate EdgesDistinct(known: set<Id>, edges: seq<Edge>) {
    forall i, j | 0 <= i < j < |edges| && InGraph(known, edges[i]) && InGraph(known, edges[j]) ::
      edges[i].from != edges[j].from || edges[i].to != edges[j].to
  }

  lemma DistinctSnoc(xs: seq<Id>, x: Id)
    ensures Distinct(xs + [x]) <==> Distinct(xs) && x !in xs
  {
    var ys := xs + [x];
    assert forall i :: 0 <= i < |xs| ==> ys[i] == xs[i];
    assert ys[|xs|] == x;
  }

  lemma {:induction false} CalleesDistinct(known: set<Id>, edges: seq<Edge>)
    ensures EdgesDistinct(known, edges) <==> forall u :: u in known ==> Distinct(Callees(known, edges, u))
  {
    if edges != [] {
      var init, last := edges[..|edges| - 1], edges[|edges| - 1];
      CalleesDistinct(known, init);
      assert edges == init + [last];
      if InGraph(known, last) {
        var u := last.from;
        DistinctSnoc(Callees(known, init, u), last.to);
        assert EdgesDistinct(known, edges) <==> EdgesDistinct(known, init) && last.to !in Callees(known, init, u) by {
          EdgesDistinctSnoc(known, init, last);
        }
        assert forall w :: w in known && w != u ==> Callees(known, edges, w) == Callees(known, init, w);
      } else {
        assert forall w :: w in known ==> Callees(known, edges, w) == Callees(known, init, w);
      }
    }
  }

  lemma EdgesDistinctSnoc(known: set<Id>, init: seq<Edge>, last: Edge)
    requires InGraph(known, last)
    ensures EdgesDistinct(known, init + [last]) <==>
      EdgesDistinct(known, init) && last.to !in Callees(known, init, last.from)
  {
    var edges := init + [last];
    assert forall i :: 0 <= i < |init| ==> edges[i] == init[i];
    assert edges[|init|] == last;
  }

  // ---- the application ----

  function Limits(g: Graph): Constraints {
    match g.constraints
    case None => Constraints(1024, 30000, 20, 0.0)
    case Some(c) => c
  }

  function EntryCount(g: Graph, s: Store, functions: seq<Id>): int {
    match FirstParentless(s, functions)
    case None => 0
    case Some(f) => if f in g.nodes then g.nodes[f].invocationCount else 0
  }

  function RateOf(count: int, base: int): real {
    if base > 0 && count > 0 then count as real / base as real else 1.0
  }

  function Priced(s: Store, price: real): Store {
    map id | id in s :: s[id].(transferUSDPerGiB := price)
  }

  function Rated(g: Graph, s: Store, base: int): Store {
    map id | id in s :: s[id].(invocationRate := RateOf(if id in g.nodes then g.nodes[id].invocationCount else 0, base))
  }

  /** The nodes once wired, priced and given their rates. */
  function Built(g: Graph, functions: seq<Id>): Store {
    var s := Priced(Wired(Fresh(g), g.edges), Limits(g).transferUSDPerGiB);
    Rated(g, s, EntryCount(g, s, functions))
  }

  function InOrder(nodes: set<Id>, ids: seq<Id>): (known: seq<Id>)
    ensures forall f :: f in known <==> f in ids && f in nodes
  {
    if ids == [] then [] else
    var last := ids[|ids| - 1];
    assert ids == ids[..|ids| - 1] + [last];
    InOrder(nodes, ids[..|ids| - 1]) + if last in nodes then [last] else []
  }

  /** The critical path first, as given; then every other node once, in any order. */
  ghost predicate IsOrdering(g: Graph, functions: seq<Id>) {
    var path := InOrder(g.nodes.Keys, g.criticalPath);
    && path <= functions
    && Distinct(functions[|path|..])
    && Elems(functions[|path|..]) == g.nodes.Keys - Elems(path)
  }

  ghost predicate IsBuiltFrom(g: Graph, app: Application) {
    && IsOrdering(g, app.functions)
    && app == Application(Built(g, app.functions), app.functions, g.criticalPath,
                          Limits(g).maxMemoryMB, Limits(g).maxLatencyMS, Limits(g).networkHopMS)
  }

  // ---- the loops ----

  method CreateNodes(g: Graph) returns (fm: map<Id, FunctionNode>)
    ensures fm.Keys == g.nodes.Keys && Linked(fm) && View(fm) == Fresh(g)
    ensures forall id :: id in fm ==> fresh(fm[id])
    ensures forall id ::
      id in fm ==> fm[id].invocationCount == g.nodes[id].invocationCount && fm[id].invocationRate == 1.0
  {
    fm := map[];
    var rest := g.nodes.Keys;
    while rest != {}
      invariant rest <= g.nodes.Keys && fm.Keys == g.nodes.Keys - rest && Linked(fm)
      invariant forall id :: id in fm ==> fresh(fm[id])
      invariant forall id ::
        id in fm ==> fm[id].invocationCount == g.nodes[id].invocationCount && fm[id].invocationRate == 1.0
      invariant forall id :: id in fm ==> fm[id].parent == null && fm[id].children == []
      invariant forall id :: id in fm ==> fm[id].Value() == Unwired(g.nodes[id])
      decreases rest
    {
      var id :| id in rest;
      var node := new FunctionNode(id, g.nodes[id]);
      fm, rest := fm[id := node], rest - {id};
    }
  }

  /** Both ends resolve to objects of the map, so one step in place is one `AddEdge` on values. */
  method WireEdge(fm: map<Id, FunctionNode>, e: Edge)
    requires Linked(fm)
    modifies fm.Values`children, fm.Values`dataOutBytes, fm.Values`parent
    ensures Linked(fm) && View(fm) == AddEdge(old(View(fm)), e)
  {
    hide Ids;
    if e.from in fm && e.to in fm {
      var caller, child := fm[e.from], fm[e.to];
      caller.AddChild(child, e.dataBytes);
      IdsSnoc(old(caller.children), child);
      ghost var s := AddEdge(old(View(fm)), e);
      assert Linked(fm);
      forall id | id in fm ensures fm[id].Value() == s[id] {
        assert fm[id].id == id;
      }
      assert View(fm) == s;
    }
  }

  lemma IdsSnoc(nodes: seq<FunctionNode>, n: FunctionNode)
    ensures Ids(nodes + [n]) == Ids(nodes) + [n.id]
  { }

  method WireEdges(fm: map<Id, FunctionNode>, edges: seq<Edge>)
    requires Linked(fm)
    modifies fm.Values`children, fm.Values`dataOutBytes, fm.Values`parent
    ensures Linked(fm) && View(fm) == Wired(old(View(fm)), edges)
  {
    for i := 0 to |edges|
      invariant Linked(fm) && View(fm) == Wired(old(View(fm)), edges[..i])
    {
      assert edges[..i + 1][..i] == edges[..i];
      WireEdge(fm, edges[i]);
    }
    assert edges[..|edges|] == edges;
  }

  method OnPath(g: Graph) returns (onPath: set<Id>, path: seq<Id>)
    ensures onPath == Elems(g.criticalPath) && path == InOrder(g.nodes.Keys, g.criticalPath)
  {
    onPath, path := {}, [];
    for i := 0 to |g.criticalPath|
      invariant onPath == Elems(g.criticalPath[..i])
    {
      assert g.criticalPath[..i + 1] == g.criticalPath[..i] + [g.criticalPath[i]];
      onPath := onPath + {g.criticalPath[i]};
    }
    for i := 0 to |g.criticalPath|
      invariant path == InOrder(g.nodes.Keys, g.criticalPath[..i])
    {
      assert g.criticalPath[..i + 1][..i] == g.criticalPath[..i];
      if g.criticalPath[i] in g.nodes {
        path := path + [g.criticalPath[i]];
      }
    }
    assert g.criticalPath[..|g.criticalPath|] == g.criticalPath;
  }

  method OrderFunctions(g: Graph) returns (functions: seq<Id>)
    ensures IsOrdering(g, functions)
  {
    hide Distinct;
    var onPath, path := OnPath(g);
    functions := path;
    ghost var others: seq<Id> := [];
    assert Distinct(others) by { NothingRepeats(); }
    var rest := g.nodes.Keys;
    while rest != {}
      invariant Distinct(others) && functions == path + others && rest <= g.nodes.Keys
      invariant Elems(others) == g.nodes.Keys - rest - onPath
      decreases rest
    {
      var id :| id in rest;
      rest := rest - {id};
      if id !in onPath {
        assert id !in Elems(others);
        DistinctSnoc(others, id);
        assert Elems(others + [id]) == Elems(others) + {id};
        functions, others := functions + [id], others + [id];
      }
    }
    assert functions[|path|..] == others;
    assert g.nodes.Keys - onPath == g.nodes.Keys - Elems(path);
  }

  lemma NothingRepeats()
    ensures Distinct<Id>([])
  { }

  method SetPrices(fm: map<Id, FunctionNode>, price: real)
    requires Linked(fm)
    modifies fm.Values`transferUSDPerGiB
    ensures View(fm) == Priced(old(View(fm)), price)
  {
    var rest := fm.Keys;
    while rest != {}
      invariant rest <= fm.Keys
      invariant forall id :: id in fm.Keys - rest ==> fm[id].transferUSDPerGiB == price
      decreases rest
    {
      var id :| id in rest;
      fm[id].transferUSDPerGiB := price;
      rest := rest - {id};
    }
  }

  method EntryFunction(fm: map<Id, FunctionNode>, functions: seq<Id>) returns (entry: FunctionNode?)
    requires Linked(fm) && forall f :: f in functions ==> f in fm
    ensures entry == null <==> FirstParentless(View(fm), functions).None?
    ensures entry != null ==> var f := FirstParentless(View(fm), functions).value; f in fm && entry == fm[f]
  {
    for i := 0 to |functions|
      invariant FirstParentless(View(fm), functions[..i]).None?
    {
      assert functions[..i + 1][..i] == functions[..i];
      assert functions[i] in functions && View(fm)[functions[i]] == fm[functions[i]].Value();
      if fm[functions[i]].parent == null {
        Evaluation.FirstStays(View(fm), functions, i + 1);
        return fm[functions[i]];
      }
    }
    assert functions[..|functions|] == functions;
    return null;
  }

  /** The rate `SetRates` leaves on a node that had rate `before`. */
  function RateAfter(functions: seq<Id>, id: Id, count: int, base: int, before: real): real {
    if id in functions && count > 0 then RateOf(count, base) else before
  }

  method SetRates(fm: map<Id, FunctionNode>, functions: seq<Id>, base: int)
    requires Linked(fm) && base > 0 && forall f :: f in functions ==> f in fm
    modifies fm.Values`invocationRate
    ensures forall id | id in fm ::
      fm[id].invocationRate == RateAfter(functions, id, fm[id].invocationCount, base, old(fm[id].invocationRate))
  {
    for i := 0 to |functions|
      invariant forall id | id in fm ::
        fm[id].invocationRate == RateAfter(functions[..i], id, fm[id].invocationCount, base, old(fm[id].invocationRate))
    {
      assert functions[..i + 1] == functions[..i] + [functions[i]];
      var f := fm[functions[i]];
      if f.invocationCount > 0 {
        f.invocationRate := f.invocationCount as real / base as real;
      }
    }
    assert functions[..|functions|] == functions;
  }

  method ScaleRates(g: Graph, fm: map<Id, FunctionNode>, functions: seq<Id>, base: int)
    requires fm.Keys == g.nodes.Keys == Elems(functions) && Linked(fm)
    requires forall id ::
      id in fm ==> fm[id].invocationCount == g.nodes[id].invocationCount && fm[id].invocationRate == 1.0
    modifies fm.Values`invocationRate
    ensures View(fm) == Rated(g, old(View(fm)), base)
  {
    hide Linked, Ids;
    if base > 0 {
      SetRates(fm, functions, base);
      assert forall id :: id in fm ==> id in functions;
    }
    assert forall id :: id in fm ==> fm[id].invocationRate == RateOf(g.nodes[id].invocationCount, base);
  }

  /** Rates are relative to the first function nothing calls; without its count they all stay at 1. */
  method RateFromEntry(g: Graph, fm: map<Id, FunctionNode>, functions: seq<Id>)
    requires fm.Keys == g.nodes.Keys == Elems(functions) && Linked(fm)
    requires forall id ::
      id in fm ==> fm[id].invocationCount == g.nodes[id].invocationCount && fm[id].invocationRate == 1.0
    modifies fm.Values`invocationRate
    ensures View(fm) == Rated(g, old(View(fm)), EntryCount(g, old(View(fm)), functions))
  {
    hide FirstParentless, Linked, View, Rated;
    var entry := EntryFunction(fm, functions);
    var base := if entry == null then 0 else entry.invocationCount;
    ScaleRates(g, fm, functions, base);
  }

  /** The whole conversion. `Built`, `IsOrdering` and the caps say everything the result holds. */
  method GraphToApp(g: Graph) returns (app: Application)
    ensures IsBuiltFrom(g, app)
  {
    hide Linked, Distinct, FirstParentless, Wired, IsOrdering, View, Fresh, Priced, Rated;
    var fm := CreateNodes(g);
    WireEdges(fm, g.edges);
    var functions := OrderFunctions(g);
    OrderedAreNodes(g, functions);
    var c := Limits(g);
    SetPrices(fm, c.transferUSDPerGiB);
    RateFromEntry(g, fm, functions);
    app := Application(View(fm), functions, g.criticalPath, c.maxMemoryMB, c.maxLatencyMS, c.networkHopMS);
  }

  lemma OrderedAreNodes(g: Graph, functions: seq<Id>)
    requires IsOrdering(g, functions)
    ensures Elems(functions) == g.nodes.Keys
  {
    var path := InOrder(g.nodes.Keys, g.criticalPath);
    assert functions == path + functions[|path|..];
    assert Elems(functions) == Elems(path) + Elems(functions[|path|..]);
  }

  lemma {:induction false} SameEntry(s: Store, s': Store, functions: seq<Id>)
    requires forall f :: f in functions ==> At(s, f).parent == At(s', f).parent
    ensures FirstParentless(s, functions) == FirstParentless(s', functions)
  {
    if functions != [] {
      SameEntry(s, s', functions[..|functions| - 1]);
    }
  }

  // ---- when the result is well formed ----

  /** Repeated edges, a path that repeats a function, and negative limits are all that can go wrong. */
  ghost predicate IsClean(g: Graph) {
    EdgesDistinct(g.nodes.Keys, g.edges) && IsCleanButForEdges(g)
  }

  ghost predicate IsCleanButForEdges(g: Graph) {
    && Distinct(InOrder(g.nodes.Keys, g.criticalPath))
    && Limits(g).networkHopMS >= 0
    && (g.nodes == map[] || Limits(g).transferUSDPerGiB >= 0.0)
  }

  lemma BuiltNode(g: Graph, functions: seq<Id>, id: Id)
    requires id in g.nodes
    ensures id in Built(g, functions)
    ensures var n := Built(g, functions)[id];
      && n.memoryMB == g.nodes[id].memoryMB && n.runtimeMs == g.nodes[id].runtimeMs
      && n.children == Callees(g.nodes.Keys, g.edges, id)
      && n.dataOutBytes.Keys == Elems(n.children)
      && n.parent == LastCaller(g.nodes.Keys, g.edges, id)
      && n.transferUSDPerGiB == Limits(g).transferUSDPerGiB
      && n.invocationRate > 0.0
  {
    hide FirstParentless, Wired, Elems, Callees, LastCaller;
    var s := Fresh(g);
    assert s.Keys == g.nodes.Keys;
    WiredMeaning(s, g.edges);
    assert IsWired(g.nodes.Keys, g.edges, id, Fresh(g)[id], Wired(Fresh(g), g.edges)[id]);
  }

  lemma NodeWellFormed(g: Graph, app: Application, id: Id)
    requires IsBuiltFrom(g, app) && id in g.nodes
    ensures WellFormedNode(app, id) <==>
      Limits(g).transferUSDPerGiB >= 0.0 && Distinct(Callees(g.nodes.Keys, g.edges, id))
  {
    hide FirstParentless, Wired, Built, Distinct, IsOrdering;
    OrderedAreNodes(g, app.functions);
    BuiltNode(g, app.functions, id);
    var n := Built(g, app.functions)[id];
    assert Elems(n.children) <= Elems(app.functions);
    if n.parent.Some? {
      BuiltNode(g, app.functions, n.parent.value);
    }
  }

  /** The application is well formed exactly when the graph is clean. */
  lemma WellFormedExactly(g: Graph, app: Application)
    requires IsBuiltFrom(g, app)
    ensures WellFormed(app) <==> IsClean(g)
  {
    hide FirstParentless, Wired, Built, Distinct, WellFormedNode, EdgesDistinct;
    OrderedAreNodes(g, app.functions);
    OrderDistinct(g, app.functions);
    CalleesDistinct(g.nodes.Keys, g.edges);
    forall id | id in g.nodes
      ensures WellFormedNode(app, id) <==>
        Limits(g).transferUSDPerGiB >= 0.0 && Distinct(Callees(g.nodes.Keys, g.edges, id))
    {
      NodeWellFormed(g, app, id);
    }
    assert forall f :: f in app.functions <==> f in g.nodes;
    NoNodesNoEdges(g);
  }

  lemma CalleesAreNodes(g: Graph, id: Id)
    ensures forall v :: v in Callees(g.nodes.Keys, g.edges, id) ==> v in g.nodes
  { }

  lemma NodeWellFormedOnce(g: Graph, app: Application, id: Id)
    requires IsBuiltFrom(g, app) && id in g.nodes
    ensures WellFormedNode(Once(app), id) <==> Limits(g).transferUSDPerGiB >= 0.0
  {
    hide FirstParentless, Wired, Built, Distinct, IsOrdering, Callees, LastCaller, NodesOnce, Firsts;
    OrderedAreNodes(g, app.functions);
    BuiltNode(g, app.functions, id);
    AtOnce(app.nodes, id);
    FirstsMeaning(At(app.nodes, id).children);
    var n := Built(g, app.functions)[id];
    CalleesAreNodes(g, id);
    if n.parent.Some? {
      BuiltNode(g, app.functions, n.parent.value);
      AtOnce(app.nodes, n.parent.value);
      FirstsMeaning(At(app.nodes, n.parent.value).children);
    }
  }

  /** A graph that repeats edges still gives an application that is well formed but for the repetition,
      exactly when nothing else is wrong with it. */
  lemma CallsMayRepeatExactly(g: Graph, app: Application)
    requires IsBuiltFrom(g, app)
    ensures CallsMayRepeat(app) <==> IsCleanButForEdges(g)
  {
    hide FirstParentless, Wired, Built, Distinct, WellFormedNode, NodesOnce;
    OrderedAreNodes(g, app.functions);
    OrderDistinct(g, app.functions);
    forall id | id in g.nodes ensures WellFormedNode(Once(app), id) <==> Limits(g).transferUSDPerGiB >= 0.0 {
      NodeWellFormedOnce(g, app, id);
    }
    assert forall f :: f in app.functions <==> f in g.nodes;
    NoNodesNoEdges(g);
  }

  lemma NoNodesNoEdges(g: Graph)
    ensures g.nodes == map[] ==> EdgesDistinct(g.nodes.Keys, g.edges)
    ensures g.nodes != map[] ==> exists id :: id in g.nodes
  { }

  lemma OrderDistinct(g: Graph, functions: seq<Id>)
    requires IsOrdering(g, functions)
    ensures Distinct(functions) <==> Distinct(InOrder(g.nodes.Keys, g.criticalPath))
  {
    var path := InOrder(g.nodes.Keys, g.criticalPath);
    var rest := functions[|path|..];
    assert functions == path + rest;
    if Distinct(path) {
      assert forall x :: x in path ==> x !in Elems(rest);
      DistinctAppend(path, rest);
    }
    PrefixDistinct(functions, |path|);
  }

  lemma PrefixDistinct(xs: seq<Id>, n: nat)
    requires n <= |xs|
    ensures Distinct(xs) ==> Distinct(xs[..n])
  { }

  /** The critical path survives the conversion, and it opens the function list. */
  lemma CriticalPathIsKept(g: Graph, app: Application)
    requires IsBuiltFrom(g, app)
    ensures CriticalPath(app) == InOrder(g.nodes.Keys, g.criticalPath)
    ensures CriticalPath(app) <= app.functions
  {
    hide FirstParentless, Wired, Built, Distinct;
    OrderedAreNodes(g, app.functions);
    KnownIsInOrder(g.nodes.Keys, app.functions, g.criticalPath);
  }

  lemma {:induction false} KnownIsInOrder(nodes: set<Id>, functions: seq<Id>, ids: seq<Id>)
    requires Elems(functions) == nodes
    ensures Known(functions, ids) == InOrder(nodes, ids)
  {
    if ids != [] {
      KnownIsInOrder(nodes, functions, ids[..|ids| - 1]);
      assert ids[|ids| - 1] in functions <==> ids[|ids| - 1] in Elems(functions);
    }
  }

  /** `v` is a child of `u` exactly when the graph has an edge between these two nodes, and a
      function has no parent exactly when no edge of the graph enters it. */
  lemma EdgesAreKept(g: Graph, app: Application, u: Id, v: Id)
    requires IsBuiltFrom(g, app) && u in g.nodes && v in g.nodes
    ensures v in At(app.nodes, u).children <==> exists e :: e in g.edges && e.from == u && e.to == v
    ensures At(app.nodes, v).parent.None? <==> forall e :: e in g.edges && e.to == v ==> e.from !in g.nodes
    ensures At(app.nodes, v).parent == Some(u) ==> v in At(app.nodes, u).children
  {
    hide FirstParentless, Wired, Built, Distinct, IsOrdering;
    BuiltNode(g, app.functions, u);
    BuiltNode(g, app.functions, v);
  }

  /** The function the platform starts is one no edge of the graph enters, and once its count is
      known its own rate is one. */
  lemma EntryRateIsOne(g: Graph, app: Application)
    requires IsBuiltFrom(g, app) && RootFunction(app).Some?
    ensures var f := RootFunction(app).value;
      f in g.nodes && (forall e :: e in g.edges && e.to == f ==> e.from !in g.nodes) && Rate(app.nodes, f) == 1.0
  {
    hide Wired, Fresh;
    var s := Priced(Wired(Fresh(g), g.edges), Limits(g).transferUSDPerGiB);
    OrderedAreNodes(g, app.functions);
    SameEntry(s, app.nodes, app.functions);
    RootIsFunction(app.nodes, app.functions);
    var f := RootFunction(app).value;
    assert f in Elems(app.functions);
    EdgesAreKept(g, app, f, f);
    SelfRate(g.nodes[f].invocationCount);
    BuiltNode(g, app.functions, f);
  }

  lemma SelfRate(count: int)
    ensures RateOf(count, count) == 1.0
  { }

  // ---- the application in the graph's own terms ----

  /** Of the edges from `u` to `v` the `i`-th is the last. */
  ghost predicate IsLastBetween(edges: seq<Edge>, i: nat, u: Id, v: Id) {
    && i < |edges| && edges[i].from == u && edges[i].to == v
    && forall j :: i < j < |edges| ==> edges[j].from != u || edges[j].to != v
  }

  /** Of the edges from nodes of the graph into `v` the `i`-th is the last. */
  ghost predicate IsLastInto(known: set<Id>, edges: seq<Edge>, i: nat, v: Id) {
    && i < |edges| && edges[i].from in known && edges[i].to == v
    && forall j :: i < j < |edges| ==> edges[j].from !in known || edges[j].to != v
  }

  ghost predicate BytesAreLast(edges: seq<Edge>, u: Id, v: Id, bytes: map<Id, nat>) {
    && (v in bytes <==> exists i: nat :: IsLastBetween(edges, i, u, v))
    && forall i: nat :: IsLastBetween(edges, i, u, v) ==> (v in bytes && bytes[v] == edges[i].dataBytes)
  }

  ghost predicate ParentIsLast(known: set<Id>, edges: seq<Edge>, v: Id, parent: Option<Id>) {
    && (parent.Some? <==> exists i: nat :: IsLastInto(known, edges, i, v))
    && forall i: nat :: IsLastInto(known, edges, i, v) ==> parent == Some(edges[i].from)
  }

  lemma LastBetweenSnoc(init: seq<Edge>, last: Edge, i: nat, u: Id, v: Id)
    ensures IsLastBetween(init + [last], i, u, v) <==>
      if last.from == u && last.to == v then i == |init| else IsLastBetween(init, i, u, v)
    ensures IsLastBetween(init, i, u, v) ==> i < |init|
  {
    var edges := init + [last];
    assert edges[|init|] == last;
    assert forall j :: 0 <= j < |init| ==> edges[j] == init[j];
  }

  /** The bytes of a call are those of the last edge between its ends, and not a sum. */
  lemma {:induction false} LastBytes(s: Store, edges: seq<Edge>, u: Id, v: Id)
    requires u in s && v in s && s[u].dataOutBytes == map[]
    ensures BytesAreLast(edges, u, v, Wired(s, edges)[u].dataOutBytes)
  {
    hide IsLastBetween;
    if edges == [] {
      NoneBetween(u, v);
    } else {
      var init, last := edges[..|edges| - 1], edges[|edges| - 1];
      assert edges == init + [last];
      LastBytes(s, init, u, v);
      var was, now := Wired(s, init)[u].dataOutBytes, Wired(s, edges)[u].dataOutBytes;
      if last.from == u && last.to == v {
        assert now == was[v := last.dataBytes];
        forall i: nat ensures IsLastBetween(edges, i, u, v) <==> i == |init| { LastBetweenSnoc(init, last, i, u, v); }
        assert IsLastBetween(edges, |init|, u, v);
      } else {
        assert (v in now <==> v in was) && (v in now ==> now[v] == was[v]);
        forall i: nat
          ensures IsLastBetween(edges, i, u, v) <==> IsLastBetween(init, i, u, v)
          ensures IsLastBetween(init, i, u, v) ==> i < |init| && edges[i] == init[i]
        {
          LastBetweenSnoc(init, last, i, u, v);
        }
      }
    }
  }

  lemma NoneBetween(u: Id, v: Id)
    ensures forall i: nat :: !IsLastBetween([], i, u, v)
  { }

  lemma {:induction false} LastParent(s: Store, edges: seq<Edge>, v: Id)
    requires v in s && s[v].parent == None
    ensures ParentIsLast(s.Keys, edges, v, Wired(s, edges)[v].parent)
  {
    if edges != [] {
      var init, last := edges[..|edges| - 1], edges[|edges| - 1];
      var n: nat := |init|;
      assert edges == init + [last];
      LastParent(s, init, v);
      if last.from in s && last.to == v {
        assert IsLastInto(s.Keys, edges, n, v);
        forall i: nat | IsLastInto(s.Keys, edges, i, v) ensures i == n { }
      } else {
        forall i: nat ensures IsLastInto(s.Keys, edges, i, v) <==> IsLastInto(s.Keys, init, i, v) { }
      }
    }
  }

  /** Callees come in edge order, edges with an unknown end left out. */
  lemma {:induction false} CalleesParts(known: set<Id>, a: seq<Edge>, b: seq<Edge>, u: Id)
    ensures Callees(known, a + b, u) == Callees(known, a, u) + Callees(known, b, u)
    ensures |a| == 1 ==>
      Callees(known, a, u) == if a[0].from == u && u in known && a[0].to in known then [a[0].to] else []
    decreases |b|
  {
    if b == [] {
      assert a + b == a;
      assert |a| == 1 ==> a[..0] == [];
    } else {
      CalleesParts(known, a, b[..|b| - 1], u);
      assert (a + b)[..|a + b| - 1] == a + b[..|b| - 1];
    }
  }

  /** What the conversion makes of a node: sizes as given, bytes and parent from the last edge that says
      so, and a rate that times the entry's count is its own count, where both are known. */
  lemma NodeOnFields(g: Graph, app: Application, id: Id)
    requires IsBuiltFrom(g, app) && id in g.nodes
    ensures var n := At(app.nodes, id);
      && n.memoryMB == g.nodes[id].memoryMB && n.runtimeMs == g.nodes[id].runtimeMs
      && n.children == Callees(g.nodes.Keys, g.edges, id)
      && n.transferUSDPerGiB == (if g.constraints.Some? then g.constraints.value.transferUSDPerGiB else 0.0)
      && (forall v :: v in g.nodes ==> BytesAreLast(g.edges, id, v, n.dataOutBytes))
      && ParentIsLast(g.nodes.Keys, g.edges, id, n.parent)
  {
    hide IsOrdering, Callees, BytesAreLast, ParentIsLast, Built, Wired;
    var s := Fresh(g);
    BuiltNode(g, app.functions, id);
    BuiltKeepsWiring(g, app.functions, id);
    assert s.Keys == g.nodes.Keys;
    LastParent(s, g.edges, id);
    forall v | v in g.nodes ensures BytesAreLast(g.edges, id, v, Wired(s, g.edges)[id].dataOutBytes) {
      LastBytes(s, g.edges, id, v);
    }
  }

  lemma BuiltKeepsWiring(g: Graph, functions: seq<Id>, id: Id)
    requires id in g.nodes
    ensures id in Wired(Fresh(g), g.edges) && id in Built(g, functions)
    ensures Built(g, functions)[id].dataOutBytes == Wired(Fresh(g), g.edges)[id].dataOutBytes
    ensures Built(g, functions)[id].parent == Wired(Fresh(g), g.edges)[id].parent
  {
    hide FirstParentless, Wired;
    assert Fresh(g).Keys == g.nodes.Keys;
  }

  lemma RateTimesBase(count: int, base: int)
    ensures base > 0 && count > 0 ==> RateOf(count, base) * base as real == count as real
    ensures base <= 0 || count <= 0 ==> RateOf(count, base) == 1.0
  { }

  /** A rate times the entry's count is the function's own count; without either count it stays 1. */
  lemma RateOnFields(g: Graph, app: Application, id: Id)
    requires IsBuiltFrom(g, app) && id in g.nodes
    ensures var n, root := At(app.nodes, id), RootFunction(app);
      if root.Some? && root.value in g.nodes && g.nodes[root.value].invocationCount > 0
        && g.nodes[id].invocationCount > 0
      then n.invocationRate * g.nodes[root.value].invocationCount as real == g.nodes[id].invocationCount as real
      else n.invocationRate == 1.0
  {
    hide Built, IsOrdering, RateOf, FirstParentless;
    BuiltRate(g, app, id);
    RateTimesBase(g.nodes[id].invocationCount, EntryCount(g, app.nodes, app.functions));
  }

  lemma BuiltRate(g: Graph, app: Application, id: Id)
    requires IsBuiltFrom(g, app) && id in g.nodes
    ensures At(app.nodes, id).invocationRate
            == RateOf(g.nodes[id].invocationCount, EntryCount(g, app.nodes, app.functions))
  {
    hide Wired, RateOf, IsOrdering;
    var s := Priced(Wired(Fresh(g), g.edges), Limits(g).transferUSDPerGiB);
    assert s.Keys == g.nodes.Keys;
    SameEntry(s, app.nodes, app.functions);
  }

  /** The caps are the graph's, or 1024 MB, 30 s and 20 ms a hop where it has none. */
  lemma CapsOnFields(g: Graph, app: Application)
    requires IsBuiltFrom(g, app)
    ensures (app.maxMemoryMB, app.maxLatencyMS, app.networkHopMS) ==
      if g.constraints.None? then (1024, 30000, 20)
      else (g.constraints.value.maxMemoryMB, g.constraints.value.maxLatencyMS, g.constraints.value.networkHopMS)
  { }
}
