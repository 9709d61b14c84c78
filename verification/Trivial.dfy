/** The two baselines: every function alone, and everything in one group. */
module Trivial {
  import opened Sums
  import opened Domain
  import opened Coarsening
  import opened Evaluation
  import opened Bfs
  import opened Results

  method NoFusion(app: Application) returns (r: AlgorithmResult)
    ensures r.name == "NoFusion" && r.error == "" && r.groups == Singles(app.functions)
    ensures r.metrics == MetricsOf(app, r.groups)
  {
    var groups := new Group[|app.functions|](_ => []);
    for i := 0 to |app.functions|
      invariant forall k :: 0 <= k < i ==> groups[k] == [app.functions[k]]
    {
      groups[i] := [app.functions[i]];
    }
    assert groups[..] == Singles(app.functions);
    r := Evaluated(app, "NoFusion", groups[..]);
  }

  /** Breadth-first order: starts at the root, holds exactly what the root reaches, never steps back
      in distance, and the distances are the shortest. */
  ghost predicate IsBfsOrder(s: Store, root: Id, order: seq<Id>, dist: map<Id, nat>) {
    && Distinct(order) && order != [] && order[0] == root
    && (forall v :: v in order <==> Reaches(s, {root}, v))
    && Nearest(s, {root}, dist, map v | v in dist :: root)
    && forall i, j :: 0 <= i <= j < |order| ==> order[i] in dist && order[j] in dist && dist[order[i]] <= dist[order[j]]
  }

  method FromRoot(s: Store, root: Id) returns (ordered: seq<Id>, ghost dist: map<Id, nat>)
    ensures IsBfsOrder(s, root, ordered, dist)
  {
    hide BfsState, Universe, IsBfsOrder;
    var queue, visited := [root], {root};
    ordered, dist := [], map[root := 0];
    ghost var origin: map<Id, Id> := map[root := root];
    ghost var sources: set<Id> := {root};
    assert Elems(queue) == sources;
    StartState(s, queue, dist, origin);
    QueueWithinUniverse(s, sources, queue, 0, 0, dist, origin);
    var head := 0;
    while head < |queue|
      invariant head <= |queue| <= |Universe(s, sources)|
      invariant BfsState(s, sources, queue, head, 0, dist, origin)
      invariant visited == dist.Keys && 0 < |queue| && queue[0] == root
      invariant ordered == queue[..head]
      decreases |Universe(s, sources)| - head
    {
      ordered := ordered + [queue[head]];
      ghost var before := queue;
      queue, visited, dist, origin := VisitUnseen(s, queue, head, visited, dist, origin, sources);
      assert queue[0] == queue[..|before|][0] && queue[..head + 1] == queue[..|before|][..head + 1];
      NextKeeps(s, sources, queue, head, dist, origin);
      head := head + 1;
      QueueWithinUniverse(s, sources, queue, head, 0, dist, origin);
    }
    assert ordered == queue;
    ConcludeOrder(s, root, queue, dist, origin);
  }

  lemma ConcludeOrder(s: Store, root: Id, queue: seq<Id>, dist: map<Id, nat>, origin: map<Id, Id>)
    requires BfsState(s, {root}, queue, |queue|, 0, dist, origin) && queue != [] && queue[0] == root
    ensures IsBfsOrder(s, root, queue, dist)
  {
    hide BfsState, Nearest, Reaches;
    FinishedIsNearest(s, {root}, queue, dist, origin);
    QueueFacts(s, {root}, queue, dist, origin);
    assert origin == map v | v in dist :: root;
  }

  lemma LayersInOrder(queue: seq<Id>, dist: map<Id, nat>)
    requires (forall v :: v in queue <==> v in dist) && Layered(queue, |queue|, dist)
    ensures forall i, j ::
      0 <= i <= j < |queue| ==> queue[i] in dist && queue[j] in dist && dist[queue[i]] <= dist[queue[j]]
  { }

  lemma QueueFacts(s: Store, sources: set<Id>, queue: seq<Id>, dist: map<Id, nat>, origin: map<Id, Id>)
    requires BfsState(s, sources, queue, |queue|, 0, dist, origin)
    ensures Distinct(queue) && origin.Keys == dist.Keys && forall v :: v in origin ==> origin[v] in sources
    ensures forall i, j ::
      0 <= i <= j < |queue| ==> queue[i] in dist && queue[j] in dist && dist[queue[i]] <= dist[queue[j]]
  {
    hide Walk, Layered, AllDone;
    LayersInOrder(queue, dist);
  }

  method VisitUnseen(s: Store, queue: seq<Id>, head: nat, visited: set<Id>, ghost dist: map<Id, nat>,
      ghost origin: map<Id, Id>, ghost sources: set<Id>)
    returns (queue': seq<Id>, visited': set<Id>, ghost dist': map<Id, nat>, ghost origin': map<Id, Id>)
    requires head < |queue| && BfsState(s, sources, queue, head, 0, dist, origin) && visited == dist.Keys
    ensures |queue| <= |queue'| && queue'[..|queue|] == queue && queue'[head] == queue[head]
    ensures BfsState(s, sources, queue', head, |At(s, queue[head]).children|, dist', origin')
    ensures visited' == dist'.Keys
  {
    hide BfsState;
    queue', visited', dist', origin' := queue, visited, dist, origin;
    var node := queue[head];
    var children := At(s, node).children;
    for k := 0 to |children|
      invariant |queue| <= |queue'| && queue'[..|queue|] == queue && queue'[head] == node
      invariant BfsState(s, sources, queue', head, k, dist', origin')
      invariant visited' == dist'.Keys
    {
      HeadKnown(s, sources, queue', head, k, dist', origin');
      if children[k] !in visited' {
        PushKeeps(s, sources, queue', head, k, dist', origin');
        visited' := visited' + {children[k]};
        dist' := dist'[children[k] := dist'[node] + 1];
        origin' := origin'[children[k] := origin'[node]];
        queue' := queue' + [children[k]];
      } else {
        SkipKeeps(s, sources, queue', head, k, dist', origin');
      }
    }
  }

  lemma HeadKnown(s: Store, sources: set<Id>, queue: seq<Id>, head: nat, k: nat, dist: map<Id, nat>,
      origin: map<Id, Id>)
    requires BfsState(s, sources, queue, head, k, dist, origin) && head < |queue|
    ensures queue[head] in dist && queue[head] in origin
  {
    assert queue[head] in queue;
  }

  method HasEdges(app: Application) returns (yes: bool)
    ensures yes <==> exists f :: f in app.functions && At(app.nodes, f).children != []
  {
    for i := 0 to |app.functions|
      invariant forall k :: 0 <= k < i ==> At(app.nodes, app.functions[k]).children == []
    {
      if |At(app.nodes, app.functions[i]).children| > 0 {
        assert app.functions[i] in app.functions;
        return true;
      }
    }
    return false;
  }

  method CatchUp(functions: seq<Id>, reached: seq<Id>) returns (ordered: seq<Id>)
    ensures reached <= ordered
    ensures forall f :: f in ordered <==> f in reached || f in functions
    ensures Distinct(functions) && Distinct(reached) ==> Distinct(ordered)
  {
    var reachable := set f | f in reached;
    ordered := reached;
    for i := 0 to |functions|
      invariant reached <= ordered
      invariant forall f :: f in ordered <==> f in reached || f in functions[..i]
      invariant Distinct(functions) && Distinct(reached) ==> Distinct(ordered)
    {
      assert functions[..i + 1] == functions[..i] + [functions[i]];
      if functions[i] !in reachable {
        assert Distinct(functions) ==> functions[i] !in functions[..i];
        ordered := ordered + [functions[i]];
      }
    }
    assert functions[..|functions|] == functions;
  }

  /** One group of everything, in breadth-first order from the root with the unreachable functions
      caught up at the end; in the given order when there is no root or no edge. */
  method Singleton(app: Application) returns (r: AlgorithmResult, ghost reached: seq<Id>, ghost dist: map<Id, nat>)
    ensures r.name == "Singleton" && r.error == "" && |r.groups| == 1 && r.metrics == MetricsOf(app, r.groups)
    ensures WellFormed(app) ==> IsPartition(app, r.groups) && Distinct(r.groups[0])
    ensures reached <= r.groups[0]
    ensures reached == [] <==>
      RootFunction(app).None? || forall f :: f in app.functions ==> At(app.nodes, f).children == []
    ensures reached == [] ==> r.groups == [app.functions]
    ensures reached != [] ==> IsBfsOrder(app.nodes, RootFunction(app).value, reached, dist)
  {
    hide IsBfsOrder, WellFormed, Family;
    var hasEdges := HasEdges(app);
    var root := FindRoot(app);
    reached, dist := [], map[];
    var ordered := app.functions;
    if hasEdges && root.Some? {
      var found;
      found, dist := FromRoot(app.nodes, root.value);
      ordered := CatchUp(app.functions, found);
      reached := found;
      OrderFacts(app, root.value, found, dist);
    }
    if WellFormed(app) {
      FunctionsDistinct(app);
      OneGroupPartition(app, ordered);
    }
    r := Evaluated(app, "Singleton", [ordered]);
  }

  lemma OrderFacts(app: Application, root: Id, found: seq<Id>, dist: map<Id, nat>)
    requires RootFunction(app) == Some(root) && IsBfsOrder(app.nodes, root, found, dist)
    ensures Distinct(found) && found != []
    ensures WellFormed(app) ==> forall v :: v in found ==> v in app.functions
  {
    hide Nearest;
    RootIsFunction(app.nodes, app.functions);
    forall v | WellFormed(app) && v in found ensures v in app.functions {
      var b, n: nat :| b in {root} && Walk(app.nodes, b, v, n);
      WalkInside(app, b, v, n);
    }
  }
}
