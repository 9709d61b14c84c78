/** GreedyTP as a whole, and when it is sure to find a feasible partition. */
module GreedyTPResult {
  import opened Sums
  import opened Domain
  import opened Billing
  import opened Families
  import opened Merging
  import opened Coarsening
  import opened Evaluation
  import opened GreedyPass
  import opened Bfs
  import opened Results
  import opened GreedyTP

  /** What one run decided: merges, barriers, nearest barriers, grown groups, merge order. */
  datatype Run = Run(k: nat, barriers: set<Id>, dist: map<Id, nat>, origin: map<Id, Id>, grown: seq<Group>,
      order: seq<Candidate>)

  ghost function Barriers(path: seq<Id>, root: Id, k: nat): set<Id>
    requires path != [] && k <= |path| - 1
  {
    {root} + set e | e in Elems(PathEdges(path)) - Elems(PathEdges(path)[..k]) :: e.to
  }

  ghost predicate RunOK(app: Application, run: Run) {
    var path, root := CriticalPath(app), RootFunction(app);
    && path != [] && root.Some?
    && FewestMerges(GroupRuntimeMs(app.nodes, path), app.networkHopMS, app.maxLatencyMS, |path| - 1, run.k)
    && run.barriers == Barriers(path, root.value, run.k)
    && Nearest(app.nodes, run.barriers, run.dist, run.origin)
    && IsGrown(run.grown, run.origin)
    && IsMergeOrder(app, run.order) && IsTieBroken(app, run.order)
  }

  ghost function Outcome(app: Application, run: Run): seq<Group> {
    MergeAll(app, SafeGroups(app.nodes, app.maxMemoryMB, run.grown), run.order)
  }

  // ---- the regime in which it is sure to succeed ----

  ghost predicate Acyclic(s: Store) {
    forall v, n: nat :: n > 0 ==> !Walk(s, v, v, n)
  }

  /** An acyclic application whose critical path starts at the root and follows calls. */
  ghost predicate IsRooted(app: Application) {
    && WellFormed(app) && CriticalPath(app) != [] && Acyclic(app.nodes)
    && PathIsWalk(app.nodes, CriticalPath(app)) && RootFunction(app) == Some(CriticalPath(app)[0])
  }

  /** And whose functions each fit the memory cap. */
  ghost predicate IsServable(app: Application) {
    IsRooted(app) && forall f :: f in app.functions ==> At(app.nodes, f).memoryMB <= app.maxMemoryMB
  }

  ghost predicate AllReachable(app: Application) {
    RootFunction(app).Some? && forall f :: f in app.functions ==> Reaches(app.nodes, {RootFunction(app).value}, f)
  }

  ghost predicate FastEnough(app: Application) {
    GroupRuntimeMs(app.nodes, CriticalPath(app)) <= app.maxLatencyMS
  }

  ghost predicate ReachableFit(app: Application) {
    && RootFunction(app).Some?
    && forall f :: Reaches(app.nodes, {RootFunction(app).value}, f) ==> At(app.nodes, f).memoryMB <= app.maxMemoryMB
  }

  // ---- the phases ----

  /** Step 3: every edge is a candidate, including those cut in step 1, and ties fall by id. */
  method MergePhase(app: Application, safe: seq<Group>) returns (merged: seq<Group>, ghost order: seq<Candidate>)
    ensures IsMergeOrder(app, order) && IsTieBroken(app, order) && merged == MergeAll(app, safe, order)
  {
    hide MergeAll, IsMergeOrder, IsTieBroken;
    var candidates := CollectCandidates(app);
    var sorted := SortByKey(app, candidates);
    TieBrokenIsOrder(app, sorted);
    order := sorted;
    var groups := new Group[|safe|](i requires 0 <= i < |safe| => safe[i]);
    assert groups[..groups.Length] == safe;
    var n := GreedyMerge(app, groups, groups.Length, sorted);
    merged := groups[..n];
  }

  /** Step 2 and 3 from a set of barriers. */
  method GrowAndMerge(app: Application, barrierIDs: set<Id>, ghost k: nat) returns (groups: seq<Group>, ghost run: Run)
    ensures run.k == k && run.barriers == barrierIDs
    ensures Nearest(app.nodes, run.barriers, run.dist, run.origin) && IsGrown(run.grown, run.origin)
    ensures IsMergeOrder(app, run.order) && IsTieBroken(app, run.order)
    ensures groups == Outcome(app, run)
  {
    hide Nearest, IsGrown, GroupedBy, IsMergeOrder, IsTieBroken, MergeAll, SafeGroups;
    var barriers := Enumerate(barrierIDs);
    var dict, nodeToBarrier, dist := AssignToBarriers(app.nodes, barriers);
    var grown := CollectGroups(dict, barrierIDs, nodeToBarrier, app.nodes, dist);
    var safe := MakeSafe(app.nodes, app.maxMemoryMB, grown);
    ghost var order;
    groups, order := MergePhase(app, safe);
    run := Run(k, barrierIDs, dist, nodeToBarrier, grown, order);
  }

  /** The three errors are the only ones: once the bare runtimes fit, some number of merges fits. */
  method Optimize(app: Application) returns (r: AlgorithmResult, ghost run: Option<Run>)
    ensures r.name == "Greedy TP (GrTP)"
    ensures r.error != "" <==>
      || CriticalPath(app) == []
      || GroupRuntimeMs(app.nodes, CriticalPath(app)) > app.maxLatencyMS
      || RootFunction(app).None?
    ensures r.error == "" ==> run.Some? && RunOK(app, run.value)
    ensures r.error == "" ==> r.groups == Outcome(app, run.value) && r.metrics == MetricsOf(app, r.groups)
    ensures r.error != "" ==> !r.metrics.feasible
    ensures r.error == "" && WellFormed(app) ==> Family(r.groups) && Members(r.groups) <= Elems(app.functions)
    ensures IsRooted(app) ==> (r.metrics.feasible <==> FastEnough(app) && ReachableFit(app))
    ensures IsServable(app) ==> (r.metrics.feasible <==> exists q :: IsPartition(app, q) && Feasible(app, q))
  {
    hide FewestMerges, Nearest, IsGrown, IsMergeOrder, IsTieBroken, Outcome, GroupRuntimeMs, Known, WellFormed, Family,
      Members, Feasible, IsRooted, IsServable, IsPartition, ReachableFit;
    run := None;
    var path := CriticalPathFunctions(app);
    if path == [] {
      r := Failed("Greedy TP (GrTP)", Metrics(0.0, 0, false), "critical path is empty");
      ServableHasPath(app);
      return;
    }
    var base := RuntimeMs(app.nodes, path);
    if base > app.maxLatencyMS {
      r := Failed("Greedy TP (GrTP)", Metrics(0.0, base, false), "base latency exceeds max");
      TooSlowToServe(app);
      return;
    }
    var cpEdges := PathEdges(path);
    var cuts, found, k := FindCuts(cpEdges, base, app.networkHopMS, app.maxLatencyMS);
    var root := FindRoot(app);
    if root.None? {
      r := Failed("Greedy TP (GrTP)", Metrics(0.0, 0, false), "topology has no root function");
      ServableHasPath(app);
      return;
    }
    FewestBound(base, app.networkHopMS, app.maxLatencyMS, |cpEdges|, k);
    var barrierIDs := {root.value} + set e | e in cuts :: e.to;
    assert barrierIDs == Barriers(path, root.value, k);
    var groups, done := GrowAndMerge(app, barrierIDs, k);
    run := Some(done);
    r := Evaluated(app, "Greedy TP (GrTP)", groups);
    WhatARunGives(app, done);
  }

  lemma WhatARunGives(app: Application, run: Run)
    requires RunOK(app, run) && GroupRuntimeMs(app.nodes, CriticalPath(app)) <= app.maxLatencyMS
    ensures WellFormed(app) ==> Family(Outcome(app, run)) && Members(Outcome(app, run)) <= Elems(app.functions)
    ensures IsRooted(app) ==> (Feasible(app, Outcome(app, run)) <==> ReachableFit(app))
    ensures IsServable(app) ==>
      (Feasible(app, Outcome(app, run)) <==> exists q :: IsPartition(app, q) && Feasible(app, q))
  {
    hide RunOK, Outcome, WellFormed, Family, Members, Feasible, IsRooted, IsPartition, GroupRuntimeMs, CriticalPath,
      ReachableFit;
    if WellFormed(app) { HoldsExactlyReachable(app, run); }
    if IsRooted(app) { FeasibleExactlyWhenReachableFit(app, run); }
    if IsServable(app) { FeasibleExactlyWhenPossible(app, run); }
  }

  lemma ServableHasPath(app: Application)
    requires CriticalPath(app) == [] || RootFunction(app).None?
    ensures !IsRooted(app) && !IsServable(app)
  { }

  lemma TooSlowToServe(app: Application)
    requires GroupRuntimeMs(app.nodes, CriticalPath(app)) > app.maxLatencyMS
    ensures IsServable(app) ==> forall q :: IsPartition(app, q) ==> !Feasible(app, q)
  {
    forall q | IsServable(app) && IsPartition(app, q) ensures !Feasible(app, q) {
      HopsMonotone(0, PathCuts(q, CriticalPath(app)), app.networkHopMS);
    }
  }

  lemma FewestBound(base: nat, hop: int, cap: int, edges: nat, k: nat)
    requires FewestMerges(base, hop, cap, edges, k)
    ensures k <= edges
  { }

  method CollectGroups(dict: map<Id, Group>, barriers: set<Id>, origin: map<Id, Id>, s: Store, ghost dist: map<Id, nat>)
    returns (groups: seq<Group>)
    requires GroupedBy(dict, barriers, origin) && Nearest(s, barriers, dist, origin)
    ensures IsGrown(groups, origin)
  {
    var order := Enumerate(barriers);
    assert forall b :: b in order ==> b in Elems(order);
    groups := GroupsIn(dict, order);
    GroupsInGrown(dict, barriers, origin, order);
  }

  /** Step 1 merges enough edges of the path for the latency cap, and no smaller number would do. */
  lemma MergesNoMoreThanNeeded(app: Application, run: Run, fewer: nat)
    requires RunOK(app, run)
    ensures run.k <= |CriticalPath(app)| - 1
    ensures GroupRuntimeMs(app.nodes, CriticalPath(app))
            + (|CriticalPath(app)| - 1 - run.k) * app.networkHopMS <= app.maxLatencyMS
    ensures fewer < run.k ==>
      GroupRuntimeMs(app.nodes, CriticalPath(app)) + (|CriticalPath(app)| - 1 - fewer) * app.networkHopMS
        > app.maxLatencyMS
  {
    hide Nearest, IsGrown, IsMergeOrder, IsTieBroken, CriticalPath, GroupRuntimeMs, RootFunction, Barriers;
    var base := GroupRuntimeMs(app.nodes, CriticalPath(app));
    assert fewer < run.k ==> StepLatency(base, app.networkHopMS, |CriticalPath(app)| - 1, fewer) > app.maxLatencyMS;
  }

  /** Barriers are the root and whatever a path edge left cut leads to. */
  lemma BarriersAreExactly(app: Application, run: Run, b: Id)
    requires RunOK(app, run) && Distinct(CriticalPath(app))
    ensures b in run.barriers <==>
      RootFunction(app) == Some(b) || exists i :: run.k < i < |CriticalPath(app)| && CriticalPath(app)[i] == b
  {
    hide Nearest, IsGrown, IsMergeOrder, IsTieBroken, CriticalPath, RootFunction, FewestMerges;
    FewestBound(GroupRuntimeMs(app.nodes, CriticalPath(app)), app.networkHopMS, app.maxLatencyMS,
      |CriticalPath(app)| - 1, run.k);
    BarriersOfPath(CriticalPath(app), RootFunction(app).value, run.k, b);
  }

  lemma BarriersOfPath(path: seq<Id>, root: Id, k: nat, b: Id)
    requires path != [] && k <= |path| - 1 && Distinct(path)
    ensures b in Barriers(path, root, k) <==> b == root || exists i :: k < i < |path| && path[i] == b
  {
    var edges := PathEdges(path);
    if i :| k < i < |path| && path[i] == b {
      var e := edges[i - 1];
      assert e in edges && e.to == b;
      forall j | 0 <= j < k ensures edges[..k][j] != e { assert edges[j].to == path[j + 1] != path[i]; }
    }
    if b in Barriers(path, root, k) && b != root {
      var e :| e in Elems(edges) - Elems(edges[..k]) && e.to == b;
      var j := LateEdge(path, k, e);
    }
  }

  // ---- which functions the result holds ----

  lemma BarrierIsFunction(app: Application, run: Run, b: Id)
    requires RunOK(app, run) && b in run.barriers
    ensures b in app.functions
  {
    var path := CriticalPath(app);
    RootIsFunction(app.nodes, app.functions);
    if b != RootFunction(app).value {
      var e :| e in Elems(PathEdges(path)) && e.to == b;
      var i :| 0 <= i < |path| - 1 && PathEdges(path)[i] == e;
      assert path[i + 1] in path;
    }
  }

  /** The result is a family of exactly the functions some barrier reaches: functions out of reach
      are dropped, and nothing is duplicated through ejection and merging. */
  lemma HoldsExactlyReachable(app: Application, run: Run)
    requires WellFormed(app) && RunOK(app, run)
    ensures Family(Outcome(app, run)) && Members(Outcome(app, run)) <= Elems(app.functions)
    ensures forall v :: v in Members(Outcome(app, run)) <==> Reaches(app.nodes, run.barriers, v)
  {
    var s, safe := app.nodes, SafeGroups(app.nodes, app.maxMemoryMB, run.grown);
    FamilyFlat(run.grown);
    SafeFlat(s, app.maxMemoryMB, run.grown);
    FlatFamily(safe);
    assert Members(safe) == run.origin.Keys;
    forall v | v in Members(safe) ensures v in app.functions {
      BarrierIsFunction(app, run, run.origin[v]);
      WalkInside(app, run.origin[v], v, run.dist[v]);
    }
    MergeAllConserves(app, safe, run.order);
  }

  // ---- feasibility ----

  lemma {:induction false} WalkAlong(s: Store, path: seq<Id>, i: nat, j: nat)
    requires PathIsWalk(s, path) && i <= j < |path|
    ensures Walk(s, path[i], path[j], j - i)
    decreases j
  {
    if i < j {
      WalkAlong(s, path, i, j - 1);
      assert path[j] == path[(j - 1) + 1] && path[j] in At(s, path[j - 1]).children;
    }
  }

  /** The merged head of the critical path is nearest to the root: a later barrier reaching back to
      it would close a cycle. */
  lemma HeadBelongsToRoot(app: Application, run: Run, i: nat)
    requires RunOK(app, run) && Acyclic(app.nodes) && PathIsWalk(app.nodes, CriticalPath(app))
    requires RootFunction(app) == Some(CriticalPath(app)[0])
    requires i <= run.k
    ensures i < |CriticalPath(app)| && CriticalPath(app)[i] in run.origin
    ensures run.origin[CriticalPath(app)[i]] == CriticalPath(app)[0]
  {
    hide IsGrown, IsMergeOrder, FewestMerges, Walk, PathIsWalk, PathEdges;
    var s, path, k := app.nodes, CriticalPath(app), run.k;
    FewestBound(GroupRuntimeMs(s, path), app.networkHopMS, app.maxLatencyMS, |path| - 1, k);
    var root, v := path[0], path[i];
    WalkAlong(s, path, 0, i);
    assert root in run.barriers;
    assert v in run.origin;
    var b := run.origin[v];
    if b != root {
      var e :| e in Elems(PathEdges(path)) - Elems(PathEdges(path)[..k]) && e.to == b;
      var j := LateEdge(path, k, e);
      WalkAlong(s, path, i, j);
      WalkAppend(s, b, v, b, run.dist[v], j - i);
    }
  }

  lemma PrefixHolds(edges: seq<PathEdge>, k: nat, i: nat)
    requires k <= |edges| && i < |edges|
    ensures i < k ==> edges[i] in edges[..k]
  {
    if i < k { assert edges[..k][i] == edges[i]; }
  }

  lemma LateEdge(path: seq<Id>, k: nat, e: PathEdge) returns (j: nat)
    requires path != [] && k <= |path| - 1
    requires e in Elems(PathEdges(path)) - Elems(PathEdges(path)[..k])
    ensures k < j < |path| && path[j] == e.to
  {
    var edges := PathEdges(path);
    var i :| 0 <= i < |edges| && edges[i] == e;
    PrefixHolds(edges, k, i);
    j := i + 1;
  }

  lemma {:induction false} CutsAtMost(groups: seq<Group>, path: seq<Id>, k: nat, m: nat)
    requires Family(groups) && m < |path|
    requires forall i, j ::
      0 <= i <= k && 0 <= j <= k && i < |path| && j < |path| ==> Together(groups, path[i], path[j])
    ensures PathCuts(groups, path[..m + 1]) <= if m <= k then 0 else m - k
  {
    hide IsCut, Together, Family;
    if m > 0 {
      CutsAtMost(groups, path, k, m - 1);
      assert path[..m + 1][..m] == path[..m];
      if m <= k {
        assert Together(groups, path[m - 1], path[m]);
        CutMeaning(groups, path[m - 1], path[m]);
      }
    }
  }

  /** On an acyclic application whose critical path starts at the root and follows calls, with
      every function within the cap, the result of every run is feasible: for every order in which
      the barriers come out of their map, and whatever the order of ties. */
  lemma RunIsFeasible(app: Application, run: Run)
    requires WellFormed(app) && RunOK(app, run) && Acyclic(app.nodes)
    requires PathIsWalk(app.nodes, CriticalPath(app)) && RootFunction(app) == Some(CriticalPath(app)[0])
    requires forall f :: f in run.origin ==> At(app.nodes, f).memoryMB <= app.maxMemoryMB
    ensures Feasible(app, Outcome(app, run))
  {
    var path, grown, k := CriticalPath(app), run.grown, run.k;
    GrownFits(app, run);
    SafeWhenAllFit(app.nodes, app.maxMemoryMB, grown);
    GrownMembers(app, run);
    MergeAllFits(app, grown, run.order);
    MergeAllConserves(app, grown, run.order);
    GrownLatency(app, run);
    CoarserIsFaster(app, grown, MergeAll(app, grown, run.order));
  }

  lemma GrownMembers(app: Application, run: Run)
    requires WellFormed(app) && RunOK(app, run)
    ensures Family(run.grown) && Members(run.grown) <= Elems(app.functions)
  {
    OriginIsFunctions(app, run);
  }

  lemma GrownFits(app: Application, run: Run)
    requires WellFormed(app) && RunOK(app, run)
    requires forall f :: f in run.origin ==> At(app.nodes, f).memoryMB <= app.maxMemoryMB
    ensures MemoryFits(app, run.grown)
  {
    hide Family, IsMergeOrder, FewestMerges;
    RootIsOwn(app, run);
    forall g | g in run.grown ensures GroupMemory(app.nodes, g) <= app.maxMemoryMB {
      var i :| 0 <= i < |run.grown| && run.grown[i] == g;
      forall f | f in g ensures At(app.nodes, f).memoryMB <= app.maxMemoryMB {
        assert f in Members(run.grown);
      }
    }
  }

  /** The root is a barrier and reaches itself. */
  lemma RootIsOwn(app: Application, run: Run)
    requires RunOK(app, run)
    ensures RootFunction(app).value in run.barriers && RootFunction(app).value in run.origin
  {
    assert Walk(app.nodes, RootFunction(app).value, RootFunction(app).value, 0);
  }

  /** The root is a barrier, so whatever it reaches is reached. */
  lemma BarriersReachWhatRootDoes(app: Application, run: Run)
    requires RunOK(app, run) && AllReachable(app)
    ensures forall f :: f in app.functions ==> Reaches(app.nodes, run.barriers, f)
  {
    hide Nearest, IsGrown, IsMergeOrder, FewestMerges;
    var root := RootFunction(app).value;
    assert root in run.barriers;
    forall f | f in app.functions ensures Reaches(app.nodes, run.barriers, f) {
      var b, n: nat :| b in {root} && Walk(app.nodes, b, f, n);
      assert b in run.barriers;
    }
  }

  lemma {:induction false} ReachesBeyond(s: Store, u: Id, b: Id, v: Id)
    requires Reaches(s, {u}, b) && Reaches(s, {b}, v)
    ensures Reaches(s, {u}, v)
  {
    var x, m: nat :| x in {u} && Walk(s, x, b, m);
    var y, n: nat :| y in {b} && Walk(s, y, v, n);
    WalkAppend(s, u, b, v, m, n);
  }

  /** On a path of calls from the root, every barrier lies downstream of the root. */
  lemma BarrierBelowRoot(app: Application, run: Run, b: Id)
    requires RunOK(app, run) && b in run.barriers
    requires PathIsWalk(app.nodes, CriticalPath(app)) && RootFunction(app) == Some(CriticalPath(app)[0])
    ensures Reaches(app.nodes, {RootFunction(app).value}, b)
  {
    hide IsGrown, IsMergeOrder, FewestMerges, Nearest, PathIsWalk;
    var path, root := CriticalPath(app), RootFunction(app).value;
    if b == root {
      WalkAlong(app.nodes, path, 0, 0);
    } else {
      var e :| e in Elems(PathEdges(path)) && e.to == b;
      var i :| 0 <= i < |path| - 1 && PathEdges(path)[i] == e;
      WalkAlong(app.nodes, path, 0, i + 1);
    }
  }

  /** So what the barriers reach is what the root reaches. */
  lemma SameReach(app: Application, run: Run, v: Id)
    requires RunOK(app, run)
    requires PathIsWalk(app.nodes, CriticalPath(app)) && RootFunction(app) == Some(CriticalPath(app)[0])
    ensures v in run.origin <==> Reaches(app.nodes, {RootFunction(app).value}, v)
  {
    hide IsGrown, IsMergeOrder, FewestMerges, PathIsWalk, Barriers, CriticalPath;
    RootIsOwn(app, run);
    if v in run.origin {
      var b := run.origin[v];
      BarrierBelowRoot(app, run, b);
      ReachesBeyond(app.nodes, RootFunction(app).value, b, v);
    }
  }

  /** The result covers the application exactly when the root reaches all of it. */
  lemma CoversExactlyWhenRootReaches(app: Application, run: Run)
    requires WellFormed(app) && RunOK(app, run)
    requires PathIsWalk(app.nodes, CriticalPath(app)) && RootFunction(app) == Some(CriticalPath(app)[0])
    ensures IsPartition(app, Outcome(app, run)) <==> AllReachable(app)
  {
    hide RunOK, Outcome, WellFormed, Family, Members, Reaches, PathIsWalk, CriticalPath;
    HoldsExactlyReachable(app, run);
    forall v ensures v in Members(Outcome(app, run)) <==> Reaches(app.nodes, {RootFunction(app).value}, v) {
      SameReach(app, run, v);
      InOriginIsReached(app, run, v);
    }
    assert forall f :: f in app.functions <==> f in Elems(app.functions);
  }

  lemma InOriginIsReached(app: Application, run: Run, v: Id)
    requires RunOK(app, run)
    ensures v in run.origin <==> Reaches(app.nodes, run.barriers, v)
  { }

  /** Whatever is out of reach: feasible exactly when the functions the root reaches fit. */
  lemma FeasibleExactlyWhenReachableFit(app: Application, run: Run)
    requires IsRooted(app) && RunOK(app, run) && FastEnough(app)
    ensures Feasible(app, Outcome(app, run)) <==> ReachableFit(app)
  {
    hide RunOK, WellFormed, Acyclic, PathIsWalk, Outcome, Family, GroupRuntimeMs, CriticalPath, Reaches, Latency,
      GroupMemory;
    var gs := Outcome(app, run);
    HoldsExactlyReachable(app, run);
    forall v ensures (v in run.origin <==> Reaches(app.nodes, {RootFunction(app).value}, v))
      && (v in Members(gs) <==> v in run.origin) {
      SameReach(app, run, v);
      InOriginIsReached(app, run, v);
    }
    if ReachableFit(app) { RunIsFeasible(app, run); }
    if Feasible(app, gs) {
      forall f | f in Members(gs) ensures At(app.nodes, f).memoryMB <= app.maxMemoryMB { GroupedFits(app, gs, f); }
    }
  }

  lemma GroupedFits(app: Application, gs: seq<Group>, f: Id)
    requires MemoryFits(app, gs) && f in Members(gs)
    ensures At(app.nodes, f).memoryMB <= app.maxMemoryMB
  {
    var i :| 0 <= i < |gs| && f in gs[i];
    assert gs[i] in gs;
  }

  lemma HeadTogether(app: Application, run: Run)
    requires WellFormed(app) && RunOK(app, run) && Acyclic(app.nodes)
    requires PathIsWalk(app.nodes, CriticalPath(app)) && RootFunction(app) == Some(CriticalPath(app)[0])
    ensures PathCuts(run.grown, CriticalPath(app)) <= |CriticalPath(app)| - 1 - run.k
  {
    hide Nearest, IsMergeOrder, FewestMerges, WellFormed, Acyclic, PathIsWalk, PathCuts, Walk;
    var path, k := CriticalPath(app), run.k;
    forall i, j | 0 <= i <= k && 0 <= j <= k && i < |path| && j < |path| ensures Together(run.grown, path[i], path[j]) {
      HeadBelongsToRoot(app, run, i);
      HeadBelongsToRoot(app, run, j);
    }
    CutsAtMost(run.grown, path, k, |path| - 1);
    assert path[..|path| - 1 + 1] == path;
    HeadBelongsToRoot(app, run, k);
  }

  lemma GrownLatency(app: Application, run: Run)
    requires WellFormed(app) && RunOK(app, run) && Acyclic(app.nodes)
    requires PathIsWalk(app.nodes, CriticalPath(app)) && RootFunction(app) == Some(CriticalPath(app)[0])
    ensures Latency(app, run.grown) <= app.maxLatencyMS
  {
    hide Nearest, IsGrown, IsMergeOrder, Acyclic, PathIsWalk, PathCuts;
    var path := CriticalPath(app);
    HeadTogether(app, run);
    HopsMonotone(PathCuts(run.grown, path), |path| - 1 - run.k, app.networkHopMS);
  }

  /** GreedyTP is feasible exactly when feasibility is possible. */
  lemma FeasibleExactlyWhenPossible(app: Application, run: Run)
    requires IsServable(app)
    requires FastEnough(app) ==> RunOK(app, run)
    ensures FastEnough(app) && Feasible(app, Outcome(app, run)) <==> exists q :: IsPartition(app, q) && Feasible(app, q)
  {
    hide RunOK, WellFormed, Acyclic, PathIsWalk, Outcome, Family, Feasible, GroupRuntimeMs, CriticalPath, Nearest;
    SomeFeasibleExactly(app);
    if FastEnough(app) {
      OriginIsFunctions(app, run);
      RunIsFeasible(app, run);
    }
  }

  lemma OriginIsFunctions(app: Application, run: Run)
    requires WellFormed(app) && RunOK(app, run)
    ensures forall v :: v in run.origin ==> v in app.functions
  {
    forall v | v in run.origin ensures v in app.functions {
      BarrierIsFunction(app, run, run.origin[v]);
      WalkInside(app, run.origin[v], v, run.dist[v]);
    }
  }
}
