/** How the three terms of the bill and the latency move when groups are joined. */
module Coarsening {
  import opened Sums
  import opened Domain
  import opened Billing

  /** `q` is coarser than `p`: whatever shares a group in `p` still does in `q`. */
  ghost predicate Refines(p: seq<Group>, q: seq<Group>) {
    forall u, v :: Together(p, u, v) ==> Together(q, u, v)
  }

  function Singles(functions: seq<Id>): seq<Group> {
    seq(|functions|, i requires 0 <= i < |functions| => [functions[i]])
  }

  lemma FunctionsDistinct(app: Application)
    requires WellFormed(app)
    ensures Distinct(app.functions)
  { }

  lemma SinglesPartition(app: Application)
    requires Distinct(app.functions)
    ensures IsPartition(app, Singles(app.functions))
    ensures forall f :: f in app.functions ==> Block(Singles(app.functions), f) == {f}
  {
    var gs := Singles(app.functions);
    forall i, k, j, l | 0 <= i < |gs| && 0 <= k < |gs[i]| && 0 <= j < |gs| && 0 <= l < |gs[j]| && gs[i][k] == gs[j][l]
      ensures i == j && k == l
    { }
    forall f ensures f in Members(gs) <==> f in app.functions {
      if f in app.functions {
        var i :| 0 <= i < |app.functions| && app.functions[i] == f;
        assert f in gs[i];
      }
    }
    forall f | f in app.functions ensures Block(gs, f) == {f} {
      var i :| 0 <= i < |app.functions| && app.functions[i] == f;
      FamilyBlock(gs, f, i);
    }
  }

  lemma OneGroupPartition(app: Application, g: Group)
    requires Distinct(g) && Elems(g) == Elems(app.functions)
    ensures IsPartition(app, [g])
    ensures forall f :: f in app.functions ==> Block([g], f) == Elems(app.functions)
  {
    forall f ensures f in Members([g]) <==> f in g {
      if f in g { assert f in [g][0]; }
    }
    assert Family([g]);
    forall f | f in app.functions ensures Block([g], f) == Elems(app.functions) {
      assert f in Elems(g);
      FamilyBlock([g], f, 0);
    }
  }

  /** NoFusion and Singleton are the two ends of the refinement order. */
  lemma BaselinesBound(app: Application, p: seq<Group>, g: Group)
    requires Distinct(app.functions) && IsPartition(app, p)
    requires Distinct(g) && Elems(g) == Elems(app.functions)
    ensures Refines(Singles(app.functions), p) && Refines(p, [g])
  {
    SinglesPartition(app);
    OneGroupPartition(app, g);
    var gs := Singles(app.functions);
    forall u, v | Together(gs, u, v) ensures Together(p, u, v) {
      BlockIsTogether(gs, u, v);
      assert Together(gs, u, u);
      assert u in Members(gs);
      var i :| 0 <= i < |p| && u in p[i];
    }
    forall u, v | Together(p, u, v) ensures Together([g], u, v) {
      assert u in Members(p) && v in Members(p);
      assert u in [g][0] && v in [g][0];
    }
  }

  lemma RefinedBlock(p: seq<Group>, q: seq<Group>, f: Id)
    requires Family(p) && Family(q) && Refines(p, q)
    ensures Block(p, f) <= Block(q, f)
  {
    forall v | v in Block(p, f) ensures v in Block(q, f) {
      BlockIsTogether(p, f, v);
      BlockIsTogether(q, f, v);
    }
  }

  // ---- latency ----

  lemma {:induction false} CoarserCutsLess(p: seq<Group>, q: seq<Group>, path: seq<Id>)
    requires Family(p) && Family(q) && Members(q) <= Members(p) && Refines(p, q)
    ensures PathCuts(q, path) <= PathCuts(p, path)
  {
    if |path| >= 2 {
      CoarserCutsLess(p, q, path[..|path| - 1]);
      CutMeaning(p, path[|path| - 2], path[|path| - 1]);
      CutMeaning(q, path[|path| - 2], path[|path| - 1]);
    }
  }

  lemma HopsMonotone(few: nat, many: nat, hop: int)
    requires few <= many && hop >= 0
    ensures few * hop <= many * hop
  { }

  lemma CoarserIsFaster(app: Application, p: seq<Group>, q: seq<Group>)
    requires app.networkHopMS >= 0
    requires Family(p) && Family(q) && Members(q) <= Members(p) && Refines(p, q)
    ensures Latency(app, q) <= Latency(app, p)
  {
    CoarserCutsLess(p, q, CriticalPath(app));
    HopsMonotone(PathCuts(q, CriticalPath(app)), PathCuts(p, CriticalPath(app)), app.networkHopMS);
  }

  lemma {:induction false} OneGroupNoCuts(app: Application, path: seq<Id>)
    requires Distinct(app.functions) && forall f :: f in path ==> f in app.functions
    ensures PathCuts([app.functions], path) == 0
  {
    if |path| >= 2 {
      OneGroupNoCuts(app, path[..|path| - 1]);
      OneGroupPartition(app, app.functions);
      CutMeaning([app.functions], path[|path| - 2], path[|path| - 1]);
    }
  }

  // ---- invocations and execution ----

  ghost function Invocations(s: Store): Group -> real {
    (g: Group) => BlockInvocationRate(s, g)
  }

  ghost function Execution(s: Store): Group -> real {
    (g: Group) => GroupExecutionCostUSD(s, g)
  }

  ghost function InvokedIn(s: Store, groups: seq<Group>): Id -> real {
    (f: Id) => EntryRateAt(s, Block(groups, f), f)
  }

  ghost function ExecutedIn(s: Store, groups: seq<Group>): Id -> real {
    (f: Id) => ExecutedAt(s, Block(groups, f), f)
  }

  lemma TotalsPerFunction(s: Store, groups: seq<Group>)
    requires Family(groups)
    ensures SeqSum(groups, Invocations(s)) == Sum(Members(groups), InvokedIn(s, groups))
    ensures SeqSum(groups, Execution(s)) == Sum(Members(groups), ExecutedIn(s, groups))
  {
    forall g | g in groups
      ensures Invocations(s)(g) == GroupTotal(InvokedIn(s, groups))(g)
      ensures Execution(s)(g) == GroupTotal(ExecutedIn(s, groups))(g)
    {
      var i :| 0 <= i < |groups| && groups[i] == g;
      FamilyGroupDistinct(groups, i);
      forall f | f in g ensures Block(groups, f) == Elems(g) { FamilyBlock(groups, f, i); }
      var m := GroupMemory(s, g);
      GroupMemoryIsMaxMemory(s, g);
      ExecutionCostShared(s, m, g);
      SeqSumIsSum(g, ExecutionShare(s, m));
      SeqSumIsSum(g, EntryRate(s, Elems(g)));
      SumCong(Elems(g), ExecutionShare(s, m), ExecutedIn(s, groups));
      SumCong(Elems(g), EntryRate(s, Elems(g)), InvokedIn(s, groups));
    }
    SeqSumCong(groups, Invocations(s), GroupTotal(InvokedIn(s, groups)));
    SeqSumCong(groups, Execution(s), GroupTotal(ExecutedIn(s, groups)));
    SumOverGroups(groups, InvokedIn(s, groups));
    SumOverGroups(groups, ExecutedIn(s, groups));
  }

  lemma CoarserBlock(app: Application, p: seq<Group>, q: seq<Group>, f: Id)
    requires WellFormed(app) && Family(p) && Family(q) && Refines(p, q) && f in app.functions
    ensures InvokedIn(app.nodes, q)(f) <= InvokedIn(app.nodes, p)(f)
    ensures ExecutedIn(app.nodes, p)(f) <= ExecutedIn(app.nodes, q)(f)
  {
    var s := app.nodes;
    RefinedBlock(p, q, f);
    RatePositive(app, f);
    var bp, bq, parent := Block(p, f), Block(q, f), At(s, f).parent;
    assert parent.Some? && parent.value in bp ==> parent.value in bq;
    assert EntryRateAt(s, bq, f) <= EntryRateAt(s, bp, f);
    MaxMemoryMonotone(s, Block(p, f), Block(q, f));
    ExecutionCostMonotone(MaxMemory(s, Block(p, f)), MaxMemory(s, Block(q, f)), At(s, f).runtimeMs);
  }

  /** Joining groups never adds a platform invocation, never lowers the execution charge and never
      slows the critical path. */
  lemma CoarseningMonotone(app: Application, p: seq<Group>, q: seq<Group>)
    requires WellFormed(app) && IsPartition(app, p) && IsPartition(app, q) && Refines(p, q)
    ensures SeqSum(q, Invocations(app.nodes)) <= SeqSum(p, Invocations(app.nodes))
    ensures SeqSum(q, Execution(app.nodes)) >= SeqSum(p, Execution(app.nodes))
    ensures Latency(app, q) <= Latency(app, p)
  {
    var s := app.nodes;
    TotalsPerFunction(s, p);
    TotalsPerFunction(s, q);
    forall f | f in Elems(app.functions)
      ensures InvokedIn(s, q)(f) <= InvokedIn(s, p)(f)
      ensures ExecutedIn(s, p)(f) <= ExecutedIn(s, q)(f)
    {
      CoarserBlock(app, p, q, f);
    }
    hide ExecutedIn, InvokedIn, Latency, Refines, Family;
    SumLe(Elems(app.functions), InvokedIn(s, q), InvokedIn(s, p));
    SumLe(Elems(app.functions), ExecutedIn(s, p), ExecutedIn(s, q));
    CoarserIsFaster(app, p, q);
  }

  /** Every partition lies between NoFusion and any single group holding everything. */
  lemma BaselinesBoundTheSpace(app: Application, p: seq<Group>, g: Group)
    requires WellFormed(app) && IsPartition(app, p)
    requires Distinct(g) && Elems(g) == Elems(app.functions)
    ensures var s, none := app.nodes, Singles(app.functions);
      && SeqSum([g], Invocations(s)) <= SeqSum(p, Invocations(s)) <= SeqSum(none, Invocations(s))
      && SeqSum(none, Execution(s)) <= SeqSum(p, Execution(s)) <= SeqSum([g], Execution(s))
      && Latency(app, [g]) <= Latency(app, p) <= Latency(app, none)
  {
    SinglesPartition(app);
    OneGroupPartition(app, g);
    BaselinesBound(app, p, g);
    CoarseningMonotone(app, Singles(app.functions), p);
    CoarseningMonotone(app, p, [g]);
  }

  /** Fitting the cap is a property of the functions, not of the partition: an iff with no
      mention of the grouping. */
  lemma MemoryFitsIsPartitionFree(app: Application, p: seq<Group>)
    requires IsPartition(app, p)
    requires [] !in p || app.maxMemoryMB >= 0
    ensures MemoryFits(app, p) <==> forall f :: f in app.functions ==> At(app.nodes, f).memoryMB <= app.maxMemoryMB
  {
    if MemoryFits(app, p) {
      forall f | f in app.functions ensures At(app.nodes, f).memoryMB <= app.maxMemoryMB {
        assert f in Members(p);
        var i :| 0 <= i < |p| && f in p[i];
        assert p[i] in p;
      }
    }
    if forall f :: f in app.functions ==> At(app.nodes, f).memoryMB <= app.maxMemoryMB {
      forall g | g in p ensures GroupMemory(app.nodes, g) <= app.maxMemoryMB {
        var i :| 0 <= i < |p| && p[i] == g;
        forall f | f in g ensures At(app.nodes, f).memoryMB <= app.maxMemoryMB {
          assert f in Members(p);
        }
        if g != [] { assert At(app.nodes, g[0]).memoryMB >= 0 && g[0] in g; }
      }
    }
  }

  /** A partition that loses to doing nothing on no axis, and stays feasible when doing nothing is. */
  ghost predicate NoWorseThanAlone(app: Application, groups: seq<Group>) {
    var none := Singles(app.functions);
    && IsPartition(app, groups)
    && TotalCostUSD(app, groups) <= TotalCostUSD(app, none)
    && Latency(app, groups) <= Latency(app, none)
    && (Feasible(app, none) ==> Feasible(app, groups))
  }

  lemma FeasibleWhenAloneIs(app: Application, p: seq<Group>)
    requires Distinct(app.functions) && IsPartition(app, p) && [] !in p
    requires Latency(app, p) <= Latency(app, Singles(app.functions))
    ensures Feasible(app, Singles(app.functions)) ==> Feasible(app, p)
  {
    hide Latency, GroupMemory, Family;
    var none := Singles(app.functions);
    SinglesPartition(app);
    assert [] !in none;
    MemoryFitsIsPartitionFree(app, none);
    MemoryFitsIsPartitionFree(app, p);
  }

  // ---- when anything is feasible ----

  lemma CapNotNegative(app: Application)
    requires app.functions != [] && forall f :: f in app.functions ==> At(app.nodes, f).memoryMB <= app.maxMemoryMB
    ensures app.maxMemoryMB >= 0
  {
    assert app.functions[0] in app.functions;
  }

  lemma OneGroupFeasible(app: Application)
    requires Distinct(app.functions) && app.functions != []
    requires forall f :: f in app.functions ==> At(app.nodes, f).memoryMB <= app.maxMemoryMB
    requires CriticalPath(app) == [] || GroupRuntimeMs(app.nodes, CriticalPath(app)) <= app.maxLatencyMS
    ensures IsPartition(app, [app.functions]) && Feasible(app, [app.functions])
  {
    OneGroupPartition(app, app.functions);
    CapNotNegative(app);
    MemoryFitsIsPartitionFree(app, [app.functions]);
    OneGroupNoCuts(app, CriticalPath(app));
  }

  lemma MemberFits(app: Application, q: seq<Group>, f: Id)
    requires IsPartition(app, q) && MemoryFits(app, q) && f in app.functions
    ensures 0 <= At(app.nodes, f).memoryMB <= app.maxMemoryMB
  {
    assert f in Members(q);
    var i :| 0 <= i < |q| && f in q[i];
    assert q[i] in q;
  }

  lemma NoFunctionsFeasible(app: Application)
    requires app.functions == []
    ensures IsPartition(app, []) && Feasible(app, [])
  {
    HasMember(CriticalPath(app));
    assert Members([]) == {};
  }

  /** Some partition is feasible exactly when every function fits on its own and the path, if there
      is one, is fast enough without a hop. */
  lemma SomeFeasibleExactly(app: Application)
    requires WellFormed(app)
    ensures (exists q :: IsPartition(app, q) && Feasible(app, q)) <==>
      (forall f :: f in app.functions ==> At(app.nodes, f).memoryMB <= app.maxMemoryMB)
      && (CriticalPath(app) == [] || GroupRuntimeMs(app.nodes, CriticalPath(app)) <= app.maxLatencyMS)
  {
    hide Family, WellFormedNode, GroupMemory, PathCuts, GroupRuntimeMs;
    var path := CriticalPath(app);
    if q :| IsPartition(app, q) && Feasible(app, q) {
      forall f | f in app.functions ensures At(app.nodes, f).memoryMB <= app.maxMemoryMB { MemberFits(app, q, f); }
      HopsMonotone(0, PathCuts(q, path), app.networkHopMS);
    }
    if (forall f :: f in app.functions ==> At(app.nodes, f).memoryMB <= app.maxMemoryMB)
      && (path == [] || GroupRuntimeMs(app.nodes, path) <= app.maxLatencyMS)
    {
      if app.functions == [] { NoFunctionsFeasible(app); } else { OneGroupFeasible(app); }
    }
  }
}
