/** The explanation printed beside a partition, and the bill it has to add up to. */
module TradeoffReport {
  import opened Sums
  import opened Domain
  import opened Billing
  import opened Coarsening
  import opened Evaluation

  /** A missing map entry reads as index zero. */
  function IndexOrZero(groups: seq<Group>, f: Id): nat {
    match Owner(groups, f)
    case None => 0
    case Some(i) => i
  }

  function PathSplits(groups: seq<Group>, path: seq<Id>): nat {
    if |path| < 2 then 0 else
    PathSplits(groups, path[..|path| - 1])
    + if IndexOrZero(groups, path[|path| - 2]) != IndexOrZero(groups, path[|path| - 1]) then 1 else 0
  }

  function CriticalPathCuts(app: Application, groups: Option<seq<Group>>): nat {
    var path := CriticalPath(app);
    if |path| < 2 then 0
    else match groups
      case None => |path| - 1
      case Some(gs) => PathSplits(gs, path)
  }

  /** A function in no group counts as one of the first group: stepping to it is a split exactly from
      any other group. */
  lemma UnplacedCountsAsFirst(groups: seq<Group>, u: Id, v: Id)
    requires forall g :: g in groups ==> v !in g
    ensures PathSplits(groups, [u, v]) ==
      if Owner(groups, u).None? || Owner(groups, u) == Some(0) then 0 else 1
  {
    assert [u, v][..1] == [u];
    forall i | 0 <= i < |groups| ensures v !in groups[i] { assert groups[i] in groups; }
  }

  ghost function TradeoffOf(app: Application, groups: seq<Group>): Tradeoff {
    var s, none := app.nodes, Singles(app.functions);
    var invocations, baseline := SeqSum(groups, Invocations(s)), SeqSum(none, Invocations(s));
    Tradeoff(
      baseline - invocations,
      RequestCharge(invocations - baseline),
      SeqSum(groups, Execution(s)) - SeqSum(none, Execution(s)),
      CriticalPathCuts(app, None) - CriticalPathCuts(app, Some(groups)))
  }

  // ---- the loops ----

  method SumGroups(s: Store, groups: seq<Group>) returns (invocations: real, execution: real)
    ensures invocations == SeqSum(groups, Invocations(s))
    ensures execution == SeqSum(groups, Execution(s))
  {
    invocations, execution := 0.0, 0.0;
    for i := 0 to |groups|
      invariant invocations == SeqSum(groups[..i], Invocations(s))
      invariant execution == SeqSum(groups[..i], Execution(s))
    {
      SeqSumPrefix(groups, i, Invocations(s));
      SeqSumPrefix(groups, i, Execution(s));
      var rate := InvocationRate(s, groups[i]);
      var cost := GroupExecutionCost(s, groups[i]);
      invocations := invocations + rate;
      execution := execution + cost;
    }
    assert groups[..|groups|] == groups;
  }

  method CountCuts(app: Application, groups: Option<seq<Group>>) returns (cuts: nat)
    ensures cuts == CriticalPathCuts(app, groups)
  {
    var path := CriticalPathFunctions(app);
    if |path| < 2 { return 0; }
    if groups.None? { return |path| - 1; }
    var gs := groups.value;
    var groupOf := FuncToGroupIndex(gs);
    cuts := 0;
    for i := 0 to |path| - 1
      invariant cuts == PathSplits(gs, path[..i + 1])
    {
      assert path[..i + 2][..i + 1] == path[..i + 1];
      var here := if path[i] in groupOf then groupOf[path[i]] else 0;
      var next := if path[i + 1] in groupOf then groupOf[path[i + 1]] else 0;
      if here != next {
        cuts := cuts + 1;
      }
    }
    assert path[..|path| - 1 + 1] == path;
  }

  method CalculateTradeoff(app: Application, groups: seq<Group>) returns (t: Tradeoff)
    ensures t == TradeoffOf(app, groups)
  {
    var baselineInvocations, baselineExecution := SumGroups(app.nodes, Singles(app.functions));
    var invocations, execution := SumGroups(app.nodes, groups);
    var allCuts: int := CountCuts(app, None);
    var cuts: int := CountCuts(app, Some(groups));
    t := Tradeoff(
      baselineInvocations - invocations,
      RequestCharge(invocations - baselineInvocations),
      execution - baselineExecution,
      allCuts - cuts);
  }

  // ---- the accounting ----

  /** What `f` sends to the rest of its own block. */
  ghost function Internalised(s: Store, groups: seq<Group>): Id -> real {
    (f: Id) => Sum(Block(groups, f) - {f}, Fix(Transfer(s), f))
  }

  /** The price of running `f` at the memory of block `b` instead of its own. */
  ghost function RetieredAt(s: Store, b: set<Id>, f: Id): real
    requires f in b
  {
    ExecutionCostUSD(MaxMemory(s, b) - At(s, f).memoryMB, At(s, f).runtimeMs)
  }

  ghost function RetieringCharge(s: Store, groups: seq<Group>): Id -> real {
    (f: Id) => if f in Block(groups, f) then RetieredAt(s, Block(groups, f), f) else 0.0
  }

  ghost function CalledInside(s: Store, groups: seq<Group>): Id -> real {
    (f: Id) =>
      var p := At(s, f).parent;
      if p.Some? && p.value != f && p.value in Block(groups, f) then Rate(s, f) else 0.0
  }

  lemma SingletonMaxMemory(s: Store, f: Id)
    ensures MaxMemory(s, {f}) == At(s, f).memoryMB
  {
    assert f in {f};
  }

  lemma RetieringStep(own: nat, max: nat, r: nat)
    requires own <= max
    ensures ExecutionCostUSD(max, r) == ExecutionCostUSD(own, r) + ExecutionCostUSD(max - own, r)
    ensures ExecutionCostUSD(max - own, r) >= 0.0
  {
    var t := r as real / 1000.0;
    var a, b := own as real / 1024.0, (max - own) as real / 1024.0;
    assert max as real / 1024.0 == a + b;
    assert (a + b) * t == a * t + b * t;
    ExecutionCostMonotone(0, max - own, r);
  }

  lemma RetieringOfBlock(s: Store, b: set<Id>, f: Id)
    requires f in b
    ensures ExecutedAt(s, b, f) == ExecutedAt(s, {f}, f) + RetieredAt(s, b, f)
    ensures RetieredAt(s, b, f) >= 0.0
  {
    SingletonMaxMemory(s, f);
    RetieringStep(At(s, f).memoryMB, MaxMemory(s, b), At(s, f).runtimeMs);
  }

  lemma RetieringOfOne(app: Application, p: seq<Group>, f: Id)
    requires WellFormed(app) && IsPartition(app, p) && f in app.functions
    ensures ExecutedIn(app.nodes, p)(f)
            == ExecutedIn(app.nodes, Singles(app.functions))(f) + RetieringCharge(app.nodes, p)(f)
    ensures RetieringCharge(app.nodes, p)(f) >= 0.0
  {
    hide Sum, SeqSum, ExecutedAt, RetieredAt;
    SinglesPartition(app);
    OwnBlock(p, f);
    RetieringOfBlock(app.nodes, Block(p, f), f);
  }

  lemma InvocationsOfOne(app: Application, p: seq<Group>, f: Id)
    requires WellFormed(app) && IsPartition(app, p) && f in app.functions
    ensures InvokedIn(app.nodes, Singles(app.functions))(f)
            == InvokedIn(app.nodes, p)(f) + CalledInside(app.nodes, p)(f)
    ensures CalledInside(app.nodes, p)(f) >= 0.0
  {
    var s, b, parent := app.nodes, Block(p, f), At(app.nodes, f).parent;
    SinglesPartition(app);
    OwnBlock(p, f);
    RatePositive(app, f);
    assert EntryRateAt(s, {f}, f) == EntryRateAt(s, b, f)
      + if parent.Some? && parent.value != f && parent.value in b then Rate(s, f) else 0.0;
  }

  /** Both deltas, function by function. The execution delta is the price of every member running
      at the group's memory instead of its own, so it is never negative; the invocations removed
      are those of members called from inside their group. */
  lemma TradeoffPerFunction(app: Application, p: seq<Group>)
    requires WellFormed(app) && IsPartition(app, p)
    ensures var t := TradeoffOf(app, p);
      && t.executionDeltaUSD == Sum(Elems(app.functions), RetieringCharge(app.nodes, p)) >= 0.0
      && t.invocationsRemoved == Sum(Elems(app.functions), CalledInside(app.nodes, p)) >= 0.0
      && t.requestDeltaUSD == RequestCharge(-t.invocationsRemoved)
  {
    hide Sum, SeqSum, ExecutedIn, InvokedIn, RetieringCharge, CalledInside, CriticalPathCuts;
    var s, none, F := app.nodes, Singles(app.functions), Elems(app.functions);
    SinglesPartition(app);
    TotalsPerFunction(s, none);
    TotalsPerFunction(s, p);
    forall f | f in F
      ensures ExecutedIn(s, p)(f) == ExecutedIn(s, none)(f) + RetieringCharge(s, p)(f)
      ensures RetieringCharge(s, p)(f) >= 0.0
      ensures InvokedIn(s, none)(f) == InvokedIn(s, p)(f) + CalledInside(s, p)(f)
      ensures CalledInside(s, p)(f) >= 0.0
    {
      RetieringOfOne(app, p, f);
      InvocationsOfOne(app, p, f);
    }
    SumAdd(F, ExecutedIn(s, none), RetieringCharge(s, p), ExecutedIn(s, p));
    SumAdd(F, InvokedIn(s, p), CalledInside(s, p), InvokedIn(s, none));
    SumNonNegative(F, RetieringCharge(s, p));
    SumNonNegative(F, CalledInside(s, p));
  }

  lemma OwnBlock(p: seq<Group>, f: Id)
    requires f in Members(p)
    ensures f in Block(p, f)
  {
    var i :| 0 <= i < |p| && f in p[i];
  }

  ghost function ChargesIn(s: Store, groups: seq<Group>): Id -> real {
    (f: Id) => ExecutedIn(s, groups)(f) + Charged(InvokedIn(s, groups))(f)
  }

  lemma BillByTerms(s: Store, p: seq<Group>, f: Id)
    ensures BillIn(s, p)(f) == ChargesIn(s, p)(f) + CrossIn(s, p)(f)
  {
    hide Sum, SeqSum, ExecutedAt, RequestCharge;
    assert BillIn(s, p)(f) == FunctionBill(s, Members(p), Block(p, f), f);
    assert CrossIn(s, p)(f) == Sum(Members(p) - Block(p, f), Fix(Transfer(s), f));
    assert ExecutedIn(s, p)(f) == ExecutedAt(s, Block(p, f), f);
    assert Charged(InvokedIn(s, p))(f) == RequestCharge(EntryRateAt(s, Block(p, f), f));
  }

  /** The bill is the execution total, the request total and the transfer that crosses blocks. */
  lemma CostByTerms(app: Application, p: seq<Group>)
    requires WellFormed(app) && IsPartition(app, p)
    ensures TotalCostUSD(app, p) == SeqSum(p, Execution(app.nodes))
      + RequestCharge(SeqSum(p, Invocations(app.nodes))) + Sum(Elems(app.functions), CrossIn(app.nodes, p))
  {
    hide Sum, SeqSum, TotalCostUSD, BillIn, ExecutedIn, InvokedIn, CrossIn, Charged, RequestCharge;
    var s, F := app.nodes, Elems(app.functions);
    CostIsSumOfBills(app, p);
    TotalsPerFunction(s, p);
    forall f | f in F { BillByTerms(s, p, f); }
    SumCharged(F, InvokedIn(s, p));
    SumAdd(F, ExecutedIn(s, p), Charged(InvokedIn(s, p)), ChargesIn(s, p));
    SumAdd(F, ChargesIn(s, p), CrossIn(s, p), BillIn(s, p));
  }

  lemma RequestChargeLinear(a: real, b: real)
    ensures RequestCharge(a - b) == RequestCharge(a) - RequestCharge(b)
  { }

  lemma CrossingSplits(app: Application, p: seq<Group>, f: Id)
    requires WellFormed(app) && IsPartition(app, p) && f in app.functions
    ensures CrossIn(app.nodes, Singles(app.functions))(f) == Internalised(app.nodes, p)(f) + CrossIn(app.nodes, p)(f)
  {
    var F, b := Elems(app.functions), Block(p, f);
    SinglesPartition(app);
    OwnBlock(p, f);
    assert b <= F by {
      forall v | v in b ensures v in F {
        BlockIsTogether(p, f, v);
        assert v in Members(p);
      }
    }
    assert F - {f} == (b - {f}) + (F - b);
    SumUnion(b - {f}, F - b, Fix(Transfer(app.nodes), f));
  }

  /** For every partition, the report adds up: the bill moves by exactly the two deltas less the
      transfer that fusion internalised. */
  lemma TradeoffAccountsForCost(app: Application, p: seq<Group>)
    requires WellFormed(app) && IsPartition(app, p)
    ensures TotalCostUSD(app, p) - TotalCostUSD(app, Singles(app.functions))
      == TradeoffOf(app, p).requestDeltaUSD + TradeoffOf(app, p).executionDeltaUSD
         - Sum(Elems(app.functions), Internalised(app.nodes, p))
  {
    hide Sum, SeqSum, TotalCostUSD, CrossIn, Internalised, CriticalPathCuts;
    RequestChargeLinear(SeqSum(p, Invocations(app.nodes)), SeqSum(Singles(app.functions), Invocations(app.nodes)));
    hide Sum, SeqSum, RequestCharge;
    var s, none, F := app.nodes, Singles(app.functions), Elems(app.functions);
    SinglesPartition(app);
    CostByTerms(app, p);
    CostByTerms(app, none);
    forall f | f in F { CrossingSplits(app, p, f); }
    SumAdd(F, Internalised(s, p), CrossIn(s, p), CrossIn(s, none));
  }

  predicate Repeats(path: seq<Id>) {
    exists i :: 0 <= i < |path| - 1 && path[i] == path[i + 1]
  }

  function Repetitions(path: seq<Id>): nat {
    if |path| < 2 then 0 else
    Repetitions(path[..|path| - 1]) + if path[|path| - 2] == path[|path| - 1] then 1 else 0
  }

  lemma {:induction false} RepetitionsMeaning(path: seq<Id>)
    ensures Repetitions(path) > 0 <==> Repeats(path)
  {
    if |path| >= 2 {
      var init := path[..|path| - 1];
      RepetitionsMeaning(init);
      if Repeats(path) {
        var i :| 0 <= i < |path| - 1 && path[i] == path[i + 1];
        if i < |init| - 1 { assert init[i] == init[i + 1]; }
      }
      if Repeats(init) {
        var i :| 0 <= i < |init| - 1 && init[i] == init[i + 1];
        assert path[i] == path[i + 1];
      }
    }
  }

  /** Both ways of telling groups apart agree along a path: its functions are placed, and two of
      their groups share an index exactly when they share a canonical name. */
  ghost predicate NamesTellApart(groups: seq<Group>, path: seq<Id>) {
    forall u, v :: u in path && v in path ==>
      && Owner(groups, u).Some? && Owner(groups, v).Some?
      && (Owner(groups, u) == Owner(groups, v) <==>
          GroupID(groups[Owner(groups, u).value]) == GroupID(groups[Owner(groups, v).value]))
  }

  lemma PartitionTellsApart(app: Application, p: seq<Group>, path: seq<Id>)
    requires IsPartition(app, p) && forall f :: f in path ==> f in app.functions
    ensures NamesTellApart(p, path)
  {
    forall u, v | u in path && v in path
      ensures Owner(p, u).Some? && Owner(p, v).Some?
      ensures Owner(p, u) == Owner(p, v) <==> GroupID(p[Owner(p, u).value]) == GroupID(p[Owner(p, v).value])
    {
      assert u in Members(p) && v in Members(p);
      var i, j := Owner(p, u).value, Owner(p, v).value;
      assert p[i][0] == p[j][0] ==> i == j;
    }
  }

  lemma {:induction false} SplitsAreCuts(p: seq<Group>, path: seq<Id>)
    requires NamesTellApart(p, path)
    ensures PathSplits(p, path) == PathCuts(p, path)
  {
    if |path| >= 2 {
      var init := path[..|path| - 1];
      assert forall f :: f in init ==> f in path;
      SplitsAreCuts(p, init);
      assert path[|path| - 2] in path && path[|path| - 1] in path;
    }
  }

  /** With every function alone, a pair is cut exactly when it is two functions, even where the list
      of functions repeats itself. */
  lemma AloneIsCut(functions: seq<Id>, u: Id, v: Id)
    requires u in functions && v in functions
    ensures IsCut(Singles(functions), u, v) <==> u != v
  {
    var i :| 0 <= i < |functions| && functions[i] == u;
    var j :| 0 <= j < |functions| && functions[j] == v;
    assert u in Singles(functions)[i] && v in Singles(functions)[j];
  }

  lemma {:induction false} UnfusedCuts(functions: seq<Id>, path: seq<Id>)
    requires forall f :: f in path ==> f in functions
    ensures |path| >= 1 ==> PathCuts(Singles(functions), path) == |path| - 1 - Repetitions(path)
    ensures |path| < 1 ==> PathCuts(Singles(functions), path) == 0
  {
    hide IsCut;
    if |path| >= 2 {
      var u, v := path[|path| - 2], path[|path| - 1];
      UnfusedCuts(functions, path[..|path| - 1]);
      assert u in path && v in path;
      AloneIsCut(functions, u, v);
    }
  }

  lemma HopArithmetic(a: int, b: int, extra: nat, hop: int)
    ensures a * hop - b * hop == hop * (a + extra - b) <==> hop == 0 || extra == 0
  {
    assert a * hop - b * hop == hop * (a - b);
    assert hop * (a + extra - b) == hop * (a - b) + hop * extra;
    if hop != 0 && extra != 0 { assert hop * extra != 0; }
  }

  lemma HopsOf(app: Application, groups: seq<Group>)
    requires NamesTellApart(groups, CriticalPath(app))
    ensures var path := CriticalPath(app);
      TradeoffOf(app, groups).hopsRemoved
        == PathCuts(Singles(app.functions), path) + Repetitions(path) - PathCuts(groups, path)
  {
    SplitsAreCuts(groups, CriticalPath(app));
    UnfusedCuts(app.functions, CriticalPath(app));
  }

  /** `HopsRemoved` explains the latency exactly when the critical path has no immediate
      repetition (or a hop is free): the baseline counts every consecutive pair as a cut, while
      `CalculateMetrics` charges no hop from a function to itself. Nothing is asked of the
      application, so lists of functions that repeat themselves are included. */
  lemma HopsExplainLatency(app: Application, groups: seq<Group>)
    requires NamesTellApart(groups, CriticalPath(app))
    ensures Latency(app, Singles(app.functions)) - Latency(app, groups)
            == app.networkHopMS * TradeoffOf(app, groups).hopsRemoved
      <==> app.networkHopMS == 0 || !Repeats(CriticalPath(app))
  {
    var path := CriticalPath(app);
    RepetitionsMeaning(path);
    HopsOf(app, groups);
    hide PathCuts, PathSplits, Repetitions, Repeats, CriticalPath, Singles, TradeoffOf;
    HopArithmetic(PathCuts(Singles(app.functions), path), PathCuts(groups, path), Repetitions(path), app.networkHopMS);
  }

  /** In particular for every partition. */
  lemma HopsExplainLatencyOfPartition(app: Application, p: seq<Group>)
    requires IsPartition(app, p)
    ensures Latency(app, Singles(app.functions)) - Latency(app, p) == app.networkHopMS * TradeoffOf(app, p).hopsRemoved
      <==> app.networkHopMS == 0 || !Repeats(CriticalPath(app))
  {
    hide TradeoffOf, Latency, IsPartition, Repeats, NamesTellApart;
    PartitionTellsApart(app, p, CriticalPath(app));
    HopsExplainLatency(app, p);
  }
}
