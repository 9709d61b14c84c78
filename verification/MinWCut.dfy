/** Greedy merging along edges, starting from one group per function. */
module MinWCut {
  import opened Sums
  import opened Domain
  import opened Billing
  import opened Merging
  import opened Coarsening
  import opened RepeatedCalls
  import opened GreedyPass
  import opened Results

  method Optimize(app: Application) returns (r: AlgorithmResult)
    ensures r.name == "MinWCut Heuristic" && r.error == "" && r.metrics == MetricsOf(app, r.groups)
    ensures exists order :: IsMergeOrder(app, order) && r.groups == MergeAll(app, Singles(app.functions), order)
    ensures CallsMayRepeat(app) ==> NoWorseThanAlone(app, r.groups)
    ensures WellFormed(app) && EqualAlongCostlyEdges(app) ==>
      forall p :: IsPartition(app, p) ==> r.metrics.totalCostUSD <= TotalCostUSD(app, p)
  {
    hide IsMergeOrder, MergeAll, NoWorseThanAlone, CallsMayRepeat, WellFormed, EqualAlongCostlyEdges, IsPartition,
      TotalCostUSD, Latency, Feasible;
    var groups := new Group[|app.functions|](i requires 0 <= i < |app.functions| => [app.functions[i]]);
    assert groups[..groups.Length] == Singles(app.functions);
    var candidates := CollectCandidates(app);
    var order := SortByCost(candidates);
    SortedIsOrder(app, candidates, order);
    var n := GreedyMerge(app, groups, groups.Length, order);
    assert groups[..n] == MergeAll(app, Singles(app.functions), order);
    r := Evaluated(app, "MinWCut Heuristic", groups[..n]);
    if CallsMayRepeat(app) { NeverWorseWithRepeats(app, order); }
    if WellFormed(app) {
      forall p | EqualAlongCostlyEdges(app) && IsPartition(app, p)
        ensures r.metrics.totalCostUSD <= TotalCostUSD(app, p)
      {
        GloballyOptimal(app, order, p);
      }
    }
  }

  /** Never worse than doing nothing, on either axis, for every well-formed application. */
  lemma NeverWorseThanNoFusion(app: Application, order: seq<Candidate>)
    requires WellFormed(app)
    ensures NoWorseThanAlone(app, MergeAll(app, Singles(app.functions), order))
  {
    hide TotalCostUSD, Latency, MergeAll, AcceptedCount, Family, Together;
    var none := Singles(app.functions);
    SinglesPartition(app);
    MergeAllConserves(app, none, order);
    CoarserIsFaster(app, none, MergeAll(app, none, order));
    if MemoryFits(app, none) { MergeAllFits(app, none, order); }
  }

  /** Nor for any that lists calls more than once. */
  lemma NeverWorseWithRepeats(app: Application, order: seq<Candidate>)
    requires CallsMayRepeat(app)
    ensures NoWorseThanAlone(app, MergeAll(app, Singles(app.functions), order))
  {
    hide NoWorseThanAlone, WellFormed, MergeAll, NodesOnce;
    PassOnce(app, Singles(app.functions), order);
    NeverWorseThanNoFusion(Once(app), order);
    NoWorseWithRepeats(app, MergeAll(app, Singles(app.functions), order));
  }

  // ---- what a merge is worth ----

  /** The rate of `f` if its caller is in `other`. */
  ghost function AbsorbedRate(s: Store, other: set<Id>): Id -> real {
    (f: Id) => var p := At(s, f).parent; if p.Some? && p.value in other then Rate(s, f) else 0.0
  }

  lemma RateAbsorbed(s: Store, a: set<Id>, b: set<Id>, f: Id)
    requires a !! b
    ensures f in a ==> EntryRate(s, a)(f) == EntryRate(s, a + b)(f) + AbsorbedRate(s, b)(f)
  { }

  lemma RequestsSaved(s: Store, a: set<Id>, b: set<Id>)
    requires a !! b
    ensures BlockRequests(s, a) + BlockRequests(s, b) - BlockRequests(s, a + b)
            == RequestCharge(Sum(a, AbsorbedRate(s, b)) + Sum(b, AbsorbedRate(s, a)))
  {
    hide Sum, EntryRate, AbsorbedRate;
    var ab := EntryRate(s, a + b);
    assert b + a == a + b;
    forall f | f in a ensures EntryRate(s, a)(f) == ab(f) + AbsorbedRate(s, b)(f) { RateAbsorbed(s, a, b, f); }
    forall f | f in b ensures EntryRate(s, b)(f) == ab(f) + AbsorbedRate(s, a)(f) { RateAbsorbed(s, b, a, f); }
    SumAdd(a, ab, AbsorbedRate(s, b), EntryRate(s, a));
    SumAdd(b, ab, AbsorbedRate(s, a), EntryRate(s, b));
    SumUnion(a, b, ab);
  }

  lemma ShareMonotone(s: Store, b: set<Id>, m1: nat, m2: nat)
    requires m1 <= m2
    ensures Sum(b, ExecutionShare(s, m1)) <= Sum(b, ExecutionShare(s, m2))
  {
    forall f ensures ExecutionShare(s, m1)(f) <= ExecutionShare(s, m2)(f) {
      ExecutionCostMonotone(m1, m2, At(s, f).runtimeMs);
    }
    SumLe(b, ExecutionShare(s, m1), ExecutionShare(s, m2));
  }

  lemma MaxMemoryUnion(s: Store, a: set<Id>, b: set<Id>)
    ensures MaxMemory(s, a + b) == Max(MaxMemory(s, a), MaxMemory(s, b))
  {
    MaxMemoryMonotone(s, a, a + b);
    MaxMemoryMonotone(s, b, a + b);
  }

  /** Re-tiering never saves: the union costs at least what its parts did, and exactly that when
      every member already runs at the same memory. */
  lemma ExecutionAdded(s: Store, a: set<Id>, b: set<Id>)
    requires a !! b
    ensures BlockExecution(s, a + b) >= BlockExecution(s, a) + BlockExecution(s, b)
    ensures MaxMemory(s, a) == MaxMemory(s, b) ==>
      BlockExecution(s, a + b) == BlockExecution(s, a) + BlockExecution(s, b)
  {
    hide Sum, ExecutionShare, MaxMemory;
    var m := MaxMemory(s, a + b);
    MaxMemoryUnion(s, a, b);
    ShareMonotone(s, a, MaxMemory(s, a), m);
    ShareMonotone(s, b, MaxMemory(s, b), m);
    SumUnion(a, b, ExecutionShare(s, m));
  }

  /** An edge whose cutting shows up on the bill: its callee pays a request, or it carries priced bytes. */
  ghost predicate Costly(s: Store, u: Id, v: Id) {
    At(s, v).parent == Some(u) || DataTransferCostUSD(s, u, v) > 0.0
  }

  ghost predicate CostlyBetween(s: Store, a: set<Id>, b: set<Id>) {
    exists u, v :: u in a && v in b && (Costly(s, u, v) || Costly(s, v, u))
  }

  lemma SumAtLeast(s: set<Id>, h: Id -> real, x: Id)
    requires x in s && forall y :: y in s ==> h(y) >= 0.0
    ensures Sum(s, h) >= h(x)
  {
    SumRemove(s, h, x);
    SumNonNegative(s - {x}, h);
  }

  lemma TransferSign(app: Application, a: set<Id>, b: set<Id>)
    requires WellFormed(app) && a + b <= Elems(app.functions)
    ensures Sum2(a, b, Transfer(app.nodes)) >= 0.0
    ensures forall u, v ::
      u in a && v in b && DataTransferCostUSD(app.nodes, u, v) > 0.0 ==> Sum2(a, b, Transfer(app.nodes)) > 0.0
    ensures (forall u, v :: u in a && v in b ==> !Costly(app.nodes, u, v)) ==> Sum2(a, b, Transfer(app.nodes)) == 0.0
  {
    var s := app.nodes;
    var t := Transfer(s);
    forall u, v | u in a ensures Fix(t, u)(v) >= 0.0 { TransferNonNegative(app, u, v); }
    forall u | u in a ensures Row(b, t)(u) >= 0.0 { SumNonNegative(b, Fix(t, u)); }
    SumNonNegative(a, Row(b, t));
    forall u, v | u in a && v in b && DataTransferCostUSD(s, u, v) > 0.0 ensures Sum2(a, b, t) > 0.0 {
      SumAtLeast(b, Fix(t, u), v);
      SumAtLeast(a, Row(b, t), u);
    }
    if forall u, v :: u in a && v in b ==> !Costly(s, u, v) {
      forall u | u in a ensures Row(b, t)(u) == 0.0 {
        forall v | v in b ensures Fix(t, u)(v) == 0.0 { assert !Costly(s, u, v); }
        SumZero(b, Fix(t, u));
      }
      SumZero(a, Row(b, t));
    }
  }

  lemma AbsorbedSign(app: Application, a: set<Id>, b: set<Id>)
    requires WellFormed(app) && a + b <= Elems(app.functions)
    ensures Sum(a, AbsorbedRate(app.nodes, b)) >= 0.0
    ensures forall u, v ::
      u in b && v in a && At(app.nodes, v).parent == Some(u) ==> Sum(a, AbsorbedRate(app.nodes, b)) > 0.0
    ensures (forall u, v :: u in b && v in a ==> !Costly(app.nodes, u, v)) ==> Sum(a, AbsorbedRate(app.nodes, b)) == 0.0
  {
    var s := app.nodes;
    var h := AbsorbedRate(s, b);
    forall v | v in a ensures h(v) >= 0.0 { RatePositive(app, v); }
    SumNonNegative(a, h);
    forall u, v | u in b && v in a && At(s, v).parent == Some(u) ensures Sum(a, h) > 0.0 {
      RatePositive(app, v);
      SumAtLeast(a, h, v);
    }
    if forall u, v :: u in b && v in a ==> !Costly(s, u, v) {
      forall v | v in a ensures h(v) == 0.0 {
        var p := At(s, v).parent;
        if p.Some? && p.value in b { assert Costly(s, p.value, v); }
      }
      SumZero(a, h);
    }
  }

  lemma RequestChargeSign(x: real)
    ensures x == 0.0 ==> RequestCharge(x) == 0.0
    ensures x > 0.0 ==> RequestCharge(x) > 0.0
  { }

  /** What a merge can gain: bytes both ways and requests absorbed both ways. */
  ghost function Gained(s: Store, a: set<Id>, b: set<Id>): real {
    Sum2(a, b, Transfer(s)) + Sum2(b, a, Transfer(s))
    + RequestCharge(Sum(a, AbsorbedRate(s, b)) + Sum(b, AbsorbedRate(s, a)))
  }

  lemma ProfitTerms(s: Store, a: Group, b: Group)
    requires Distinct(a) && Distinct(b) && Elems(a) !! Elems(b)
    ensures MergeProfitUSD(s, a, b) <= Gained(s, Elems(a), Elems(b))
    ensures MaxMemory(s, Elems(a)) == MaxMemory(s, Elems(b)) ==>
      MergeProfitUSD(s, a, b) == Gained(s, Elems(a), Elems(b))
  {
    hide MergeProfitUSD, BlockExecution, BlockRequests, MaxMemory, RequestCharge, Sum;
    MergeProfitBySets(s, a, b);
    RequestsSaved(s, Elems(a), Elems(b));
    ExecutionAdded(s, Elems(a), Elems(b));
  }

  lemma GainedForward(app: Application, a: set<Id>, b: set<Id>, u: Id, v: Id)
    requires WellFormed(app) && a + b <= Elems(app.functions)
    requires u in a && v in b && Costly(app.nodes, u, v)
    ensures Gained(app.nodes, a, b) > 0.0 && Gained(app.nodes, b, a) > 0.0
  {
    hide Sum, Sum2, AbsorbedRate, DataTransferCostUSD, WellFormed;
    TransferSign(app, a, b);
    TransferSign(app, b, a);
    AbsorbedSign(app, a, b);
    AbsorbedSign(app, b, a);
  }

  lemma GainedFromEdge(app: Application, a: set<Id>, b: set<Id>, u: Id, v: Id)
    requires WellFormed(app) && a + b <= Elems(app.functions)
    requires u in a && v in b && (Costly(app.nodes, u, v) || Costly(app.nodes, v, u))
    ensures Gained(app.nodes, a, b) > 0.0
  {
    hide Gained, WellFormed, Costly;
    assert b + a == a + b;
    if Costly(app.nodes, u, v) {
      GainedForward(app, a, b, u, v);
    } else {
      GainedForward(app, b, a, v, u);
    }
  }

  lemma NothingGained(app: Application, a: set<Id>, b: set<Id>)
    requires WellFormed(app) && a + b <= Elems(app.functions)
    requires !CostlyBetween(app.nodes, a, b)
    ensures Gained(app.nodes, a, b) == 0.0
  {
    hide Sum, Sum2, RequestCharge, AbsorbedRate, Costly;
    var s := app.nodes;
    assert forall u, v :: u in a && v in b ==> !Costly(s, u, v) && !Costly(s, v, u);
    TransferSign(app, a, b);
    TransferSign(app, b, a);
    AbsorbedSign(app, a, b);
    AbsorbedSign(app, b, a);
    RequestChargeSign(0.0);
  }

  lemma GainedSign(app: Application, a: set<Id>, b: set<Id>)
    requires WellFormed(app) && a + b <= Elems(app.functions)
    ensures Gained(app.nodes, a, b) > 0.0 <==> CostlyBetween(app.nodes, a, b)
  {
    if CostlyBetween(app.nodes, a, b) {
      var u, v :| u in a && v in b && (Costly(app.nodes, u, v) || Costly(app.nodes, v, u));
      GainedFromEdge(app, a, b, u, v);
    } else {
      NothingGained(app, a, b);
    }
  }

  /** When a merge pays: only if some edge between the groups costs something, and always in that
      case when both groups run at the same memory. */
  lemma WhenMergePays(app: Application, a: Group, b: Group)
    requires WellFormed(app) && Distinct(a) && Distinct(b) && Elems(a) !! Elems(b)
    requires Elems(a) + Elems(b) <= Elems(app.functions)
    ensures MergeProfitUSD(app.nodes, a, b) > 0.0 ==> CostlyBetween(app.nodes, Elems(a), Elems(b))
    ensures CostlyBetween(app.nodes, Elems(a), Elems(b)) ==>
      MaxMemory(app.nodes, Elems(a)) == MaxMemory(app.nodes, Elems(b)) ==> MergeProfitUSD(app.nodes, a, b) > 0.0
  {
    hide MergeProfitUSD, Gained, CostlyBetween, MaxMemory;
    ProfitTerms(app.nodes, a, b);
    GainedSign(app, Elems(a), Elems(b));
  }

  // ---- optimality where costly edges join equals ----

  /** Every edge that costs anything joins two functions of one size, which fits the cap. */
  ghost predicate EqualAlongCostlyEdges(app: Application) {
    forall u, v :: u in app.functions && v in At(app.nodes, u).children && Costly(app.nodes, u, v) ==>
      At(app.nodes, u).memoryMB == At(app.nodes, v).memoryMB <= app.maxMemoryMB
  }

  ghost predicate UniformGroups(s: Store, groups: seq<Group>) {
    forall g, u, v :: g in groups && u in g && v in g ==> At(s, u).memoryMB == At(s, v).memoryMB
  }

  lemma CostlyIsEdge(app: Application, u: Id, v: Id)
    requires WellFormed(app) && u in app.functions && v in app.functions && Costly(app.nodes, u, v)
    ensures v in At(app.nodes, u).children
  {
    assert WellFormedNode(app, v);
    if v !in At(app.nodes, u).children { NoEdgeNoTransfer(app, u, v); }
  }

  lemma UniformMemory(s: Store, g: Group, u: Id)
    requires u in g && forall v :: v in g ==> At(s, v).memoryMB == At(s, u).memoryMB
    ensures GroupMemory(s, g) == MaxMemory(s, Elems(g)) == At(s, u).memoryMB
  {
    GroupMemoryIsMaxMemory(s, g);
    assert u in Elems(g);
  }

  /** Two uniform groups joined by a costly edge have one size and merging them pays and fits. */
  lemma CostlyPairMerges(app: Application, gs: seq<Group>, i: nat, j: nat)
    requires WellFormed(app) && EqualAlongCostlyEdges(app)
    requires Family(gs) && Members(gs) <= Elems(app.functions) && UniformGroups(app.nodes, gs)
    requires i < |gs| && j < |gs| && i != j
    requires CostlyBetween(app.nodes, Elems(gs[i]), Elems(gs[j]))
    ensures forall u, v :: u in gs[i] && v in gs[j] ==> At(app.nodes, u).memoryMB == At(app.nodes, v).memoryMB
    ensures GroupMemory(app.nodes, gs[i]) == GroupMemory(app.nodes, gs[j]) <= app.maxMemoryMB
    ensures MergeProfitUSD(app.nodes, gs[i], gs[j]) > 0.0
  {
    var s := app.nodes;
    var u, v :| u in gs[i] && v in gs[j] && (Costly(s, u, v) || Costly(s, v, u));
    FamilyGroupsDisjoint(gs, i, j);
    FamilyGroupDistinct(gs, i);
    FamilyGroupDistinct(gs, j);
    assert u in Members(gs) && v in Members(gs);
    if Costly(s, u, v) { CostlyIsEdge(app, u, v); } else { CostlyIsEdge(app, v, u); }
    assert gs[i] in gs && gs[j] in gs;
    UniformMemory(s, gs[i], u);
    UniformMemory(s, gs[j], v);
    WhenMergePays(app, gs[i], gs[j]);
  }

  lemma UniformMerge(s: Store, gs: seq<Group>, i: nat, j: nat)
    requires UniformGroups(s, gs) && i < |gs| && j < |gs|
    requires forall u, v :: u in gs[i] && v in gs[j] ==> At(s, u).memoryMB == At(s, v).memoryMB
    ensures UniformGroups(s, Merged(gs, i, j))
  {
    forall g, u, v | g in Merged(gs, i, j) && u in g && v in g ensures At(s, u).memoryMB == At(s, v).memoryMB {
      assert gs[i] in gs && gs[j] in gs;
      if g != gs[i] + gs[j] { assert g in gs; }
    }
  }

  /** One candidate: uniformity survives, and if its edge costs anything its ends end up together. */
  lemma StepAbsorbs(app: Application, gs: seq<Group>, c: Candidate)
    requires WellFormed(app) && EqualAlongCostlyEdges(app)
    requires Family(gs) && Members(gs) == Elems(app.functions) && UniformGroups(app.nodes, gs)
    requires IsCandidate(app, c)
    ensures UniformGroups(app.nodes, MergeStep(app, gs, c))
    ensures Costly(app.nodes, c.parent, c.child) ==> Together(MergeStep(app, gs, c), c.parent, c.child)
  {
    var s := app.nodes;
    assert WellFormedNode(app, c.parent);
    assert c.parent in Members(gs) && c.child in Members(gs);
    var p, q := Owner(gs, c.parent), Owner(gs, c.child);
    if p != q {
      var i, j := p.value, q.value;
      MergedConserves(gs, i, j);
      if Costly(s, c.parent, c.child) {
        assert c.parent in Elems(gs[i]) && c.child in Elems(gs[j]);
        CostlyPairMerges(app, gs, i, j);
        UniformMerge(s, gs, i, j);
      } else if Accepts(app, gs, c) {
        FamilyGroupsDisjoint(gs, i, j);
        FamilyGroupDistinct(gs, i);
        FamilyGroupDistinct(gs, j);
        WhenMergePays(app, gs[i], gs[j]);
        CostlyPairMerges(app, gs, i, j);
        UniformMerge(s, gs, i, j);
      }
    }
  }

  /** From any partition into groups of one size each, and whatever the order, the pass leaves no
      costly edge cut. */
  lemma {:induction false} PassAbsorbsCostly(app: Application, start: seq<Group>, cs: seq<Candidate>)
    requires WellFormed(app) && EqualAlongCostlyEdges(app)
    requires IsPartition(app, start) && UniformGroups(app.nodes, start)
    requires forall c :: c in cs ==> IsCandidate(app, c)
    ensures var gs := MergeAll(app, start, cs);
      && IsPartition(app, gs)
      && UniformGroups(app.nodes, gs)
      && forall c :: c in cs && Costly(app.nodes, c.parent, c.child) ==> Together(gs, c.parent, c.child)
  {
    MergeAllConserves(app, start, cs);
    if cs != [] {
      var init, c := cs[..|cs| - 1], cs[|cs| - 1];
      PassAbsorbsCostly(app, start, init);
      var gs := MergeAll(app, start, init);
      StepAbsorbs(app, gs, c);
      if Accepts(app, gs, c) {
        MergedConserves(gs, Owner(gs, c.parent).value, Owner(gs, c.child).value);
      }
    }
  }

  lemma SinglesAreUniform(app: Application)
    requires Distinct(app.functions)
    ensures IsPartition(app, Singles(app.functions)) && UniformGroups(app.nodes, Singles(app.functions))
  {
    SinglesPartition(app);
  }

  /** What `f` cannot avoid paying: its own execution, and a request if nothing in the graph calls it. */
  ghost function Unavoidable(s: Store): Id -> real {
    (f: Id) => ExecutedAt(s, {f}, f) + RequestCharge(if At(s, f).parent.None? then Rate(s, f) else 0.0)
  }

  lemma OwnMemoryLeast(s: Store, b: set<Id>, f: Id)
    requires f in b
    ensures ExecutedAt(s, b, f) >= ExecutedAt(s, {f}, f)
    ensures MaxMemory(s, b) == At(s, f).memoryMB ==> ExecutedAt(s, b, f) == ExecutedAt(s, {f}, f)
  {
    assert f in {f};
    ExecutionCostMonotone(MaxMemory(s, {f}), MaxMemory(s, b), At(s, f).runtimeMs);
  }

  lemma BillAtLeastUnavoidable(app: Application, p: seq<Group>, f: Id)
    requires WellFormed(app) && IsPartition(app, p) && f in app.functions
    ensures BillIn(app.nodes, p)(f) >= Unavoidable(app.nodes)(f)
  {
    var s, b := app.nodes, Block(p, f);
    assert f in Members(p);
    OwnMemoryLeast(s, b, f);
    RatePositive(app, f);
    RequestChargeSign(Rate(s, f));
    RequestChargeSign(0.0);
    forall c ensures Fix(Transfer(s), f)(c) >= 0.0 { TransferNonNegative(app, f, c); }
    SumNonNegative(Members(p) - b, Fix(Transfer(s), f));
    hide Sum, ExecutedAt, RequestCharge;
    assert BillIn(s, p)(f) == FunctionBill(s, Members(p), b, f);
  }

  /** No partition is cheaper than the unavoidable charges. */
  lemma CostLowerBound(app: Application, p: seq<Group>)
    requires WellFormed(app) && IsPartition(app, p)
    ensures TotalCostUSD(app, p) >= Sum(Elems(app.functions), Unavoidable(app.nodes))
  {
    CostIsSumOfBills(app, p);
    forall f | f in Elems(app.functions) ensures BillIn(app.nodes, p)(f) >= Unavoidable(app.nodes)(f) {
      BillAtLeastUnavoidable(app, p, f);
    }
    SumLe(Elems(app.functions), Unavoidable(app.nodes), BillIn(app.nodes, p));
  }

  lemma NothingCrosses(app: Application, gs: seq<Group>, f: Id)
    requires WellFormed(app) && IsPartition(app, gs) && f in app.functions
    requires forall v :: v in At(app.nodes, f).children && Costly(app.nodes, f, v) ==> Together(gs, f, v)
    ensures Sum(Members(gs) - Block(gs, f), Fix(Transfer(app.nodes), f)) == 0.0
  {
    var s, b := app.nodes, Block(gs, f);
    forall c | c in Members(gs) - b ensures Fix(Transfer(s), f)(c) == 0.0 {
      BlockIsTogether(gs, f, c);
      TransferNonNegative(app, f, c);
      if Costly(s, f, c) { CostlyIsEdge(app, f, c); }
    }
    SumZero(Members(gs) - b, Fix(Transfer(s), f));
  }

  lemma BillAttained(app: Application, gs: seq<Group>, f: Id)
    requires WellFormed(app) && IsPartition(app, gs) && UniformGroups(app.nodes, gs) && f in app.functions
    requires forall u, v ::
      u in app.functions && v in At(app.nodes, u).children && Costly(app.nodes, u, v) ==> Together(gs, u, v)
    ensures BillIn(app.nodes, gs)(f) == Unavoidable(app.nodes)(f)
  {
    hide Sum, ExecutedAt, RequestCharge, UniformGroups;
    var s, b := app.nodes, Block(gs, f);
    UniformBlock(app, gs, f);
    OwnMemoryLeast(s, b, f);
    var parent := At(s, f).parent;
    if parent.Some? {
      assert WellFormedNode(app, f);
      assert Costly(s, parent.value, f);
      BlockIsTogether(gs, f, parent.value);
    }
    NothingCrosses(app, gs, f);
    assert BillIn(s, gs)(f) == FunctionBill(s, Members(gs), b, f);
  }

  lemma UniformBlock(app: Application, gs: seq<Group>, f: Id)
    requires IsPartition(app, gs) && UniformGroups(app.nodes, gs) && f in app.functions
    ensures f in Block(gs, f) && MaxMemory(app.nodes, Block(gs, f)) == At(app.nodes, f).memoryMB
  {
    assert f in Members(gs);
    var g := gs[Owner(gs, f).value];
    assert g in gs && f in g;
    UniformMemory(app.nodes, g, f);
  }

  /** The pass ends with no costly edge cut, so every function pays only what it must. */
  lemma PassAttainsBound(app: Application, start: seq<Group>, order: seq<Candidate>)
    requires WellFormed(app) && EqualAlongCostlyEdges(app) && IsMergeOrder(app, order)
    requires IsPartition(app, start) && UniformGroups(app.nodes, start)
    ensures IsPartition(app, MergeAll(app, start, order))
    ensures TotalCostUSD(app, MergeAll(app, start, order)) == Sum(Elems(app.functions), Unavoidable(app.nodes))
  {
    hide TotalCostUSD, MergeAll, Unavoidable, BillIn, UniformGroups, Sum;
    var gs, s := MergeAll(app, start, order), app.nodes;
    PassAbsorbsCostly(app, start, order);
    forall u, v | u in app.functions && v in At(s, u).children && Costly(s, u, v) ensures Together(gs, u, v) {
      var c := Candidate(DataTransferCostUSD(s, u, v), u, v);
      assert IsCandidate(app, c);
    }
    CostIsSumOfBills(app, gs);
    forall f | f in Elems(app.functions) ensures BillIn(s, gs)(f) == Unavoidable(s)(f) {
      BillAttained(app, gs, f);
    }
    SumCong(Elems(app.functions), BillIn(s, gs), Unavoidable(s));
  }

  /** Where every edge that costs anything joins equally sized functions within the cap — in
      particular when all functions have one size — one pass is globally optimal, whatever the
      candidate order: no partition at all costs less. */
  lemma GloballyOptimal(app: Application, order: seq<Candidate>, p: seq<Group>)
    requires WellFormed(app) && EqualAlongCostlyEdges(app)
    requires IsMergeOrder(app, order)
    requires IsPartition(app, p)
    ensures TotalCostUSD(app, MergeAll(app, Singles(app.functions), order)) <= TotalCostUSD(app, p)
  {
    hide TotalCostUSD, Sum, IsPartition, WellFormed, MergeAll, UniformGroups;
    FunctionsDistinct(app);
    SinglesAreUniform(app);
    PassAttainsBound(app, Singles(app.functions), order);
    CostLowerBound(app, p);
  }

  /** What `f` pays only because it is deployed apart: its request if something else calls it, and
      the transfer it sends to others. */
  ghost function Avoidable(app: Application): Id -> real {
    (f: Id) =>
      var parent := At(app.nodes, f).parent;
      RequestCharge(if parent.Some? && parent.value != f then Rate(app.nodes, f) else 0.0)
      + Sum(Elems(app.functions) - {f}, Fix(Transfer(app.nodes), f))
  }

  lemma AloneBillSplits(app: Application, f: Id)
    requires WellFormed(app) && f in app.functions
    ensures BillIn(app.nodes, Singles(app.functions))(f) == Avoidable(app)(f) + Unavoidable(app.nodes)(f)
  {
    hide Sum, ExecutedAt;
    SinglesPartition(app);
  }

  /** And the saving over doing nothing is exactly every avoidable charge there is. */
  lemma SavingIsEverythingAvoidable(app: Application, order: seq<Candidate>)
    requires WellFormed(app) && EqualAlongCostlyEdges(app) && IsMergeOrder(app, order)
    ensures TotalCostUSD(app, Singles(app.functions)) - TotalCostUSD(app, MergeAll(app, Singles(app.functions), order))
            == Sum(Elems(app.functions), Avoidable(app))
  {
    hide TotalCostUSD, Sum, MergeAll, BillIn, Avoidable, Unavoidable, WellFormed, Family, UniformGroups;
    var none, F := Singles(app.functions), Elems(app.functions);
    FunctionsDistinct(app);
    SinglesPartition(app);
    CostIsSumOfBills(app, none);
    SinglesAreUniform(app);
    PassAttainsBound(app, none, order);
    forall f | f in F ensures BillIn(app.nodes, none)(f) == Avoidable(app)(f) + Unavoidable(app.nodes)(f) {
      AloneBillSplits(app, f);
    }
    SumAdd(F, Avoidable(app), Unavoidable(app.nodes), BillIn(app.nodes, none));
  }
}
