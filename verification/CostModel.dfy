/** The cost model read off the fields of the nodes: what a partition costs and how long its critical
    path takes, with nothing in between. */
module CostModel {
  import opened Sums
  import opened Domain
  import opened Billing
  import opened Coarsening

  // ---- the bill ----

  /** Bytes from `f` to each other function, at the caller's price per GiB. */
  ghost function PricedBytes(s: Store, f: Id): Id -> real {
    (c: Id) =>
      (if c in At(s, f).dataOutBytes then At(s, f).dataOutBytes[c] else 0) as real / 1073741824.0
      * At(s, f).transferUSDPerGiB
  }

  /** What one function costs: $0.00001667 per GB-second at its block's largest memory, $0.20 per million
      calls from outside its block, and the bytes it sends out of its block. */
  ghost function FieldBill(app: Application, p: seq<Group>): Id -> real {
    (f: Id) =>
      var n := At(app.nodes, f);
      0.00001667 * ((MaxMemory(app.nodes, Block(p, f)) as real / 1024.0) * (n.runtimeMs as real / 1000.0))
      + 0.0000002 * (
          if n.parent.Some? && n.parent.value in Block(p, f) then 0.0
          else if n.invocationRate == 0.0 then 1.0
          else n.invocationRate)
      + Sum(Elems(app.functions) - Block(p, f), PricedBytes(app.nodes, f))
  }

  lemma TransferOnFields(s: Store, f: Id, c: Id)
    ensures DataTransferCostUSD(s, f, c) == PricedBytes(s, f)(c)
  { }

  lemma OneBillOnFields(app: Application, p: seq<Group>, f: Id)
    requires IsPartition(app, p)
    ensures BillIn(app.nodes, p)(f) == FieldBill(app, p)(f)
  {
    hide Sum, MaxMemory, Block, DataTransferCostUSD;
    var s, outside := app.nodes, Elems(app.functions) - Block(p, f);
    forall c ensures Fix(Transfer(s), f)(c) == PricedBytes(s, f)(c) { TransferOnFields(s, f, c); }
    SumCong(outside, Fix(Transfer(s), f), PricedBytes(s, f));
  }

  /** The whole bill of any partition, field by field. */
  lemma BillOnFields(app: Application, p: seq<Group>)
    requires WellFormed(app) && IsPartition(app, p)
    ensures TotalCostUSD(app, p) == Sum(Elems(app.functions), FieldBill(app, p))
  {
    hide Sum, SeqSum, TotalCostUSD, BillIn, FieldBill, WellFormed, Family;
    CostIsSumOfBills(app, p);
    forall f | f in Elems(app.functions) ensures BillIn(app.nodes, p)(f) == FieldBill(app, p)(f) {
      OneBillOnFields(app, p, f);
    }
    SumCong(Elems(app.functions), BillIn(app.nodes, p), FieldBill(app, p));
  }

  // ---- invocations ----

  ghost function RateField(s: Store): Id -> real {
    (f: Id) => At(s, f).invocationRate
  }

  /** The functions whose caller, if any, is not in their block. */
  ghost function Entered(app: Application, p: seq<Group>): set<Id> {
    set f | f in app.functions && (At(app.nodes, f).parent.Some? ==> At(app.nodes, f).parent.value !in Block(p, f))
  }

  /** Where rates are positive, a partition is invoked as often as the functions called from outside their
      block are. */
  lemma InvocationsOnFields(app: Application, p: seq<Group>)
    requires IsPartition(app, p)
    requires forall f :: f in app.functions ==> At(app.nodes, f).invocationRate > 0.0
    ensures SeqSum(p, Invocations(app.nodes)) == Sum(Entered(app, p), RateField(app.nodes))
  {
    hide Sum, SeqSum, Family, Block;
    var s, F, h := app.nodes, Elems(app.functions), InvokedIn(app.nodes, p);
    TotalsPerFunction(s, p);
    SumRestrict(F, Entered(app, p), h);
    SumCong(Entered(app, p), h, RateField(s));
  }

  /** And NoFusion as often as all functions together, unless one calls itself. */
  lemma UnfusedInvocations(app: Application)
    requires Distinct(app.functions)
    requires forall f :: f in app.functions ==> At(app.nodes, f).invocationRate > 0.0
    requires forall f :: f in app.functions ==> At(app.nodes, f).parent != Some(f)
    ensures SeqSum(Singles(app.functions), Invocations(app.nodes)) == Sum(Elems(app.functions), RateField(app.nodes))
  {
    hide Sum, SeqSum, Family, Block;
    SinglesPartition(app);
    InvocationsOnFields(app, Singles(app.functions));
    assert Entered(app, Singles(app.functions)) == Elems(app.functions);
  }

  /** A rate of 0 stands for no count at all, and counts as 1. */
  lemma NoRateCountsAsOne(s: Store, f: Id, inGroup: set<Id>, g: Id)
    requires f in s && s[f].invocationRate == 0.0
    ensures EntryRateAt(s, inGroup, g) == EntryRateAt(s[f := s[f].(invocationRate := 1.0)], inGroup, g)
  { }

  // ---- latency and feasibility ----

  /** The positions at which a path leaves a block. */
  ghost function Boundaries(p: seq<Group>, path: seq<Id>): set<nat> {
    set i: nat | i < |path| - 1 && path[i + 1] !in Block(p, path[i])
  }

  lemma BoundariesSnoc(p: seq<Group>, path: seq<Id>)
    requires |path| >= 2
    ensures |Boundaries(p, path)| == |Boundaries(p, path[..|path| - 1])|
      + if path[|path| - 1] in Block(p, path[|path| - 2]) then 0 else 1
  {
    hide Block;
    var init, k: nat := path[..|path| - 1], |path| - 2;
    forall i: nat ensures i < k ==> (i in Boundaries(p, path) <==> i in Boundaries(p, init)) { }
    if path[k + 1] in Block(p, path[k]) {
      assert Boundaries(p, path) == Boundaries(p, init);
    } else {
      assert Boundaries(p, path) == Boundaries(p, init) + {k};
    }
  }

  lemma {:induction false} CutsOnFields(p: seq<Group>, path: seq<Id>)
    requires Family(p) && forall f :: f in path ==> f in Members(p)
    ensures PathCuts(p, path) == |Boundaries(p, path)|
  {
    hide Block, IsCut, Family, Members;
    if |path| >= 2 {
      CutsOnFields(p, path[..|path| - 1]);
      BoundariesSnoc(p, path);
      CutMeaning(p, path[|path| - 2], path[|path| - 1]);
    } else {
      assert Boundaries(p, path) == {};
    }
  }

  lemma {:induction false} RuntimeOnFields(s: Store, path: seq<Id>)
    ensures GroupRuntimeMs(s, path) as real == SeqSum(path, RuntimeOf(s))
  {
    if path != [] { RuntimeOnFields(s, path[..|path| - 1]); }
  }

  /** The path takes its functions' runtimes and one hop for every step between two blocks. */
  lemma LatencyOnFields(app: Application, p: seq<Group>)
    requires IsPartition(app, p)
    ensures Latency(app, p) as real
      == SeqSum(CriticalPath(app), RuntimeOf(app.nodes))
         + (|Boundaries(p, CriticalPath(app))| * app.networkHopMS) as real
  {
    hide GroupRuntimeMs, PathCuts, Family, SeqSum, Boundaries, Known;
    var path := CriticalPath(app);
    assert forall f :: f in path ==> f in Elems(app.functions);
    CutsOnFields(p, path);
    RuntimeOnFields(app.nodes, path);
  }

  /** A partition without empty groups is feasible exactly when every function fits and the path, if there
      is one, takes no longer than the cap. */
  lemma FeasibleOnFields(app: Application, p: seq<Group>)
    requires IsPartition(app, p) && [] !in p
    ensures Feasible(app, p) <==>
      && (forall f :: f in app.functions ==> At(app.nodes, f).memoryMB <= app.maxMemoryMB)
      && (CriticalPath(app) == [] ||
          SeqSum(CriticalPath(app), RuntimeOf(app.nodes))
          + (|Boundaries(p, CriticalPath(app))| * app.networkHopMS) as real <= app.maxLatencyMS as real)
  {
    hide Latency, Family, SeqSum, Boundaries, GroupMemory, Known;
    MemoryFitsIsPartitionFree(app, p);
    LatencyOnFields(app, p);
  }

  // ---- what the path, the root and the index map are ----

  /** The critical path keeps the ids of functions where they stand, as often as they stand there, and
      drops the others. */
  lemma {:induction false} KnownParts(functions: seq<Id>, a: seq<Id>, b: seq<Id>)
    ensures Known(functions, a + b) == Known(functions, a) + Known(functions, b)
    decreases |b|
  {
    if b == [] {
      assert a + b == a;
    } else {
      KnownParts(functions, a, b[..|b| - 1]);
      assert (a + b)[..|a + b| - 1] == a + b[..|b| - 1];
    }
  }

  lemma {:induction false} KnownWhenAllAre(functions: seq<Id>, ids: seq<Id>)
    requires forall f :: f in ids ==> f in functions
    ensures Known(functions, ids) == ids
  {
    if ids != [] { KnownWhenAllAre(functions, ids[..|ids| - 1]); }
  }

  lemma {:induction false} UnknownAreDropped(functions: seq<Id>, ids: seq<Id>)
    requires forall f :: f in ids ==> f !in functions
    ensures Known(functions, ids) == []
  {
    if ids != [] { UnknownAreDropped(functions, ids[..|ids| - 1]); }
  }

  /** The root is the first function nothing calls. */
  lemma {:induction false} RootIsFirst(s: Store, functions: seq<Id>)
    ensures FirstParentless(s, functions).None? <==> forall f :: f in functions ==> At(s, f).parent.Some?
    ensures FirstParentless(s, functions).Some? ==>
      exists i :: 0 <= i < |functions| && functions[i] == FirstParentless(s, functions).value
        && At(s, functions[i]).parent.None? && forall j :: 0 <= j < i ==> At(s, functions[j]).parent.Some?
  {
    if functions != [] {
      var init, last := functions[..|functions| - 1], functions[|functions| - 1];
      RootIsFirst(s, init);
      assert functions == init + [last];
    }
  }

  /** Where groups overlap the last one owns the function. */
  lemma {:induction false} OwnerIsLast(groups: seq<Group>, f: Id)
    ensures Owner(groups, f).Some? ==> forall j :: Owner(groups, f).value < j < |groups| ==> f !in groups[j]
  {
    if groups != [] && f !in groups[|groups| - 1] { OwnerIsLast(groups[..|groups| - 1], f); }
  }
}
