/** Partitions as points, and why a least-objective point is the cheapest feasible partition. */
module IlpOptimal {
  import opened Sums
  import opened Domain
  import opened Billing
  import opened Coarsening
  import opened TradeoffReport
  import opened LinearExpr
  import opened IlpModel
  import opened IlpCharges
  import opened IlpExact

  // ---- from a partition to a point ----

  /** The index of the first member of `f`'s group, which stands for the group. */
  ghost function Rep(app: Application, p: seq<Group>, f: nat): nat
    requires f < |app.functions|
  {
    var o := Owner(p, app.functions[f]);
    if o.Some? then LastIndex(app.functions, GroupID(p[o.value])) else 0
  }

  lemma RepMeaning(app: Application, p: seq<Group>, f: nat)
    requires Distinct(app.functions) && IsPartition(app, p) && f < |app.functions|
    ensures Rep(app, p, f) < |app.functions|
    ensures app.functions[Rep(app, p, f)] in Block(p, app.functions[f])
    ensures app.functions[f] in Block(p, app.functions[f])
  {
    var x := app.functions[f];
    assert x in Members(p);
    var i := Owner(p, x).value;
    assert p[i][0] in p[i] && p[i][0] in Members(p);
    IndexOfMember(app.functions, p[i][0]);
  }

  lemma SameRep(app: Application, p: seq<Group>, f: nat, g: nat)
    requires Distinct(app.functions) && IsPartition(app, p) && f < |app.functions| && g < |app.functions|
    ensures Rep(app, p, f) == Rep(app, p, g) <==> app.functions[g] in Block(p, app.functions[f])
    ensures app.functions[g] in Block(p, app.functions[f]) ==> Block(p, app.functions[f]) == Block(p, app.functions[g])
  {
    var x, y := app.functions[f], app.functions[g];
    RepMeaning(app, p, f);
    RepMeaning(app, p, g);
    var i, j := Owner(p, x).value, Owner(p, y).value;
    if y in Block(p, x) {
      FamilyOwner(p, y, i);
    } else if Rep(app, p, f) == Rep(app, p, g) {
      var z := app.functions[Rep(app, p, f)];
      FamilyOwner(p, z, i);
      FamilyOwner(p, z, j);
    }
  }

  lemma RepOfRep(app: Application, p: seq<Group>, f: nat)
    requires Distinct(app.functions) && IsPartition(app, p) && f < |app.functions|
    ensures Rep(app, p, f) < |app.functions| && Rep(app, p, Rep(app, p, f)) == Rep(app, p, f)
  {
    RepMeaning(app, p, f);
    SameRep(app, p, f, Rep(app, p, f));
  }

  ghost function BlockGB(app: Application, p: seq<Group>, f: nat): real
    requires f < |app.functions|
  {
    GB(MaxMemory(app.nodes, Block(p, app.functions[f])))
  }

  ghost function Encode(app: Application, edges: seq<Edge>, p: seq<Group>): Point {
    (c: Column) =>
      var n := |app.functions|;
      match c
      case X(b, f) => if f < n && Rep(app, p, f) == b then 1.0 else 0.0
      case C(i) => if i < |edges| && IsCut(p, edges[i].u, edges[i].v) then 1.0 else 0.0
      case M(b) => if b < n && Rep(app, p, b) == b then BlockGB(app, p, b) else 0.0
      case Y(b, f) => if f < n && Rep(app, p, f) == b then BlockGB(app, p, f) else 0.0
  }

  lemma EncodeAssigns(app: Application, edges: seq<Edge>, p: seq<Group>, f: nat)
    requires Distinct(app.functions) && IsPartition(app, p) && f < |app.functions|
    ensures AssignRow(Encode(app, edges, p), |app.functions|, f)
  {
    hide Sum, Rep;
    RepMeaning(app, p, f);
    SumOne(Below(|app.functions|), InRow(Encode(app, edges, p), f), Rep(app, p, f));
  }

  lemma BlockWithinBigM(app: Application, p: seq<Group>, f: nat)
    requires Distinct(app.functions) && IsPartition(app, p) && f < |app.functions|
    ensures 0.0 <= BlockGB(app, p, f) <= GB(GroupMemory(app.nodes, app.functions))
  {
    var s, b := app.nodes, Block(p, app.functions[f]);
    forall x | x in b ensures x in Elems(app.functions) {
      BlockIsTogether(p, app.functions[f], x);
      assert x in Members(p);
    }
    GroupMemoryIsMaxMemory(s, app.functions);
    MaxMemoryMonotone(s, b, Elems(app.functions));
    GBMonotone(MaxMemory(s, b), GroupMemory(s, app.functions));
  }

  lemma EncodeRootAndMem(app: Application, edges: seq<Edge>, p: seq<Group>, b: nat, f: nat)
    requires Distinct(app.functions) && IsPartition(app, p) && b < |app.functions| && f < |app.functions|
    ensures RootRow(Encode(app, edges, p), b, f)
    ensures MemRow(app, Encode(app, edges, p), b, f)
  {
    hide Rep, Times, MaxMemory;
    var s, x := app.nodes, app.functions[f];
    BlockWithinBigM(app, p, b);
    RepOfRep(app, p, f);
    TimesUnit(GB(At(s, x).memoryMB));
    if Rep(app, p, f) == b {
      RepMeaning(app, p, f);
      SameRep(app, p, f, b);
      GBMonotone(At(s, x).memoryMB, MaxMemory(s, Block(p, x)));
    }
  }

  lemma EncodeTier(app: Application, edges: seq<Edge>, p: seq<Group>, b: nat, f: nat)
    requires Distinct(app.functions) && IsPartition(app, p) && b < |app.functions| && f < |app.functions|
    ensures TierRow(Encode(app, edges, p), GB(GroupMemory(app.nodes, app.functions)), b, f)
  {
    hide Rep, Times, GB, GroupMemory, MaxMemory;
    BlockWithinBigM(app, p, b);
    RepOfRep(app, p, f);
    TimesUnit(GB(GroupMemory(app.nodes, app.functions)));
    if Rep(app, p, f) == b {
      SameRep(app, p, f, b);
    }
  }

  lemma EncodeCuts(app: Application, edges: seq<Edge>, p: seq<Group>, i: nat, b: nat)
    requires WellFormed(app) && AreEdges(app, edges) && IsPartition(app, p) && i < |edges| && b < |app.functions|
    ensures CutRows(app, Encode(app, edges, p), edges, i, b)
  {
    hide Rep, IsCut;
    var e := edges[i];
    assert e in edges;
    EdgeEnds(app, edges, e);
    IndexOfMember(app.functions, e.u);
    IndexOfMember(app.functions, e.v);
    SameRep(app, p, LastIndex(app.functions, e.u), LastIndex(app.functions, e.v));
    CutMeaning(p, e.u, e.v);
  }

  /** Every partition is a point of the program: all rows but the latency row hold at its encoding. */
  lemma EncodingSatisfiesRows(app: Application, edges: seq<Edge>, p: seq<Group>)
    requires WellFormed(app) && AreEdges(app, edges) && IsPartition(app, p)
    ensures PlacementPoint(app, edges, Encode(app, edges, p))
  {
    hide Rep, IsCut, BlockGB, AssignRow, RootRow, MemRow, TierRow, CutRows, Family;
    var a, n := Encode(app, edges, p), |app.functions|;
    forall c ensures a(c) >= 0.0 {
      match c
      case X(_, _) =>
      case C(_) =>
      case M(b) => if b < n { BlockWithinBigM(app, p, b); }
      case Y(_, f) => if f < n { BlockWithinBigM(app, p, f); }
    }
    forall f: nat | f < n ensures AssignRow(a, n, f) { EncodeAssigns(app, edges, p, f); }
    forall b: nat | b < n ensures RowsAt(app, a, b) {
      forall f: nat | f < n
        ensures RootRow(a, b, f) && MemRow(app, a, b, f) && TierRow(a, GB(GroupMemory(app.nodes, app.functions)), b, f)
      {
        EncodeRootAndMem(app, edges, p, b, f);
        EncodeTier(app, edges, p, b, f);
      }
    }
    forall i: nat, b: nat | i < |edges| && b < n
      ensures CutRows(app, a, edges, i, b)
    {
      EncodeCuts(app, edges, p, i, b);
    }
  }

  lemma EncodedTier(app: Application, edges: seq<Edge>, p: seq<Group>, f: nat)
    requires WellFormed(app) && IsPartition(app, p) && f < |app.functions|
    ensures Row<nat, nat>(Below(|app.functions|), Flip<nat, nat>(TierTerm(app, Encode(app, edges, p))))(f)
            == ExecutedAtIndex(app, p)(f)
  {
    hide TierCoef, Sum, Times, ExecutionCostUSD, Row, Rep;
    var s, x, b, a := app.nodes, app.functions[f], Rep(app, p, f), Encode(app, edges, p);
    var c, m := PerMillion(TierCoef(s, x)), MaxMemory(s, Block(p, x));
    BilledColumn(app, a, f);
    RepMeaning(app, p, f);
    TimesMonotone(1.0, 0.0, 0.0);
    ExecutionByGB(s, x, m);
    TimesMonotone(c, 0.0, 0.0);
    forall i: nat | i in Below(|app.functions|) && i != b ensures BilledIn(app, a, f)(i) == 0.0 {
      assert a(Y(i, f)) == 0.0;
    }
    SumOne(Below(|app.functions|), BilledIn(app, a, f), b);
    assert BilledIn(app, a, f)(b) == Times(c, a(Y(b, f)));
    assert a(Y(b, f)) == GB(m);
    assert ExecutedIn(s, p)(x) == ExecutedAt(s, Block(p, x), x);
  }

  lemma EncodedCut(app: Application, edges: seq<Edge>, p: seq<Group>, i: nat)
    requires i < |edges|
    ensures CutTerm(app.nodes, edges, Encode(app, edges, p))(i) == CutCostAt(app.nodes, edges, p)(i)
  {
    hide Times, EdgeCoef, IsCut;
    var s, e, a := app.nodes, edges[i], Encode(app, edges, p);
    var c := PerMillion(EdgeCoef(s, e));
    TimesUnit(c);
    assert CutTerm(s, edges, a)(i) == Times(c, a(C(i)));
    assert a(C(i)) == if IsCut(p, e.u, e.v) then 1.0 else 0.0;
    assert CutCost(s, p)(e) == if IsCut(p, e.u, e.v) then EdgeCoef(s, e) else 0.0;
  }

  lemma TimesUnit(c: real)
    ensures Times(c, 1.0) == c && Times(c, 0.0) == 0.0
  { }

  /** The encoding of a partition costs exactly its bill, per million, less the unavoidable requests. */
  lemma EncodingCostsItsBill(app: Application, edges: seq<Edge>, p: seq<Group>)
    requires WellFormed(app) && AreEdges(app, edges) && IsPartition(app, p)
    ensures Objective(app, edges, Encode(app, edges, p)) == Target(app, p)
  {
    hide Sum, Target, WellFormed, Encode;
    var n, a := |app.functions|, Encode(app, edges, p);
    TargetByTerms(app, edges, p);
    forall i: nat | i in Below(|edges|) ensures CutCostAt(app.nodes, edges, p)(i) == CutTerm(app.nodes, edges, a)(i) {
      EncodedCut(app, edges, p, i);
    }
    SumCong(Below(|edges|), CutCostAt(app.nodes, edges, p), CutTerm(app.nodes, edges, a));
    Sum2Swap<nat, nat>(Below(n), Below(n), TierTerm(app, a));
    var rows := Row<nat, nat>(Below(n), Flip<nat, nat>(TierTerm(app, a)));
    forall f: nat | f in Below(n) ensures ExecutedAtIndex(app, p)(f) == rows(f) {
      EncodedTier(app, edges, p, f);
    }
    SumCong(Below(n), ExecutedAtIndex(app, p), rows);
  }

  /** Exactness both ways: partitions are points at their bill, and no point beats the bill of the
      partition it decodes to. */
  lemma ProgramIsExact(app: Application, edges: seq<Edge>)
    requires WellFormed(app) && AreEdges(app, edges)
    ensures forall p :: IsPartition(app, p) ==>
      PlacementPoint(app, edges, Encode(app, edges, p)) && Objective(app, edges, Encode(app, edges, p))
        == Target(app, p)
    ensures forall a :: PlacementPoint(app, edges, a) ==>
      IsPartition(app, Decode(app, a)) && Objective(app, edges, a) >= Target(app, Decode(app, a))
  {
    forall p | IsPartition(app, p)
      ensures PlacementPoint(app, edges, Encode(app, edges, p))
      ensures Objective(app, edges, Encode(app, edges, p)) == Target(app, p)
    {
      EncodingSatisfiesRows(app, edges, p);
      EncodingCostsItsBill(app, edges, p);
    }
    forall a | PlacementPoint(app, edges, a)
      ensures IsPartition(app, Decode(app, a)) && Objective(app, edges, a) >= Target(app, Decode(app, a))
    {
      ObjectiveBoundsBill(app, edges, a);
    }
  }

  // ---- latency ----

  /** Cut pairs of a path that are calls: the only ones the program can see. */
  function CallCuts(s: Store, groups: seq<Group>, path: seq<Id>): nat {
    if |path| < 2 then 0 else
    var u, v := path[|path| - 2], path[|path| - 1];
    CallCuts(s, groups, path[..|path| - 1]) + if v in At(s, u).children && IsCut(groups, u, v) then 1 else 0
  }

  /** Every pair of the path is a call, or one function twice. */
  ghost predicate PairsAreCalls(s: Store, path: seq<Id>) {
    forall i :: 0 <= i < |path| - 1 ==> IsCallOrSame(s, path, i)
  }

  ghost predicate IsCallOrSame(s: Store, path: seq<Id>, i: nat)
    requires i + 1 < |path|
  {
    path[i + 1] in At(s, path[i]).children || path[i] == path[i + 1]
  }

  lemma LastPair(s: Store, path: seq<Id>)
    requires |path| >= 2
    ensures PairsAreCalls(s, path) <==> PairsAreCalls(s, path[..|path| - 1]) && IsCallOrSame(s, path, |path| - 2)
  {
    var init := path[..|path| - 1];
    assert forall i: nat :: i < |init| - 1 ==> (IsCallOrSame(s, init, i) <==> IsCallOrSame(s, path, i));
  }

  lemma {:induction false} CallCutsArePathCuts(s: Store, groups: seq<Group>, path: seq<Id>)
    ensures CallCuts(s, groups, path) <= PathCuts(groups, path)
    ensures PairsAreCalls(s, path) ==> CallCuts(s, groups, path) == PathCuts(groups, path)
  {
    hide PairsAreCalls, Owner;
    if |path| >= 2 {
      CallCutsArePathCuts(s, groups, path[..|path| - 1]);
      LastPair(s, path);
    }
  }

  lemma {:induction false} HiddenCut(s: Store, functions: seq<Id>, path: seq<Id>)
    requires Distinct(functions) && forall f :: f in path ==> f in functions
    requires !PairsAreCalls(s, path)
    ensures CallCuts(s, Singles(functions), path) < PathCuts(Singles(functions), path)
  {
    hide IsCut;
    var init, k := path[..|path| - 1], |path| - 2;
    CallCutsArePathCuts(s, Singles(functions), init);
    AloneIsCut(functions, path[k], path[k + 1]);
    LastPair(s, path);
    if !PairsAreCalls(s, init) { HiddenCut(s, functions, init); }
  }

  /** The program counts the hops of every partition right exactly when the path consists of calls, but
      for immediate repetitions. */
  lemma SeesEveryCutExactly(app: Application)
    requires Distinct(app.functions)
    ensures (forall p :: IsPartition(app, p) ==>
        CallCuts(app.nodes, p, CriticalPath(app)) == PathCuts(p, CriticalPath(app))) <==>
      PairsAreCalls(app.nodes, CriticalPath(app))
  {
    hide CriticalPath, IsPartition;
    SinglesPartition(app);
    if PairsAreCalls(app.nodes, CriticalPath(app)) {
      forall p | IsPartition(app, p)
        ensures CallCuts(app.nodes, p, CriticalPath(app)) == PathCuts(p, CriticalPath(app))
      {
        CallCutsArePathCuts(app.nodes, p, CriticalPath(app));
      }
    } else {
      HiddenCut(app.nodes, app.functions, CriticalPath(app));
    }
  }

  /** The cap as the program checks it: on the calls of the path, and not at all without a row. */
  ghost predicate MeetsCallCap(app: Application, edges: seq<Edge>, groups: seq<Group>) {
    var path := CriticalPath(app);
    app.networkHopMS != 0 && HasPathEdge(edges, path) ==>
      GroupRuntimeMs(app.nodes, path) + CallCuts(app.nodes, groups, path) * app.networkHopMS <= app.maxLatencyMS
  }

  lemma EdgeIndexIs(edges: seq<Edge>, i: nat)
    requires Distinct(edges) && i < |edges|
    ensures EdgeIndex(edges, edges[i]) == Some(i)
  {
    if i < |edges| - 1 {
      EdgeIndexIs(edges[..|edges| - 1], i);
    }
  }

  lemma {:induction false} EncodedHops(app: Application, edges: seq<Edge>, p: seq<Group>, path: seq<Id>)
    requires AreEdges(app, edges) && app.networkHopMS >= 0
    ensures HopsAt(edges, path, app.networkHopMS, Encode(app, edges, p))
            <= (CallCuts(app.nodes, p, path) * app.networkHopMS) as real
  {
    if |path| >= 2 {
      var init, u, v := path[..|path| - 1], path[|path| - 2], path[|path| - 1];
      EncodedHops(app, edges, p, init);
      EncodedPairHop(app, edges, p, u, v);
      HopsAdd(CallCuts(app.nodes, p, init), if v in At(app.nodes, u).children && IsCut(p, u, v) then 1 else 0,
          app.networkHopMS);
      hide PairHop, Encode, IsCut, AreEdges;
    }
  }

  lemma EncodedPairHop(app: Application, edges: seq<Edge>, p: seq<Group>, u: Id, v: Id)
    requires AreEdges(app, edges) && app.networkHopMS >= 0
    ensures PairHop(edges, u, v, app.networkHopMS, Encode(app, edges, p))
            <= ((if v in At(app.nodes, u).children && IsCut(p, u, v) then 1 else 0) * app.networkHopMS) as real
  {
    hide Times, IsCut;
    TimesUnit(app.networkHopMS as real);
    var o := EdgeIndex(edges, Edge(u, v));
    if o.Some? {
      assert Edge(u, v) in edges;
    }
  }

  lemma {:induction false} DecodedHops(app: Application, edges: seq<Edge>, a: Point, path: seq<Id>)
    requires WellFormed(app) && AreEdges(app, edges) && PlacementPoint(app, edges, a)
    requires forall f :: f in path ==> f in app.functions
    ensures (CallCuts(app.nodes, Decode(app, a), path) * app.networkHopMS) as real
            <= HopsAt(edges, path, app.networkHopMS, a)
  {
    if |path| >= 2 {
      var init, u, v := path[..|path| - 1], path[|path| - 2], path[|path| - 1];
      DecodedHops(app, edges, a, init);
      DecodedPairHop(app, edges, a, u, v);
      HopsAdd(CallCuts(app.nodes, Decode(app, a), init),
              if v in At(app.nodes, u).children && IsCut(Decode(app, a), u, v) then 1 else 0, app.networkHopMS);
      hide PairHop, Decode, IsCut, PlacementPoint, WellFormed, AreEdges;
    }
  }

  lemma HopsAdd(m: nat, k: nat, hop: int)
    ensures (m + k) * hop == m * hop + k * hop
  { }

  lemma DecodedPairHop(app: Application, edges: seq<Edge>, a: Point, u: Id, v: Id)
    requires WellFormed(app) && AreEdges(app, edges) && PlacementPoint(app, edges, a) && u in app.functions
    ensures
      ((if v in At(app.nodes, u).children && IsCut(Decode(app, a), u, v) then 1 else 0) * app.networkHopMS) as real
            <= PairHop(edges, u, v, app.networkHopMS, a)
  {
    hide Times, Decode;
    var p, hop, o := Decode(app, a), app.networkHopMS as real, EdgeIndex(edges, Edge(u, v));
    TimesUnit(hop);
    if o.Some? {
      CutIsPaid(app, edges, a, o.value);
      assert a(C(o.value)) >= 0.0;
      TimesMonotone(hop, 0.0, a(C(o.value)));
    } else {
      assert v in At(app.nodes, u).children ==> u == v && !IsCut(p, u, v);
    }
  }

  lemma PrefixPathEdge(edges: seq<Edge>, path: seq<Id>)
    requires path != []
    ensures HasPathEdge(edges, path[..|path| - 1]) ==> HasPathEdge(edges, path)
  {
    var init := path[..|path| - 1];
    if HasPathEdge(edges, init) {
      var i :| 0 <= i < |init| - 1 && Edge(init[i], init[i + 1]) in edges;
      assert Edge(path[i], path[i + 1]) in edges;
    }
  }

  lemma {:induction false} NoPathEdgeNoCallCuts(app: Application, edges: seq<Edge>, p: seq<Group>, path: seq<Id>)
    requires AreEdges(app, edges) && !HasPathEdge(edges, path) && forall f :: f in path ==> f in app.functions
    ensures CallCuts(app.nodes, p, path) == 0
  {
    if |path| >= 2 {
      var init, k := path[..|path| - 1], |path| - 2;
      PrefixPathEdge(edges, path);
      NoPathEdgeNoCallCuts(app, edges, p, init);
      assert Edge(path[k], path[k + 1]) !in edges;
    }
  }

  // ---- optimality ----

  ghost predicate IsLeastPoint(app: Application, edges: seq<Edge>, a: Point) {
    && FeasiblePoint(app, edges, a)
    && forall a' :: FeasiblePoint(app, edges, a') ==> Objective(app, edges, a) <= Objective(app, edges, a')
  }

  /** A partition that meets the cap on the calls of the path is a feasible point, latency row included. */
  lemma CallCapEncodes(app: Application, edges: seq<Edge>, q: seq<Group>)
    requires WellFormed(app) && AreEdges(app, edges) && IsPartition(app, q) && MeetsCallCap(app, edges, q)
    ensures FeasiblePoint(app, edges, Encode(app, edges, q))
  {
    hide Encode, PlacementPoint, HopsAt, CallCuts, Rep, HasPathEdge, WellFormedNode, Family;
    EncodingSatisfiesRows(app, edges, q);
    EncodedHops(app, edges, q, CriticalPath(app));
  }

  /** And what a feasible point decodes to meets it. */
  lemma DecodedMeetsCallCap(app: Application, edges: seq<Edge>, a: Point)
    requires WellFormed(app) && AreEdges(app, edges) && FeasiblePoint(app, edges, a)
    ensures IsPartition(app, Decode(app, a)) && [] !in Decode(app, a) && MeetsCallCap(app, edges, Decode(app, a))
  {
    hide Decode, PlacementPoint, HopsAt, CallCuts, HasPathEdge, WellFormedNode, Family;
    DecodeIsPartition(app, edges, a);
    DecodedHops(app, edges, a, CriticalPath(app));
  }

  /** A feasible partition meets the cap on calls, whatever the path looks like. */
  lemma FeasibleMeetsCallCap(app: Application, edges: seq<Edge>, q: seq<Group>)
    requires app.networkHopMS >= 0 && Feasible(app, q)
    ensures MeetsCallCap(app, edges, q)
  {
    hide CallCuts, PathCuts;
    CallCutsArePathCuts(app.nodes, q, CriticalPath(app));
    HopsMonotone(CallCuts(app.nodes, q, CriticalPath(app)), PathCuts(q, CriticalPath(app)), app.networkHopMS);
  }

  lemma FitsTransfers(app: Application, q: seq<Group>, p: seq<Group>)
    requires IsPartition(app, p) && IsPartition(app, q) && [] !in p && MemoryFits(app, q)
    ensures MemoryFits(app, p)
  {
    forall f | f in app.functions ensures At(app.nodes, f).memoryMB <= app.maxMemoryMB {
      assert f in Members(q);
      var i :| 0 <= i < |q| && f in q[i];
      assert q[i] in q;
    }
    MemoryFitsIsPartitionFree(app, p);
  }

  lemma WalkMeetsCap(app: Application, edges: seq<Edge>, p: seq<Group>, q: seq<Group>)
    requires WellFormed(app) && AreEdges(app, edges) && PairsAreCalls(app.nodes, CriticalPath(app))
    requires MeetsCallCap(app, edges, p) && Feasible(app, q) && CriticalPath(app) != []
    ensures Latency(app, p) <= app.maxLatencyMS
  {
    hide CallCuts, PathCuts, HasPathEdge, GroupRuntimeMs, WellFormedNode;
    var path, hop := CriticalPath(app), app.networkHopMS;
    CallCutsArePathCuts(app.nodes, p, path);
    if hop == 0 || !HasPathEdge(edges, path) {
      if hop != 0 { NoPathEdgeNoCallCuts(app, edges, p, path); }
      HopsMonotone(0, PathCuts(q, path), hop);
      assert PathCuts(p, path) * hop == 0;
    }
  }

  /** When the critical path consists of calls (`PairsAreCalls`), what a feasible point decodes to meets both caps,
      provided some partition does. */
  lemma DecodedIsFeasible(app: Application, edges: seq<Edge>, a: Point, q: seq<Group>)
    requires WellFormed(app) && AreEdges(app, edges) && PairsAreCalls(app.nodes, CriticalPath(app))
    requires FeasiblePoint(app, edges, a)
    requires IsPartition(app, q) && Feasible(app, q)
    ensures IsPartition(app, Decode(app, a)) && Feasible(app, Decode(app, a))
  {
    hide Decode, FeasiblePoint, MeetsCallCap, Latency, PairsAreCalls, WellFormed, AreEdges, Family;
    DecodedMeetsCallCap(app, edges, a);
    FitsTransfers(app, q, Decode(app, a));
    if CriticalPath(app) != [] { WalkMeetsCap(app, edges, Decode(app, a), q); }
  }

  /** The program solves exactly this problem, for every well-formed application and every path: the
      cheapest partition among those that meet the cap on the calls of the path. */
  lemma LeastPointSolvesCallProblem(app: Application, edges: seq<Edge>, a: Point, q: seq<Group>)
    requires WellFormed(app) && AreEdges(app, edges) && IsLeastPoint(app, edges, a)
    requires IsPartition(app, q) && MeetsCallCap(app, edges, q)
    ensures IsPartition(app, Decode(app, a)) && MeetsCallCap(app, edges, Decode(app, a))
    ensures TotalCostUSD(app, Decode(app, a)) <= TotalCostUSD(app, q)
  {
    hide Decode, Encode, PlacementPoint, LatencyRow, MeetsCallCap, Objective, TotalCostUSD, Sum, WellFormed, Family;
    DecodedMeetsCallCap(app, edges, a);
    CallCapEncodes(app, edges, q);
    EncodingCostsItsBill(app, edges, q);
    ObjectiveBoundsBill(app, edges, a);
  }

  /** Every feasible partition is a point of the program, so whatever the critical path looks like,
      a least-objective point decodes to a partition no feasible one undercuts. */
  lemma LeastPointIsNotDearer(app: Application, edges: seq<Edge>, a: Point, q: seq<Group>)
    requires WellFormed(app) && AreEdges(app, edges) && IsLeastPoint(app, edges, a)
    requires IsPartition(app, q) && Feasible(app, q)
    ensures IsPartition(app, Decode(app, a))
    ensures TotalCostUSD(app, Decode(app, a)) <= TotalCostUSD(app, q)
  {
    hide Decode, IsLeastPoint, MeetsCallCap, TotalCostUSD, Feasible, WellFormedNode, Family;
    FeasibleMeetsCallCap(app, edges, q);
    LeastPointSolvesCallProblem(app, edges, a, q);
  }

  /** MtxILP is optimal: if the solver returns a least-objective point, the critical path consists
      of calls and some partition is feasible, the decoded partition is feasible and no feasible
      partition is cheaper. */
  lemma LeastPointIsCheapest(app: Application, edges: seq<Edge>, a: Point, q: seq<Group>)
    requires WellFormed(app) && AreEdges(app, edges) && PairsAreCalls(app.nodes, CriticalPath(app))
    requires IsLeastPoint(app, edges, a)
    requires IsPartition(app, q) && Feasible(app, q)
    ensures IsPartition(app, Decode(app, a)) && Feasible(app, Decode(app, a))
    ensures TotalCostUSD(app, Decode(app, a)) <= TotalCostUSD(app, q)
  {
    hide Decode, FeasiblePoint, Objective, TotalCostUSD, WellFormed, Family, Feasible, PairsAreCalls;
    DecodedIsFeasible(app, edges, a, q);
    LeastPointIsNotDearer(app, edges, a, q);
  }

  // ---- when the solver can answer, and when it should ----

  /** Without a latency row every partition is a solution, whatever its latency. */
  lemma NoRowAlwaysSolvable(app: Application, edges: seq<Edge>, q: seq<Group>)
    requires WellFormed(app) && AreEdges(app, edges) && IsPartition(app, q)
    requires app.networkHopMS == 0 || !HasPathEdge(edges, CriticalPath(app))
    ensures FeasiblePoint(app, edges, Encode(app, edges, q))
  {
    hide FeasiblePoint, Encode, CallCuts, WellFormed, Family;
    CallCapEncodes(app, edges, q);
  }

  /** The solver can answer exactly when the latency row was not emitted or the bare runtimes of the
      path meet the cap: nothing in the program limits memory, and one group cuts nothing. */
  lemma SolvableExactly(app: Application, edges: seq<Edge>)
    requires WellFormed(app) && AreEdges(app, edges)
    ensures (exists a :: FeasiblePoint(app, edges, a)) <==>
      || app.networkHopMS == 0
      || !HasPathEdge(edges, CriticalPath(app))
      || GroupRuntimeMs(app.nodes, CriticalPath(app)) <= app.maxLatencyMS
  {
    hide FeasiblePoint, HasPathEdge, Encode, Decode, WellFormedNode, Family, PathCuts, CallCuts, GroupRuntimeMs,
      CriticalPath, Known;
    var path, hop, all := CriticalPath(app), app.networkHopMS, [app.functions];
    OneGroupPartition(app, app.functions);
    OneGroupNoCuts(app, path);
    CallCutsArePathCuts(app.nodes, all, path);
    if hop == 0 || !HasPathEdge(edges, path) || GroupRuntimeMs(app.nodes, path) <= app.maxLatencyMS {
      CallCapEncodes(app, edges, all);
    }
    if a :| FeasiblePoint(app, edges, a) {
      DecodedMeetsCallCap(app, edges, a);
      HopsMonotone(0, CallCuts(app.nodes, Decode(app, a), path), hop);
    }
  }

  // ---- the shortcut without edges ----

  lemma CallIsEdge(app: Application, edges: seq<Edge>, f: Id, c: Id)
    requires WellFormed(app) && AreEdges(app, edges) && f in app.functions
    ensures c in At(app.nodes, f).children && c != f ==> edges != []
    ensures At(app.nodes, f).parent == Some(c) && c != f ==> edges != []
  {
    assert WellFormedNode(app, f);
    if c in At(app.nodes, f).children && c != f { assert Edge(f, c) in edges; }
    if At(app.nodes, f).parent == Some(c) && c != f { assert Edge(c, f) in edges; }
  }

  lemma NoEdgesNoTransfer(app: Application, edges: seq<Edge>, f: Id, outside: set<Id>)
    requires WellFormed(app) && AreEdges(app, edges) && edges == []
    requires f in app.functions && f !in outside
    ensures Sum(outside, Fix(Transfer(app.nodes), f)) == 0.0
  {
    forall c | c in outside ensures Fix(Transfer(app.nodes), f)(c) == 0.0 {
      CallIsEdge(app, edges, f, c);
      NoEdgeNoTransfer(app, f, c);
    }
    SumZero(outside, Fix(Transfer(app.nodes), f));
  }

  lemma NoEdgesBill(app: Application, edges: seq<Edge>, q: seq<Group>, f: Id)
    requires WellFormed(app) && AreEdges(app, edges) && edges == []
    requires IsPartition(app, q) && f in app.functions
    ensures BillIn(app.nodes, Singles(app.functions))(f) <= BillIn(app.nodes, q)(f)
  {
    hide ExecutedAt, RequestCharge, RetieredAt, Sum;
    var s, none, F := app.nodes, Singles(app.functions), Elems(app.functions);
    SinglesPartition(app);
    OwnBlock(q, f);
    assert Block(none, f) == {f};
    NoEdgesNoTransfer(app, edges, f, F - {f});
    NoEdgesNoTransfer(app, edges, f, F - Block(q, f));
    var parent := At(s, f).parent;
    if parent.Some? { CallIsEdge(app, edges, f, parent.value); }
    assert EntryRateAt(s, {f}, f) == EntryRateAt(s, Block(q, f), f);
    RetieringOfBlock(s, Block(q, f), f);
    assert BillIn(s, none)(f) == FunctionBill(s, F, {f}, f);
    assert BillIn(s, q)(f) == FunctionBill(s, F, Block(q, f), f);
  }

  lemma NoEdgesFeasible(app: Application, edges: seq<Edge>, q: seq<Group>)
    requires WellFormed(app) && AreEdges(app, edges) && edges == []
    requires IsPartition(app, q) && PairsAreCalls(app.nodes, CriticalPath(app)) && Feasible(app, q)
    ensures Feasible(app, Singles(app.functions))
  {
    hide PathCuts, PairsAreCalls, Latency, WellFormedNode;
    var none := Singles(app.functions);
    SinglesPartition(app);
    FitsTransfers(app, q, none);
    if CriticalPath(app) != [] { WalkMeetsCap(app, edges, none, q); }
  }

  /** With no edges the generator emits no program and answers with singletons: rightly so. */
  lemma NoEdgesSinglesOptimal(app: Application, edges: seq<Edge>, q: seq<Group>)
    requires WellFormed(app) && AreEdges(app, edges) && edges == []
    requires IsPartition(app, q)
    ensures TotalCostUSD(app, Singles(app.functions)) <= TotalCostUSD(app, q)
    ensures PairsAreCalls(app.nodes, CriticalPath(app)) && Feasible(app, q) ==> Feasible(app, Singles(app.functions))
  {
    hide Sum, TotalCostUSD, PairsAreCalls, Feasible;
    var s, none := app.nodes, Singles(app.functions);
    SinglesPartition(app);
    CostIsSumOfBills(app, none);
    CostIsSumOfBills(app, q);
    forall f | f in Elems(app.functions)
      ensures BillIn(s, none)(f) <= BillIn(s, q)(f)
    {
      NoEdgesBill(app, edges, q, f);
    }
    SumLe(Elems(app.functions), BillIn(s, none), BillIn(s, q));
    if PairsAreCalls(app.nodes, CriticalPath(app)) && Feasible(app, q) { NoEdgesFeasible(app, edges, q); }
  }
}
