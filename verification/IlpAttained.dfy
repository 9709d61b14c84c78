/** The program has a least-objective point whenever it has a point: its optimum is attained. */
module IlpAttained {
  import opened Sums
  import opened Domain
  import opened Billing
  import opened GreedyTPCost
  import opened IlpModel
  import opened IlpExact
  import opened IlpOptimal

  // ---- finitely many partitions, up to their blocks ----

  /** The sequences of `n` numbers below `k`. */
  ghost function Tuples(n: nat, k: nat): set<seq<nat>> {
    if n == 0 then {[]} else set t, d | t in Tuples(n - 1, k) && d in Below(k) :: t + [d]
  }

  lemma {:induction false} TupleIsListed(t: seq<nat>, k: nat)
    requires forall i :: 0 <= i < |t| ==> t[i] < k
    ensures t in Tuples(|t|, k)
  {
    if t != [] {
      TupleIsListed(t[..|t| - 1], k);
      assert t == t[..|t| - 1] + [t[|t| - 1]];
    }
  }

  /** The representative of every function's group. */
  ghost function Reps(app: Application, p: seq<Group>): seq<nat> {
    seq(|app.functions|, f requires 0 <= f < |app.functions| => Rep(app, p, f))
  }

  lemma RepsAreListed(app: Application, p: seq<Group>)
    requires Distinct(app.functions) && IsPartition(app, p)
    ensures Reps(app, p) in Tuples(|app.functions|, |app.functions|)
  {
    hide Rep, IsPartition, Tuples;
    forall f: nat | f < |app.functions| ensures Reps(app, p)[f] < |app.functions| { RepMeaning(app, p, f); }
    TupleIsListed(Reps(app, p), |app.functions|);
  }

  lemma SameRepsSameCost(app: Application, p: seq<Group>, q: seq<Group>)
    requires WellFormed(app) && IsPartition(app, p) && IsPartition(app, q) && Reps(app, p) == Reps(app, q)
    ensures TotalCostUSD(app, p) == TotalCostUSD(app, q)
  {
    hide Rep, TotalCostUSD, WellFormedNode, IsPartition, Block;
    forall x | x in app.functions ensures Block(p, x) == Block(q, x) {
      forall y ensures y in Block(p, x) <==> y in Block(q, x) {
        BlockInside(app, p, x, y);
        BlockInside(app, q, x, y);
        if y in app.functions { SameRepsSameBlock(app, p, q, x, y); }
      }
    }
    SameBlocksSameCost(app, p, q);
  }

  lemma BlockInside(app: Application, p: seq<Group>, x: Id, y: Id)
    requires IsPartition(app, p)
    ensures y in Block(p, x) ==> y in app.functions
  {
    BlockIsTogether(p, x, y);
    TogetherAreMembers(p, x, y);
  }

  lemma SameRepsSameBlock(app: Application, p: seq<Group>, q: seq<Group>, x: Id, y: Id)
    requires Distinct(app.functions) && IsPartition(app, p) && IsPartition(app, q) && Reps(app, p) == Reps(app, q)
    requires x in app.functions && y in app.functions
    ensures y in Block(p, x) <==> y in Block(q, x)
  {
    hide Rep, IsPartition, Block;
    var f: nat :| f < |app.functions| && app.functions[f] == x;
    var g: nat :| g < |app.functions| && app.functions[g] == y;
    SameRep(app, p, f, g);
    SameRep(app, q, f, g);
    assert Reps(app, p)[f] == Reps(app, q)[f] && Reps(app, p)[g] == Reps(app, q)[g];
  }

  // ---- a cheapest one among them ----

  ghost predicate Contender(app: Application, edges: seq<Edge>, p: seq<Group>, keys: set<seq<nat>>) {
    IsPartition(app, p) && MeetsCallCap(app, edges, p) && Reps(app, p) in keys
  }

  ghost predicate IsCheapest(app: Application, edges: seq<Edge>, p: seq<Group>, keys: set<seq<nat>>) {
    && Contender(app, edges, p, keys)
    && forall q :: Contender(app, edges, q, keys) ==> TotalCostUSD(app, p) <= TotalCostUSD(app, q)
  }

  lemma {:induction false} SomeIsCheapest(app: Application, edges: seq<Edge>, p: seq<Group>, keys: set<seq<nat>>)
    returns (best: seq<Group>)
    requires WellFormed(app) && Contender(app, edges, p, keys)
    ensures IsCheapest(app, edges, best, keys)
    decreases keys
  {
    hide WellFormed, IsPartition, MeetsCallCap, Reps, TotalCostUSD;
    var k := Reps(app, p);
    best := p;
    if other :| Contender(app, edges, other, keys - {k}) {
      best := SomeIsCheapest(app, edges, other, keys - {k});
      if TotalCostUSD(app, p) < TotalCostUSD(app, best) { best := p; }
    }
    forall q | Contender(app, edges, q, keys) ensures TotalCostUSD(app, best) <= TotalCostUSD(app, q) {
      if Reps(app, q) == k {
        SameRepsSameCost(app, p, q);
      } else {
        assert Contender(app, edges, q, keys - {k});
      }
    }
  }

  // ---- the optimum ----

  lemma TargetMonotone(app: Application, p: seq<Group>, q: seq<Group>)
    requires TotalCostUSD(app, p) <= TotalCostUSD(app, q)
    ensures Target(app, p) <= Target(app, q)
  { }

  /** The encoding of a cheapest partition is a least point. */
  lemma CheapestEncodes(app: Application, edges: seq<Edge>, p: seq<Group>)
    requires WellFormed(app) && AreEdges(app, edges)
    requires IsCheapest(app, edges, p, Tuples(|app.functions|, |app.functions|))
    ensures IsLeastPoint(app, edges, Encode(app, edges, p))
  {
    hide Encode, PlacementPoint, LatencyRow, MeetsCallCap, Objective, TotalCostUSD, Target, WellFormedNode, IsPartition,
      Decode, Reps, Tuples;
    CallCapEncodes(app, edges, p);
    EncodingCostsItsBill(app, edges, p);
    forall a | FeasiblePoint(app, edges, a)
      ensures Objective(app, edges, Encode(app, edges, p)) <= Objective(app, edges, a)
    {
      DecodedMeetsCallCap(app, edges, a);
      RepsAreListed(app, Decode(app, a));
      ObjectiveBoundsBill(app, edges, a);
      assert Contender(app, edges, Decode(app, a), Tuples(|app.functions|, |app.functions|));
      TargetMonotone(app, p, Decode(app, a));
    }
  }

  /** A least-objective point exists exactly when a feasible point does, although most columns range
      over all non-negative reals: there is always something for an exact solver to return. */
  lemma OptimumIsAttained(app: Application, edges: seq<Edge>)
    requires WellFormed(app) && AreEdges(app, edges)
    ensures (exists a :: IsLeastPoint(app, edges, a)) <==> (exists a :: FeasiblePoint(app, edges, a))
    ensures (exists a :: IsLeastPoint(app, edges, a)) <==>
      || app.networkHopMS == 0
      || !HasPathEdge(edges, CriticalPath(app))
      || GroupRuntimeMs(app.nodes, CriticalPath(app)) <= app.maxLatencyMS
  {
    hide FeasiblePoint, Objective, Encode, Decode, MeetsCallCap, WellFormedNode, IsPartition, AreEdges, HasPathEdge,
      CriticalPath, GroupRuntimeMs, Reps, TotalCostUSD, Tuples;
    SolvableExactly(app, edges);
    if a :| FeasiblePoint(app, edges, a) {
      DecodedMeetsCallCap(app, edges, a);
      RepsAreListed(app, Decode(app, a));
      var p := SomeIsCheapest(app, edges, Decode(app, a), Tuples(|app.functions|, |app.functions|));
      CheapestEncodes(app, edges, p);
    }
  }
}
