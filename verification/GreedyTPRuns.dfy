/** Whether two runs of GreedyTP agree: sorting leaves nothing open, the order of a map may. */
module GreedyTPRuns {
  import opened Sums
  import opened Domain
  import opened Families
  import opened Billing
  import opened Merging
  import opened Coarsening
  import opened GreedyPass
  import opened Bfs
  import opened GreedyTP
  import opened GreedyTPResult
  import opened GreedyTPCost

  /** The same blocks, however the groups and their members are listed. */
  ghost predicate SamePartition(p: seq<Group>, q: seq<Group>) {
    && Family(p) && Family(q) && Members(p) == Members(q)
    && forall u, v :: Together(p, u, v) <==> Together(q, u, v)
  }

  lemma SameBlocks(p: seq<Group>, q: seq<Group>, u: Id)
    requires SamePartition(p, q)
    ensures Block(p, u) == Block(q, u)
  {
    hide Block, Together, Family;
    forall v ensures v in Block(p, u) <==> v in Block(q, u) {
      BlockIsTogether(p, u, v);
      BlockIsTogether(q, u, v);
    }
  }

  // ---- merging depends on blocks alone ----

  ghost predicate BlocksAccept(app: Application, a: set<Id>, b: set<Id>) {
    && Max(MaxMemory(app.nodes, a), MaxMemory(app.nodes, b)) <= app.maxMemoryMB
    && BlockProfit(app.nodes, a, b) > 0.0
  }

  lemma AcceptsByBlocks(app: Application, gs: seq<Group>, c: Candidate)
    requires Family(gs)
    ensures Accepts(app, gs, c) <==>
      && c.parent in Members(gs) && c.child in Members(gs) && !Together(gs, c.parent, c.child)
      && BlocksAccept(app, Block(gs, c.parent), Block(gs, c.child))
  {
    hide MergeProfitUSD, BlockExecution, BlockRequests, GroupMemory, MaxMemory, Sum2;
    OwnerMeaning(gs, c.parent);
    OwnerMeaning(gs, c.child);
    OwnersApart(gs, c.parent, c.child);
    var p, q := Owner(gs, c.parent), Owner(gs, c.child);
    if p.Some? && q.Some? && p != q {
      var a, b := gs[p.value], gs[q.value];
      FamilyGroupsDisjoint(gs, p.value, q.value);
      FamilyGroupDistinct(gs, p.value);
      FamilyGroupDistinct(gs, q.value);
      MergeProfitBySets(app.nodes, a, b);
      GroupMemoryIsMaxMemory(app.nodes, a);
      GroupMemoryIsMaxMemory(app.nodes, b);
    }
  }

  lemma OwnerMeaning(gs: seq<Group>, u: Id)
    ensures Owner(gs, u).Some? <==> u in Members(gs)
  { }

  lemma OwnersApart(gs: seq<Group>, u: Id, v: Id)
    requires Family(gs)
    ensures Owner(gs, u).Some? && Owner(gs, v).Some? ==> (Owner(gs, u) != Owner(gs, v) <==> !Together(gs, u, v))
  {
    if Together(gs, u, v) {
      var k :| 0 <= k < |gs| && u in gs[k] && v in gs[k];
      FamilyOwner(gs, u, k);
      FamilyOwner(gs, v, k);
    }
  }

  /** Exactly the members of the two groups come together. */
  lemma MergedTogether(groups: seq<Group>, i: nat, j: nat, u: Id, v: Id)
    requires Family(groups) && i < |groups| && j < |groups| && i != j
    ensures Together(Merged(groups, i, j), u, v) <==>
      || Together(groups, u, v)
      || (u in groups[i] && v in groups[j])
      || (u in groups[j] && v in groups[i])
  {
    MergedConserves(groups, i, j);
    var merged := Merged(groups, i, j);
    if Together(merged, u, v) {
      var k :| 0 <= k < |merged| && u in merged[k] && v in merged[k];
      var k' := if k == j then |groups| - 1 else k;
      assert merged[k] == groups[i := groups[i] + groups[j]][k'] && k' != j;
    }
    assert u in groups[j] && v in groups[i] ==> Together(merged, v, u);
    assert Together(merged, u, v) <==> Together(merged, v, u);
  }

  lemma MergedSame(p: seq<Group>, q: seq<Group>, u: Id, v: Id)
    requires SamePartition(p, q) && u in Members(p) && v in Members(p) && !Together(p, u, v)
    ensures Owner(p, u).Some? && Owner(p, v).Some? && Owner(q, u).Some? && Owner(q, v).Some?
    ensures SamePartition(Merged(p, Owner(p, u).value, Owner(p, v).value),
                          Merged(q, Owner(q, u).value, Owner(q, v).value))
  {
    hide Family, Members, Merged;
    OwnerMeaning(p, u);
    OwnerMeaning(p, v);
    OwnerMeaning(q, u);
    OwnerMeaning(q, v);
    OwnersApart(p, u, v);
    OwnersApart(q, u, v);
    var (i, j, k, l) := (Owner(p, u).value, Owner(p, v).value, Owner(q, u).value, Owner(q, v).value);
    SameBlocks(p, q, u);
    SameBlocks(p, q, v);
    assert forall f :: f in p[i] <==> f in Block(p, u);
    assert forall f :: f in q[k] <==> f in Block(q, u);
    assert forall f :: f in p[j] <==> f in Block(p, v);
    assert forall f :: f in q[l] <==> f in Block(q, v);
    MergedConserves(p, i, j);
    MergedConserves(q, k, l);
    forall x, y ensures Together(Merged(p, i, j), x, y) <==> Together(Merged(q, k, l), x, y) {
      MergedTogether(p, i, j, x, y);
      MergedTogether(q, k, l, x, y);
    }
  }

  lemma StepSame(app: Application, p: seq<Group>, q: seq<Group>, c: Candidate)
    requires SamePartition(p, q)
    ensures SamePartition(MergeStep(app, p, c), MergeStep(app, q, c))
  {
    hide Family, Members, Merged, Accepts, BlocksAccept, Together, Block;
    AcceptsByBlocks(app, p, c);
    AcceptsByBlocks(app, q, c);
    SameBlocks(p, q, c.parent);
    SameBlocks(p, q, c.child);
    if Accepts(app, p, c) { MergedSame(p, q, c.parent, c.child); }
  }

  /** The pass takes the same decisions on the same blocks. */
  lemma {:induction false} PassSame(app: Application, p: seq<Group>, q: seq<Group>, cs: seq<Candidate>)
    requires SamePartition(p, q)
    ensures SamePartition(MergeAll(app, p, cs), MergeAll(app, q, cs))
  {
    hide SamePartition, MergeStep;
    if cs != [] {
      PassSame(app, p, q, cs[..|cs| - 1]);
      StepSame(app, MergeAll(app, p, cs[..|cs| - 1]), MergeAll(app, q, cs[..|cs| - 1]), cs[|cs| - 1]);
    }
  }

  // ---- ejection depends on blocks alone ----

  lemma TogetherAppend(a: seq<Group>, b: seq<Group>, u: Id, v: Id)
    ensures Together(a + b, u, v) <==> Together(a, u, v) || Together(b, u, v)
  {
    if Together(a, u, v) {
      var i :| 0 <= i < |a| && u in a[i] && v in a[i];
      assert (a + b)[i] == a[i];
    }
    if Together(b, u, v) {
      var i :| 0 <= i < |b| && u in b[i] && v in b[i];
      assert (a + b)[|a| + i] == b[i];
    }
  }

  /** Alone, or both small enough for a group. */
  ghost predicate StayTogether(s: Store, cap: int, u: Id, v: Id) {
    u == v || (At(s, u).memoryMB <= cap && At(s, v).memoryMB <= cap)
  }

  lemma SinglesTogether(xs: seq<Id>, u: Id, v: Id)
    ensures Together(Singles(xs), u, v) <==> u in xs && u == v
  {
    if u in xs {
      var i :| 0 <= i < |xs| && xs[i] == u;
      assert u in Singles(xs)[i];
    }
  }

  lemma EjectedTogether(s: Store, cap: int, g: Group, u: Id, v: Id)
    requires Distinct(g)
    ensures Together(Ejected(s, cap, g), u, v) <==> u in g && v in g && StayTogether(s, cap, u, v)
  {
    hide Singles, Holding, GroupMemory;
    var kept, out := Holding(s, cap, g, true), Holding(s, cap, g, false);
    HoldingMeaning(s, cap, g, true);
    HoldingMeaning(s, cap, g, false);
    OneTogether(g, u, v);
    OneTogether(kept, u, v);
    SinglesTogether(out, u, v);
    TogetherAppend([kept], Singles(out), u, v);
    MembersWithin(s, g);
  }

  lemma OneTogether(g: Group, u: Id, v: Id)
    ensures Together([g], u, v) <==> u in g && v in g
  {
    assert [g][0] == g;
  }

  lemma MembersWithin(s: Store, g: Group)
    ensures forall f :: f in g ==> At(s, f).memoryMB <= GroupMemory(s, g)
  { }

  /** Ejection separates two members of a group exactly when one of them alone is over the cap. */
  lemma EjectsExactly(s: Store, cap: int, groups: seq<Group>, u: Id, v: Id)
    requires Family(groups)
    ensures Together(SafeGroups(s, cap, groups), u, v) <==>
      Together(groups, u, v) && (u == v || (At(s, u).memoryMB <= cap && At(s, v).memoryMB <= cap))
  {
    hide Together, SafeGroups;
    GroupsDistinct(groups);
    SafeTogether(s, cap, groups, u, v);
  }

  lemma {:induction false} SafeTogether(s: Store, cap: int, groups: seq<Group>, u: Id, v: Id)
    requires forall g :: g in groups ==> Distinct(g)
    ensures Together(SafeGroups(s, cap, groups), u, v) <==> Together(groups, u, v) && StayTogether(s, cap, u, v)
  {
    hide Ejected, Together, StayTogether;
    if groups == [] {
      NoneTogether(u, v);
    } else {
      var init, last := groups[..|groups| - 1], groups[|groups| - 1];
      SafeTogether(s, cap, init, u, v);
      EjectedTogether(s, cap, last, u, v);
      TogetherAppend(SafeGroups(s, cap, init), Ejected(s, cap, last), u, v);
      TogetherAppend(init, [last], u, v);
      OneTogether(last, u, v);
      assert groups == init + [last];
    }
  }

  lemma NoneTogether(u: Id, v: Id)
    ensures !Together([], u, v)
  { }

  lemma SafeSame(s: Store, cap: int, p: seq<Group>, q: seq<Group>)
    requires SamePartition(p, q)
    ensures SamePartition(SafeGroups(s, cap, p), SafeGroups(s, cap, q))
  {
    hide SafeGroups, Members, Together;
    SafeIsFamily(s, cap, p);
    SafeIsFamily(s, cap, q);
    GroupsDistinct(p);
    GroupsDistinct(q);
    forall u, v ensures Together(SafeGroups(s, cap, p), u, v) <==> Together(SafeGroups(s, cap, q), u, v) {
      SafeTogether(s, cap, p, u, v);
      SafeTogether(s, cap, q, u, v);
    }
  }

  lemma SafeIsFamily(s: Store, cap: int, p: seq<Group>)
    requires Family(p)
    ensures Family(SafeGroups(s, cap, p)) && Members(SafeGroups(s, cap, p)) == Members(p)
  {
    hide SafeGroups, Members, Family;
    FamilyFlat(p);
    SafeFlat(s, cap, p);
    FlatFamily(SafeGroups(s, cap, p));
  }

  lemma GroupsDistinct(p: seq<Group>)
    requires Family(p)
    ensures forall g :: g in p ==> Distinct(g)
  {
    forall g | g in p ensures Distinct(g) {
      var i :| 0 <= i < |p| && p[i] == g;
      FamilyGroupDistinct(p, i);
    }
  }

  // ---- which barrier is nearest ----

  ghost predicate IsNearest(s: Store, sources: set<Id>, b: Id, v: Id, n: nat) {
    && b in sources && Walk(s, b, v, n)
    && forall c, m: nat :: c in sources && Walk(s, c, v, m) ==> n <= m
  }

  /** No function is equally near two barriers. */
  ghost predicate OneNearest(s: Store, sources: set<Id>) {
    forall b, c, v, n, m ::
      IsNearest(s, sources, b, v, n) && IsNearest(s, sources, c, v, m) ==> b == c
  }

  lemma OriginIsNearest(s: Store, sources: set<Id>, dist: map<Id, nat>, origin: map<Id, Id>, v: Id)
    requires Nearest(s, sources, dist, origin) && v in origin
    ensures IsNearest(s, sources, origin[v], v, dist[v])
  { }

  lemma OneOriginMap(s: Store, sources: set<Id>, d1: map<Id, nat>, o1: map<Id, Id>, d2: map<Id, nat>, o2: map<Id, Id>)
    requires Nearest(s, sources, d1, o1) && Nearest(s, sources, d2, o2) && OneNearest(s, sources)
    ensures o1 == o2
  {
    hide IsNearest;
    assert o1.Keys == o2.Keys by {
      assert forall v :: v in o1 <==> v in o2;
    }
    forall v | v in o1 ensures o1[v] == o2[v] {
      OriginIsNearest(s, sources, d1, o1, v);
      OriginIsNearest(s, sources, d2, o2, v);
    }
  }

  lemma SameBarriers(app: Application, r1: Run, r2: Run)
    requires RunOK(app, r1) && RunOK(app, r2)
    ensures r1.k == r2.k && r1.barriers == r2.barriers && r1.order == r2.order
  {
    hide Nearest, IsGrown, IsMergeOrder, StepLatency, Barriers, Ordered;
    OneOrder(r1.order, r2.order);
  }

  lemma GrownSame(origin: map<Id, Id>, p: seq<Group>, q: seq<Group>)
    requires IsGrown(p, origin) && IsGrown(q, origin)
    ensures SamePartition(p, q)
  {
    hide Together, Family, Members;
    forall u, v ensures Together(p, u, v) <==> Together(q, u, v) {
      TogetherAreMembers(p, u, v);
      TogetherAreMembers(q, u, v);
    }
  }

  /** GreedyTP is reproducible where no function is equally near two barriers: any two runs return
      the same blocks, whatever order the maps are walked in. */
  lemma RunsAgree(app: Application, r1: Run, r2: Run)
    requires RunOK(app, r1) && RunOK(app, r2) && OneNearest(app.nodes, r1.barriers)
    ensures SamePartition(Outcome(app, r1), Outcome(app, r2))
  {
    hide SamePartition, Nearest, IsGrown, IsMergeOrder, IsTieBroken, FewestMerges, OneNearest, Barriers, SafeGroups;
    SameBarriers(app, r1, r2);
    OneOriginMap(app.nodes, r1.barriers, r1.dist, r1.origin, r2.dist, r2.origin);
    GrownSame(r1.origin, r1.grown, r2.grown);
    SafeSame(app.nodes, app.maxMemoryMB, r1.grown, r2.grown);
    PassSame(app, SafeGroups(app.nodes, app.maxMemoryMB, r1.grown), SafeGroups(app.nodes, app.maxMemoryMB, r2.grown),
      r1.order);
  }

  // ---- and the same numbers ----

  lemma FitsExactly(app: Application, p: seq<Group>)
    requires Members(p) != {}
    ensures MemoryFits(app, p) <==> forall f :: f in Members(p) ==> At(app.nodes, f).memoryMB <= app.maxMemoryMB
  {
    if MemoryFits(app, p) {
      forall f | f in Members(p) ensures At(app.nodes, f).memoryMB <= app.maxMemoryMB {
        var i :| 0 <= i < |p| && f in p[i];
        assert p[i] in p;
      }
    }
    if forall f :: f in Members(p) ==> At(app.nodes, f).memoryMB <= app.maxMemoryMB {
      var x :| x in Members(p);
      assert At(app.nodes, x).memoryMB >= 0;
      forall g | g in p ensures GroupMemory(app.nodes, g) <= app.maxMemoryMB {
        var i :| 0 <= i < |p| && p[i] == g;
        assert forall f :: f in p[i] ==> f in Members(p);
      }
    }
  }

  lemma {:induction false} SameCuts(p: seq<Group>, q: seq<Group>, path: seq<Id>)
    requires SamePartition(p, q)
    ensures PathCuts(p, path) == PathCuts(q, path)
  {
    hide IsCut, Family, Members, Together;
    if |path| >= 2 {
      SameCuts(p, q, path[..|path| - 1]);
      CutMeaning(p, path[|path| - 2], path[|path| - 1]);
      CutMeaning(q, path[|path| - 2], path[|path| - 1]);
    }
  }

  lemma SameMetrics(app: Application, p: seq<Group>, q: seq<Group>)
    requires WellFormed(app) && SamePartition(p, q) && {} != Members(p) <= Elems(app.functions)
    ensures MetricsOf(app, p) == MetricsOf(app, q)
  {
    hide TotalCostUSD, PathCuts, MemoryFits, WellFormed, Block, Family, Members, CriticalPath, SamePartition;
    SamePartitionMembers(p, q);
    forall f | f in Members(p) ensures Block(p, f) == Block(q, f) { SameBlocks(p, q, f); }
    BillByBlocks(app, p, q);
    SameCuts(p, q, CriticalPath(app));
    FitsExactly(app, p);
    FitsExactly(app, q);
  }

  lemma SamePartitionMembers(p: seq<Group>, q: seq<Group>)
    requires SamePartition(p, q)
    ensures Family(p) && Family(q) && Members(p) == Members(q)
  { }

  /** So the reported cost, latency and feasibility are the same in every run. */
  lemma RunsReportTheSame(app: Application, r1: Run, r2: Run)
    requires WellFormed(app) && RunOK(app, r1) && RunOK(app, r2) && OneNearest(app.nodes, r1.barriers)
    ensures MetricsOf(app, Outcome(app, r1)) == MetricsOf(app, Outcome(app, r2))
  {
    hide WellFormed, Outcome, OneNearest, MetricsOf, Family, Members, SamePartition, Reaches;
    RunsAgree(app, r1, r2);
    HoldsExactlyReachable(app, r1);
    RootIsOwn(app, r1);
    var root := RootFunction(app).value;
    assert Reaches(app.nodes, r1.barriers, root);
    assert root in Members(Outcome(app, r1));
    SameMetrics(app, Outcome(app, r1), Outcome(app, r2));
  }

  // ---- where a function is equally near two barriers ----

  ghost function Listing(fs: set<Id>): (xs: seq<Id>)
    ensures Distinct(xs) && Elems(xs) == fs
  {
    if fs == {} then [] else
    var f :| f in fs;
    var rest := Listing(fs - {f});
    assert f !in rest by { assert f !in Elems(rest); }
    assert Elems(rest + [f]) == Elems(rest) + {f};
    rest + [f]
  }

  /** Every assignment to barriers is that of some list of groups. */
  lemma GrownExists(sources: set<Id>, origin: map<Id, Id>) returns (groups: seq<Group>)
    requires forall v :: v in origin ==> origin[v] in sources
    ensures IsGrown(groups, origin)
  {
    hide Distinct, Elems;
    var dict := map b | b in sources :: Listing(set v | v in origin && origin[v] == b);
    var order := Listing(sources);
    assert GroupedBy(dict, sources, origin) by {
      forall b | b in dict ensures forall v :: v in dict[b] <==> v in origin && origin[v] == b {
        InElems(dict[b]);
      }
    }
    InElems(order);
    groups := GroupsIn(dict, order);
    GroupsInGrown(dict, sources, origin, order);
  }

  lemma InElems(xs: seq<Id>)
    ensures forall f :: f in xs <==> f in Elems(xs)
  { }

  lemma NearestAgree(s: Store, sources: set<Id>, b: Id, c: Id, v: Id, n: nat, m: nat)
    requires IsNearest(s, sources, b, v, n) && IsNearest(s, sources, c, v, m)
    ensures n == m
  { }

  lemma NearestReassigned(s: Store, sources: set<Id>, dist: map<Id, nat>, origin: map<Id, Id>, v: Id, b: Id)
    requires Nearest(s, sources, dist, origin) && v in origin && IsNearest(s, sources, b, v, dist[v])
    ensures Nearest(s, sources, dist, origin[v := b])
  {
    hide Walk, Reaches;
    assert origin[v := b].Keys == origin.Keys;
  }

  /** Any nearest barrier of a function can become its own in some run. */
  lemma Reassigned(app: Application, run: Run, v: Id, b: Id, n: nat) returns (other: Run)
    requires RunOK(app, run) && IsNearest(app.nodes, run.barriers, b, v, n)
    ensures RunOK(app, other) && v in other.origin && other.origin[v] == b
  {
    hide FewestMerges, IsMergeOrder, IsTieBroken, IsGrown, Barriers, Reaches, Walk;
    assert v in run.dist;
    OriginIsNearest(app.nodes, run.barriers, run.dist, run.origin, v);
    NearestAgree(app.nodes, run.barriers, run.origin[v], b, v, run.dist[v], n);
    NearestReassigned(app.nodes, run.barriers, run.dist, run.origin, v, b);
    var grown := GrownExists(run.barriers, run.origin[v := b]);
    other := run.(origin := run.origin[v := b], grown := grown);
  }

  lemma WithItsBarrier(app: Application, run: Run, v: Id, b: Id)
    requires RunOK(app, run) && b in run.barriers && v in run.origin
    ensures Together(run.grown, v, b) <==> run.origin[v] == b
  {
    hide FewestMerges, IsMergeOrder, IsTieBroken, Barriers, Nearest;
    OwnBarrier(app, run, b);
  }

  /** Every run grows the same groups from its barriers exactly when no function is equally near two of
      them: otherwise the order in which a map is walked decides. */
  lemma GrownAgreeExactly(app: Application, run: Run)
    requires RunOK(app, run)
    ensures (forall r :: RunOK(app, r) ==> SamePartition(r.grown, run.grown)) <==>
      OneNearest(app.nodes, run.barriers)
  {
    hide RunOK, Nearest, IsGrown, IsNearest, Together, Family, Members;
    if OneNearest(app.nodes, run.barriers) {
      forall r | RunOK(app, r) ensures SamePartition(r.grown, run.grown) { GrownAgree(app, r, run); }
    } else {
      var b, c, v, n, m :| IsNearest(app.nodes, run.barriers, b, v, n) && IsNearest(app.nodes, run.barriers, c, v, m)
        && b != c;
      var r1 := Reassigned(app, run, v, b, n);
      var r2 := Reassigned(app, run, v, c, m);
      SameBarriers(app, r1, run);
      SameBarriers(app, r2, run);
      NearestIsBarrier(app.nodes, run.barriers, b, v, n);
      WithItsBarrier(app, r1, v, b);
      WithItsBarrier(app, r2, v, b);
    }
  }

  lemma NearestIsBarrier(s: Store, sources: set<Id>, b: Id, v: Id, n: nat)
    requires IsNearest(s, sources, b, v, n)
    ensures b in sources
  { }

  lemma GrownAgree(app: Application, r1: Run, r2: Run)
    requires RunOK(app, r1) && RunOK(app, r2) && OneNearest(app.nodes, r2.barriers)
    ensures SamePartition(r1.grown, r2.grown)
  {
    hide SamePartition, Nearest, IsGrown, IsMergeOrder, IsTieBroken, FewestMerges, OneNearest, Barriers;
    SameBarriers(app, r1, r2);
    OneOriginMap(app.nodes, r1.barriers, r1.dist, r1.origin, r2.dist, r2.origin);
    GrownSame(r1.origin, r1.grown, r2.grown);
  }
}
