/** Cut the critical path as latency demands, grow groups from the cuts, then merge greedily. */
module GreedyTP {
  import opened Sums
  import opened Domain
  import opened Families
  import opened Coarsening
  import opened Evaluation
  import opened Combinations
  import opened Bfs

  datatype PathEdge = PathEdge(from: Id, to: Id)

  function PathEdges(path: seq<Id>): seq<PathEdge>
    requires path != []
  {
    seq(|path| - 1, i requires 0 <= i < |path| - 1 => PathEdge(path[i], path[i + 1]))
  }

  // ---- step 1: the fewest merges the latency cap allows ----

  function StepLatency(base: nat, hop: int, edges: nat, k: nat): int {
    base + (edges - k) * hop
  }

  ghost predicate FewestMerges(base: nat, hop: int, cap: int, edges: nat, k: nat) {
    && k <= edges && StepLatency(base, hop, edges, k) <= cap
    && forall j :: 0 <= j < k ==> StepLatency(base, hop, edges, j) > cap
  }

  /** All choices of m merges give one latency, so either the first one is taken or none fits. */
  method TryMerges(cpEdges: seq<PathEdge>, base: nat, hop: int, cap: int, m: nat)
    returns (cuts: set<PathEdge>, ok: bool)
    requires m <= |cpEdges|
    ensures ok <==> StepLatency(base, hop, |cpEdges|, m) <= cap
    ensures ok ==> cuts == Elems(cpEdges) - Elems(cpEdges[..m])
  {
    var choices := Combinations.Combinations(cpEdges, m);
    FirstIsPrefix(cpEdges, m, 0, []);
    assert [] + cpEdges[0..0 + m] == cpEdges[..m];
    EveryChoiceHas(cpEdges, m, 0, []);
    hide Combos;
    cuts := {};
    for c := 0 to |choices|
      invariant c > 0 ==> StepLatency(base, hop, |cpEdges|, m) > cap
    {
      var merged := choices[c];
      assert merged in choices;
      var mergedSet := set e | e in merged;
      var external := |cpEdges| - |merged|;
      if base + external * hop <= cap {
        assert merged == cpEdges[..m];
        cuts := set e | e in cpEdges && e !in mergedSet;
        return cuts, true;
      }
    }
    ok := false;
  }

  /** The first number of merges that fits is the least; once the bare runtimes fit there is one. */
  method FindCuts(cpEdges: seq<PathEdge>, base: nat, hop: int, cap: int)
    returns (cuts: set<PathEdge>, found: bool, ghost k: nat)
    requires base <= cap
    ensures found && FewestMerges(base, hop, cap, |cpEdges|, k)
    ensures cuts == Elems(cpEdges) - Elems(cpEdges[..k])
  {
    hide StepLatency;
    cuts, found, k := {}, false, 0;
    for m := 0 to |cpEdges| + 1
      invariant forall j :: 0 <= j < m ==> StepLatency(base, hop, |cpEdges|, j) > cap
    {
      var ok;
      cuts, ok := TryMerges(cpEdges, base, hop, cap, m);
      if ok {
        return cuts, true, m;
      }
    }
    AllMergedFits(base, hop, |cpEdges|);
  }

  lemma AllMergedFits(base: nat, hop: int, edges: nat)
    ensures StepLatency(base, hop, edges, edges) == base
  { }

  lemma {:induction false} EveryChoiceHas<T>(xs: seq<T>, k: nat, start: nat, prefix: seq<T>)
    requires |prefix| <= k
    ensures forall c :: c in Combos(xs, k, start, prefix) ==> |c| == k
    decreases |xs| - start
  {
    if |prefix| < k && start < |xs| {
      EveryChoiceHas(xs, k, start + 1, prefix + [xs[start]]);
      EveryChoiceHas(xs, k, start + 1, prefix);
    }
  }

  // ---- step 2: groups grown from the barriers ----

  /** Map iteration: every element once, in an order callers learn nothing about. */
  method Enumerate(s: set<Id>) returns (xs: seq<Id>)
    ensures Distinct(xs) && Elems(xs) == s
  {
    xs := [];
    var rest := s;
    while rest != {}
      invariant Distinct(xs) && Elems(xs) + rest == s && Elems(xs) !! rest
      decreases rest
    {
      var x :| x in rest;
      assert x !in Elems(xs);
      assert Elems(xs + [x]) == Elems(xs) + {x};
      xs, rest := xs + [x], rest - {x};
    }
  }

  ghost predicate GroupedBy(dict: map<Id, Group>, sources: set<Id>, origin: map<Id, Id>) {
    && dict.Keys == sources
    && forall b :: b in dict ==> Distinct(dict[b]) && forall v :: v in dict[b] <==> v in origin && origin[v] == b
  }

  /** Breadth-first from every barrier at once. */
  method AssignToBarriers(s: Store, barriers: seq<Id>)
    returns (dict: map<Id, Group>, nodeToBarrier: map<Id, Id>, ghost dist: map<Id, nat>)
    requires Distinct(barriers)
    ensures Nearest(s, Elems(barriers), dist, nodeToBarrier)
    ensures GroupedBy(dict, Elems(barriers), nodeToBarrier)
  {
    hide BfsState, GroupedBy, Universe;
    ghost var sources := Elems(barriers);
    dict := map b | b in barriers :: [b];
    nodeToBarrier := map b | b in barriers :: b;
    dist := map b | b in barriers :: 0;
    var queue, head := barriers, 0;
    StartState(s, queue, dist, nodeToBarrier);
    StartGrouped(barriers);
    QueueWithinUniverse(s, sources, queue, head, 0, dist, nodeToBarrier);
    while head < |queue|
      invariant BfsState(s, sources, queue, head, 0, dist, nodeToBarrier)
      invariant GroupedBy(dict, sources, nodeToBarrier)
      invariant head <= |queue| <= |Universe(s, sources)|
      decreases |Universe(s, sources)| - head
    {
      queue, dict, nodeToBarrier, dist := VisitChildren(s, queue, head, dict, nodeToBarrier, dist, sources);
      NextKeeps(s, sources, queue, head, dist, nodeToBarrier);
      head := head + 1;
      QueueWithinUniverse(s, sources, queue, head, 0, dist, nodeToBarrier);
    }
    FinishedIsNearest(s, sources, queue, dist, nodeToBarrier);
  }

  lemma OriginKnown(s: Store, sources: set<Id>, queue: seq<Id>, head: nat, k: nat, dist: map<Id, nat>,
      origin: map<Id, Id>)
    requires BfsState(s, sources, queue, head, k, dist, origin) && head < |queue|
    ensures queue[head] in origin && queue[head] in dist && origin[queue[head]] in sources
    ensures origin.Keys == dist.Keys
  {
    assert queue[head] in queue;
  }

  lemma StartGrouped(barriers: seq<Id>)
    ensures GroupedBy(map b | b in barriers :: [b], Elems(barriers), map b | b in barriers :: b)
  { }

  method VisitChildren(s: Store, queue: seq<Id>, head: nat, dict: map<Id, Group>, nodeToBarrier: map<Id, Id>,
      ghost dist: map<Id, nat>, ghost sources: set<Id>)
    returns (queue': seq<Id>, dict': map<Id, Group>, nodeToBarrier': map<Id, Id>, ghost dist': map<Id, nat>)
    requires head < |queue| && BfsState(s, sources, queue, head, 0, dist, nodeToBarrier)
    requires GroupedBy(dict, sources, nodeToBarrier)
    ensures head < |queue'| && queue'[head] == queue[head]
    ensures BfsState(s, sources, queue', head, |At(s, queue[head]).children|, dist', nodeToBarrier')
    ensures GroupedBy(dict', sources, nodeToBarrier')
  {
    hide BfsState, GroupedBy;
    queue', dict', nodeToBarrier', dist' := queue, dict, nodeToBarrier, dist;
    var current := queue[head];
    OriginKnown(s, sources, queue, head, 0, dist, nodeToBarrier);
    GroupedKeys(dict, sources, nodeToBarrier);
    var barrier := nodeToBarrier[current];
    var children := At(s, current).children;
    for k := 0 to |children|
      invariant head < |queue'| && queue'[head] == current
      invariant BfsState(s, sources, queue', head, k, dist', nodeToBarrier')
      invariant GroupedBy(dict', sources, nodeToBarrier')
      invariant current in nodeToBarrier' && nodeToBarrier'[current] == barrier
      invariant barrier in dict'
    {
      var child := children[k];
      OriginKnown(s, sources, queue', head, k, dist', nodeToBarrier');
      if child !in nodeToBarrier' {
        PushKeeps(s, sources, queue', head, k, dist', nodeToBarrier');
        GroupedPush(dict', sources, nodeToBarrier', barrier, child);
        dist' := dist'[child := dist'[current] + 1];
        nodeToBarrier' := nodeToBarrier'[child := barrier];
        dict' := dict'[barrier := dict'[barrier] + [child]];
        queue' := queue' + [child];
      } else {
        SkipKeeps(s, sources, queue', head, k, dist', nodeToBarrier');
      }
    }
  }

  lemma GroupedKeys(dict: map<Id, Group>, sources: set<Id>, origin: map<Id, Id>)
    requires GroupedBy(dict, sources, origin)
    ensures forall b :: b in sources ==> b in dict
  { }

  lemma GroupedPush(dict: map<Id, Group>, sources: set<Id>, origin: map<Id, Id>, b: Id, c: Id)
    requires GroupedBy(dict, sources, origin) && b in dict && c !in origin
    ensures GroupedBy(dict[b := dict[b] + [c]], sources, origin[c := b])
  {
    assert c !in dict[b];
  }

  /** The dictionary's groups, in whatever order the map yields them. */
  function GroupsIn(dict: map<Id, Group>, order: seq<Id>): seq<Group>
    requires forall b :: b in order ==> b in dict
  {
    seq(|order|, i requires 0 <= i < |order| => assert order[i] in order; dict[order[i]])
  }

  /** Grown groups: a family holding exactly the functions reachable from a barrier, two of them
      together exactly when they share a nearest barrier. */
  ghost predicate IsGrown(groups: seq<Group>, origin: map<Id, Id>) {
    && Family(groups) && Members(groups) == origin.Keys
    && forall u, v :: u in origin && v in origin ==> (Together(groups, u, v) <==> origin[u] == origin[v])
  }

  lemma GroupOfBarrier(dict: map<Id, Group>, sources: set<Id>, origin: map<Id, Id>, order: seq<Id>, i: nat)
    requires GroupedBy(dict, sources, origin) && Elems(order) == sources && i < |order|
    requires forall b :: b in order ==> b in dict
    ensures forall v :: v in GroupsIn(dict, order)[i] <==> v in origin && origin[v] == order[i]
  {
    assert order[i] in order;
  }

  lemma GroupsInGrown(dict: map<Id, Group>, sources: set<Id>, origin: map<Id, Id>, order: seq<Id>)
    requires GroupedBy(dict, sources, origin) && Distinct(order) && Elems(order) == sources
    requires forall v :: v in origin ==> origin[v] in sources
    requires forall b :: b in order ==> b in dict
    ensures IsGrown(GroupsIn(dict, order), origin)
  {
    var groups := GroupsIn(dict, order);
    forall i | 0 <= i < |order| ensures forall v :: v in groups[i] <==> v in origin && origin[v] == order[i] {
      GroupOfBarrier(dict, sources, origin, order, i);
    }
    GroupsInFamily(dict, sources, origin, order);
    forall u, v | u in origin && v in origin && origin[u] == origin[v] ensures Together(groups, u, v) {
      assert origin[u] in Elems(order);
      var i :| 0 <= i < |order| && order[i] == origin[u];
      assert u in groups[i] && v in groups[i];
    }
    forall v ensures v in Members(groups) <==> v in origin {
      if v in origin { assert Together(groups, v, v); }
    }
  }

  lemma GroupsInFamily(dict: map<Id, Group>, sources: set<Id>, origin: map<Id, Id>, order: seq<Id>)
    requires GroupedBy(dict, sources, origin) && Distinct(order) && Elems(order) == sources
    requires forall b :: b in order ==> b in dict
    ensures Family(GroupsIn(dict, order))
  {
    var groups := GroupsIn(dict, order);
    forall i, k, j, l |
      0 <= i < |groups| && 0 <= k < |groups[i]| && 0 <= j < |groups| && 0 <= l < |groups[j]|
      && groups[i][k] == groups[j][l]
      ensures i == j && k == l
    {
      assert order[i] in order && order[j] in order;
      assert groups[i][k] in dict[order[i]] && groups[j][l] in dict[order[j]];
    }
  }

  // ---- ejection of functions that fit no group ----

  function Holding(s: Store, cap: int, g: Group, fits: bool): Group {
    if g == [] then [] else
    var rest, last := Holding(s, cap, g[..|g| - 1], fits), g[|g| - 1];
    if (At(s, last).memoryMB <= cap) == fits then rest + [last] else rest
  }

  function Ejected(s: Store, cap: int, g: Group): seq<Group> {
    if GroupMemory(s, g) <= cap then [g] else [Holding(s, cap, g, true)] + Singles(Holding(s, cap, g, false))
  }

  function SafeGroups(s: Store, cap: int, groups: seq<Group>): seq<Group> {
    if groups == [] then [] else
    SafeGroups(s, cap, groups[..|groups| - 1]) + Ejected(s, cap, groups[|groups| - 1])
  }

  method EjectOversized(s: Store, cap: int, g: Group) returns (safe: seq<Group>)
    ensures safe == Ejected(s, cap, g)
  {
    var memory := GroupMemoryMB(s, g);
    if memory <= cap {
      return [g];
    }
    var kept: Group, usedMem: nat, out: Group := [], 0, [];
    for i := 0 to |g|
      invariant kept == Holding(s, cap, g[..i], true) && out == Holding(s, cap, g[..i], false)
      invariant usedMem == 0 || usedMem <= cap
    {
      assert g[..i + 1][..i] == g[..i];
      if Max(usedMem, At(s, g[i]).memoryMB) <= cap {
        kept := kept + [g[i]];
        usedMem := Max(usedMem, At(s, g[i]).memoryMB);
      } else {
        out := out + [g[i]];
      }
    }
    assert g[..|g|] == g;
    safe := [kept] + Singles(out);
  }

  method MakeSafe(s: Store, cap: int, groups: seq<Group>) returns (safe: seq<Group>)
    ensures safe == SafeGroups(s, cap, groups)
  {
    safe := [];
    for i := 0 to |groups|
      invariant safe == SafeGroups(s, cap, groups[..i])
    {
      assert groups[..i + 1][..i] == groups[..i];
      var more := EjectOversized(s, cap, groups[i]);
      safe := safe + more;
    }
    assert groups[..|groups|] == groups;
  }

  lemma {:induction false} HoldingMeaning(s: Store, cap: int, g: Group, fits: bool)
    requires Distinct(g)
    ensures Distinct(Holding(s, cap, g, fits))
    ensures forall f :: f in Holding(s, cap, g, fits) <==> f in g && (At(s, f).memoryMB <= cap) == fits
  {
    if g != [] {
      HoldingMeaning(s, cap, g[..|g| - 1], fits);
      assert g == g[..|g| - 1] + [g[|g| - 1]];
    }
  }

  lemma EjectedFlat(s: Store, cap: int, g: Group)
    requires Distinct(g)
    ensures Distinct(Flat(Ejected(s, cap, g))) && Elems(Flat(Ejected(s, cap, g))) == Elems(g)
  {
    hide Holding, Flat, Singles, GroupMemory;
    var kept, out := Holding(s, cap, g, true), Holding(s, cap, g, false);
    HoldingMeaning(s, cap, g, true);
    HoldingMeaning(s, cap, g, false);
    FlatOne(g);
    FlatOne(kept);
    FlatSingles(out);
    FlatAppend([kept], Singles(out));
    DistinctAppend(kept, out);
    forall f ensures f in kept + out <==> f in g { }
  }

  /** Ejection loses and duplicates no function. */
  lemma {:induction false} SafeFlat(s: Store, cap: int, groups: seq<Group>)
    requires Distinct(Flat(groups))
    ensures Distinct(Flat(SafeGroups(s, cap, groups)))
    ensures Elems(Flat(SafeGroups(s, cap, groups))) == Elems(Flat(groups))
  {
    if groups != [] {
      var init, last := groups[..|groups| - 1], groups[|groups| - 1];
      var n := |Flat(init)|;
      assert Flat(groups) == Flat(init) + last;
      assert Flat(init) == Flat(groups)[..n] && last == Flat(groups)[n..];
      hide Flat, SafeGroups, Ejected;
      SafeFlat(s, cap, init);
      EjectedFlat(s, cap, last);
      SafeSnoc(s, cap, groups);
      FlatAppend(SafeGroups(s, cap, init), Ejected(s, cap, last));
      var a, b := Flat(SafeGroups(s, cap, init)), Flat(Ejected(s, cap, last));
      forall x | x in a ensures x !in b {
        assert x in Elems(a) && (x in b ==> x in Elems(b));
      }
      DistinctAppend(a, b);
      assert Elems(a + b) == Elems(a) + Elems(b);
      assert Elems(Flat(init) + last) == Elems(Flat(init)) + Elems(last);
    }
  }

  lemma SafeSnoc(s: Store, cap: int, groups: seq<Group>)
    requires groups != []
    ensures SafeGroups(s, cap, groups)
            == SafeGroups(s, cap, groups[..|groups| - 1]) + Ejected(s, cap, groups[|groups| - 1])
  { }

  lemma {:induction false} SafeWhenAllFit(s: Store, cap: int, groups: seq<Group>)
    requires forall g :: g in groups ==> GroupMemory(s, g) <= cap
    ensures SafeGroups(s, cap, groups) == groups
  {
    hide GroupMemory;
    if groups != [] {
      SafeWhenAllFit(s, cap, groups[..|groups| - 1]);
      assert groups == groups[..|groups| - 1] + [groups[|groups| - 1]];
    }
  }
}
