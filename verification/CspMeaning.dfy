/** What a label's numbers are in the finished partition, and when the search is bound to succeed. */
module CspMeaning {
  import opened Sums
  import opened Domain
  import opened Billing
  import opened Coarsening
  import opened TradeoffReport
  import opened Families
  import opened Csp
  import opened CspSearch
  import opened CostlessCsp

  // ---- a label's numbers are the partition's ----

  /** The transfer charged on the cut pairs of a path. */
  ghost function PathTransfer(s: Store, groups: seq<Group>, path: seq<Id>): real {
    if |path| < 2 then 0.0 else
    var u, v := path[|path| - 2], path[|path| - 1];
    PathTransfer(s, groups, path[..|path| - 1]) + if IsCut(groups, u, v) then DataTransferCostUSD(s, u, v) else 0.0
  }

  lemma PathSnoc(s: Store, groups: seq<Group>, path: seq<Id>, v: Id)
    ensures path != [] ==>
      PathCuts(groups, path + [v]) == PathCuts(groups, path) + (if IsCut(groups, path[|path| - 1], v) then 1 else 0)
    ensures path != [] ==>
      PathTransfer(s, groups, path + [v]) == PathTransfer(s, groups, path)
        + (if IsCut(groups, path[|path| - 1], v) then DataTransferCostUSD(s, path[|path| - 1], v) else 0.0)
    ensures path == [] ==> PathCuts(groups, path + [v]) == 0 && PathTransfer(s, groups, path + [v]) == 0.0
  {
    assert (path + [v])[..|path|] == path;
  }

  lemma SameGroupNotCut(groups: seq<Group>, i: nat, u: Id, v: Id)
    requires Family(groups) && i < |groups| && u in groups[i] && v in groups[i]
    ensures !IsCut(groups, u, v)
  {
    FamilyOwner(groups, u, i);
    FamilyOwner(groups, v, i);
  }

  lemma NextGroupIsCut(groups: seq<Group>, i: nat, j: nat, u: Id, v: Id)
    requires Family(groups) && i < |groups| && j < |groups| && i != j && u in groups[i] && v in groups[j]
    ensures IsCut(groups, u, v)
  {
    FamilyOwner(groups, u, i);
    FamilyOwner(groups, v, j);
    assert groups[i][0] != groups[j][0];
  }

  /** Entering a group crosses a boundary; another of its members crosses none. */
  lemma WalkStep(s: Store, groups: seq<Group>, i: nat, path: seq<Id>, j: nat)
    requires Family(groups) && i < |groups| && 1 <= j <= |groups[i]|
    requires j == 1 && path != [] ==>
      i > 0 && groups[i - 1] != [] && path[|path| - 1] == groups[i - 1][|groups[i - 1]| - 1]
    requires j > 1 ==> path != [] && path[|path| - 1] == groups[i][j - 2]
    ensures PathCuts(groups, path + [groups[i][j - 1]]) == PathCuts(groups, path) + if path == [] || j > 1 then 0 else 1
    ensures PathTransfer(s, groups, path + [groups[i][j - 1]]) == PathTransfer(s, groups, path)
      + if path == [] || j > 1 then 0.0 else DataTransferCostUSD(s, path[|path| - 1], groups[i][0])
  {
    hide DataTransferCostUSD, IsCut, Family;
    var v := groups[i][j - 1];
    if path == [] { StartsUncut(s, groups); }
    PathSnoc(s, groups, path, v);
    if j > 1 {
      SameGroupNotCut(groups, i, groups[i][j - 2], v);
    } else if path != [] {
      NextGroupIsCut(groups, i - 1, i, path[|path| - 1], v);
    }
  }

  lemma StartsUncut(s: Store, groups: seq<Group>)
    ensures PathCuts(groups, []) == 0 && PathTransfer(s, groups, []) == 0.0
  { }

  /** Walking through one group after the groups before it crosses one boundary. */
  lemma {:induction false} WalkGroup(s: Store, groups: seq<Group>, i: nat, path: seq<Id>, j: nat)
    requires Family(groups) && i < |groups| && 1 <= j <= |groups[i]|
    requires path != [] ==> i > 0 && groups[i - 1] != [] && path[|path| - 1] == groups[i - 1][|groups[i - 1]| - 1]
    ensures PathCuts(groups, path + groups[i][..j]) == PathCuts(groups, path) + if path == [] then 0 else 1
    ensures PathTransfer(s, groups, path + groups[i][..j]) == PathTransfer(s, groups, path)
      + if path == [] then 0.0 else DataTransferCostUSD(s, path[|path| - 1], groups[i][0])
  {
    hide DataTransferCostUSD, IsCut, Family, PathCuts, PathTransfer;
    var g := groups[i];
    var before := path + g[..j - 1];
    assert path + g[..j] == before + [g[j - 1]];
    if j == 1 {
      assert before == path;
    } else {
      WalkGroup(s, groups, i, path, j - 1);
    }
    WalkStep(s, groups, i, before, j);
  }

  /** One more group crosses one boundary, from the last member before it to its first. */
  lemma SegmentStep(s: Store, groups: seq<Group>, m: nat)
    requires Family(groups) && 1 <= m <= |groups| && forall i :: 0 <= i < m ==> groups[i] != []
    ensures PathCuts(groups, Flat(groups[..m])) == PathCuts(groups, Flat(groups[..m - 1])) + if m == 1 then 0 else 1
    ensures PathTransfer(s, groups, Flat(groups[..m])) == PathTransfer(s, groups, Flat(groups[..m - 1]))
      + if m == 1 then 0.0 else DataTransferCostUSD(s, groups[m - 2][|groups[m - 2]| - 1], groups[m - 1][0])
  {
    hide DataTransferCostUSD, IsCut, Family, PathCuts, PathTransfer, Flat;
    var before, g := groups[..m - 1], groups[m - 1];
    assert groups[..m] == before + [g] && g[..|g|] == g;
    FlatSnoc(before, g);
    if m == 1 { NothingFlat(); } else { FlatLast(before); }
    WalkGroup(s, groups, m - 1, Flat(before), |g|);
  }

  lemma NothingFlat()
    ensures Flat([]) == []
  { }

  lemma {:induction false} SegmentsCut(s: Store, groups: seq<Group>, m: nat)
    requires Family(groups) && m <= |groups| && forall i :: 0 <= i < m ==> groups[i] != []
    ensures PathCuts(groups, Flat(groups[..m])) == if m == 0 then 0 else m - 1
    ensures PathTransfer(s, groups, Flat(groups[..m])) == CutTransfer(s, groups[..m])
  {
    hide DataTransferCostUSD, IsCut, Family;
    if m > 0 {
      SegmentsCut(s, groups, m - 1);
      SegmentStep(s, groups, m);
      assert groups[..m][..m - 1] == groups[..m - 1];
    }
  }

  lemma {:induction false} TrailIsPrefix(chain: seq<Id>, t: seq<Id>)
    requires Distinct(chain) && IsTrail(chain, t)
    ensures |t| <= |chain| && t == chain[..|t|]
  {
    var n := |t| - 1;
    if n == 0 {
      assert t == [chain[0]];
    } else {
      TrailIsPrefix(chain, t[..n]);
      IndexIsUnique(chain, n - 1);
      assert t[n - 1] == chain[n - 1];
      assert t == t[..n] + [chain[n]];
    }
  }

  lemma LabelCoversPrefix(app: Application, chain: seq<Id>, i: nat, l: CspLabel)
    requires Distinct(chain) && i < |chain| && LabelOK(app, chain, chain[i], l)
    ensures Flat(l.partitioning) == chain[..i + 1]
  {
    hide IsTrail, Grown, CutTransfer, GroupMemory, GroupRuntimeMs;
    var t := Flat(l.partitioning);
    TrailIsPrefix(chain, t);
    assert t[|t| - 1] == chain[|t| - 1];
  }

  /** Along its own trail, a label's hops and transfer are those of the finished partition. */
  lemma LabelCutsAlongTrail(app: Application, u: Id, l: CspLabel)
    requires Distinct(app.functions) && LabelOK(app, CriticalPath(app), u, l)
    ensures PathCuts(FinalGroups(app, l.partitioning), Flat(l.partitioning)) == |l.partitioning| - 1
    ensures PathTransfer(app.nodes, FinalGroups(app, l.partitioning), Flat(l.partitioning)) == l.cost
  {
    hide MergeProfitUSD, IsTrail, CutTransfer, PathTransfer, PathCuts, GroupRuntimeMs, Family;
    var ps, gs := l.partitioning, FinalGroups(app, l.partitioning);
    FinalIsPartition(app, u, l);
    assert gs[..|ps|] == ps;
    forall i | 0 <= i < |ps| ensures gs[i] != [] { assert ps[i] in ps && Grown(app.nodes, ps[i]); }
    SegmentsCut(app.nodes, gs, |ps|);
  }

  /** On a repetition-free critical path the chosen label's latency and cost are the partition's own:
      `CalculateMetrics` will report exactly this latency, so the latency cap holds of the result. */
  lemma LabelNumbersAreMetrics(app: Application, l: CspLabel)
    requires Distinct(app.functions)
    requires var chain := CriticalPath(app);
      chain != [] && Distinct(chain) && LabelOK(app, chain, chain[|chain| - 1], l)
    ensures Latency(app, FinalGroups(app, l.partitioning)) == l.latency
    ensures PathTransfer(app.nodes, FinalGroups(app, l.partitioning), CriticalPath(app)) == l.cost
    ensures PathCuts(FinalGroups(app, l.partitioning), CriticalPath(app)) == |l.partitioning| - 1
  {
    hide IsTrail, CutTransfer, PathTransfer, PathCuts, GroupRuntimeMs, Family, Flat, Grown, FinalGroups;
    var chain, n := CriticalPath(app), |CriticalPath(app)| - 1;
    LabelCoversPrefix(app, chain, n, l);
    assert chain[..n + 1] == chain;
    LabelCutsAlongTrail(app, chain[n], l);
  }

  /** The answer's own latency meets the cap, as measured on the partition and not on the label. */
  lemma AnswerMeetsCap(app: Application, labels: Frontiers, generated: set<Item>, l: CspLabel)
    requires CriticalPath(app) != [] && Distinct(CriticalPath(app)) && Distinct(app.functions)
    requires LoopState(app, CriticalPath(app), labels, [], generated) && Outcome(app, labels, Some(l))
    ensures Latency(app, FinalGroups(app, l.partitioning)) == l.latency <= app.maxLatencyMS
  {
    hide Latency, FinalGroups, LabelOK, Pending, CriticalPath;
    var end := CriticalPath(app)[|CriticalPath(app)| - 1];
    assert Item(end, l) in generated;
    LabelNumbersAreMetrics(app, l);
  }

  // ---- what a repeated function does to all that ----

  ghost predicate TakesTime(s: Store, path: seq<Id>) {
    forall f :: f in path ==> At(s, f).runtimeMs > 0
  }

  /** Lengthening a path prefix never lowers its runtime or its cuts. */
  lemma {:induction false} PrefixGrows(s: Store, groups: seq<Group>, path: seq<Id>, i: nat, j: nat)
    requires i <= j <= |path|
    ensures GroupRuntimeMs(s, path[..i]) <= GroupRuntimeMs(s, path[..j])
    ensures TakesTime(s, path) ==> GroupRuntimeMs(s, path[..i]) + (j - i) <= GroupRuntimeMs(s, path[..j])
    ensures PathCuts(groups, path[..i]) <= PathCuts(groups, path[..j])
    decreases j
  {
    hide IsCut;
    if i < j {
      PrefixGrows(s, groups, path, i, j - 1);
      assert path[..j][..j - 1] == path[..j - 1] && path[j - 1] in path;
    }
  }

  /** A trail skips whatever lies between a function's occurrences: it is never slower than the part of
      the path it stands for, and as long only if it is that part. */
  lemma {:induction false} TrailSkips(s: Store, groups: seq<Group>, chain: seq<Id>, t: seq<Id>)
    requires IsTrail(chain, t)
    ensures var p := LastIndex(chain, t[|t| - 1]);
      && |t| <= p + 1 <= |chain|
      && GroupRuntimeMs(s, t) <= GroupRuntimeMs(s, chain[..p + 1])
      && (TakesTime(s, chain) ==> GroupRuntimeMs(s, t) + (p + 1 - |t|) <= GroupRuntimeMs(s, chain[..p + 1]))
      && PathCuts(groups, t) <= PathCuts(groups, chain[..p + 1])
      && (|t| == p + 1 ==> t == chain[..p + 1])
  {
    hide IsCut, LastIndex, GroupRuntimeMs, PathCuts, TakesTime;
    var init, v := t[..|t| - 1], t[|t| - 1];
    assert t == init + [v];
    if |t| == 1 {
      LastIndexLater(chain, 0);
      assert t == chain[..1];
      PrefixGrows(s, groups, chain, 1, LastIndex(chain, v) + 1);
    } else {
      TrailSkips(s, groups, chain, init);
      var q := LastIndex(chain, init[|init| - 1]);
      LastIndexLater(chain, q + 1);
      LastIndexAt(chain, init[|init| - 1]);
      SnocBoth(s, groups, init, chain, q, v);
      PrefixGrows(s, groups, chain, q + 2, LastIndex(chain, v) + 1);
    }
  }

  /** A step both the trail and the path prefix it stands for take. */
  lemma SnocBoth(s: Store, groups: seq<Group>, init: seq<Id>, chain: seq<Id>, q: nat, v: Id)
    requires init != [] && q + 1 < |chain| && chain[q + 1] == v && chain[q] == init[|init| - 1]
    ensures GroupRuntimeMs(s, init + [v]) - GroupRuntimeMs(s, init)
      == GroupRuntimeMs(s, chain[..q + 2]) - GroupRuntimeMs(s, chain[..q + 1])
    ensures PathCuts(groups, init + [v]) - PathCuts(groups, init)
      == PathCuts(groups, chain[..q + 2]) - PathCuts(groups, chain[..q + 1])
    ensures init == chain[..q + 1] ==> init + [v] == chain[..q + 2]
  {
    hide IsCut, GroupRuntimeMs, PathCuts;
    assert chain[..q + 2] == chain[..q + 1] + [v];
    RuntimeSnoc(s, init, v);
    RuntimeSnoc(s, chain[..q + 1], v);
    PathSnoc(s, groups, init, v);
    PathSnoc(s, groups, chain[..q + 1], v);
  }

  lemma LastIndexAt(chain: seq<Id>, f: Id)
    ensures LastIndex(chain, f) < |chain| && f in chain ==> chain[LastIndex(chain, f)] == f
  {
    if f in chain { IndexOfMember(chain, f); }
  }

  /** Exactly what a repetition costs: an end label covers the whole path if and only if the path
      repeats nothing. Its latency is never above the partition's, and where functions take time the
      two agree if and only if the path repeats nothing. */
  lemma LabelLatencyExactly(app: Application, l: CspLabel)
    requires Distinct(app.functions) && app.networkHopMS >= 0
    requires var chain := CriticalPath(app); chain != [] && LabelOK(app, chain, chain[|chain| - 1], l)
    ensures Flat(l.partitioning) == CriticalPath(app) <==> Distinct(CriticalPath(app))
    ensures l.latency <= Latency(app, FinalGroups(app, l.partitioning))
    ensures TakesTime(app.nodes, CriticalPath(app)) ==>
      (l.latency == Latency(app, FinalGroups(app, l.partitioning)) <==> Distinct(CriticalPath(app)))
  {
    hide IsTrail, CutTransfer, PathTransfer, PathCuts, GroupRuntimeMs, Grown, FinalGroups, LastIndex, Flat, TakesTime;
    var chain, t, gs := CriticalPath(app), Flat(l.partitioning), FinalGroups(app, l.partitioning);
    var n := |chain| - 1;
    LastIndexLater(chain, n);
    TrailSkips(app.nodes, gs, chain, t);
    TrailIncreases(chain, t);
    LabelCutsAlongTrail(app, chain[n], l);
    assert chain[..n + 1] == chain;
    HopsMonotone(|l.partitioning| - 1, PathCuts(gs, chain), app.networkHopMS);
    if Distinct(chain) { LabelNumbersAreMetrics(app, l); LabelCoversPrefix(app, chain, n, l); }
  }

  ghost predicate MeetsCap(app: Application, groups: seq<Group>, cap: int) {
    Latency(app, groups) <= cap
  }

  /** So the answer is sure to meet the cap it was chosen under exactly when the path repeats nothing. */
  lemma MeetsEveryCapExactly(app: Application, l: CspLabel)
    requires Distinct(app.functions) && app.networkHopMS >= 0 && TakesTime(app.nodes, CriticalPath(app))
    requires var chain := CriticalPath(app); chain != [] && LabelOK(app, chain, chain[|chain| - 1], l)
    ensures (forall cap :: l.latency <= cap ==> MeetsCap(app, FinalGroups(app, l.partitioning), cap)) <==>
      Distinct(CriticalPath(app))
  {
    hide LabelOK, Latency, FinalGroups, CriticalPath, TakesTime;
    LabelLatencyExactly(app, l);
    assert MeetsCap(app, FinalGroups(app, l.partitioning), l.latency)
      <==> Latency(app, FinalGroups(app, l.partitioning)) <= l.latency;
  }

  // ---- success ----

  /** What the finished search knows of a kept label and the function after it. */
  lemma KeptIsExpanded(app: Application, chain: seq<Id>, labels: Frontiers, generated: set<Item>, u: Id, v: Id,
      x: CspLabel)
    requires LoopState(app, chain, labels, [], generated)
    requires u in labels && x in labels[u] && Follows(chain, u, v)
    ensures LabelOK(app, chain, u, x) && x.partitioning != []
    ensures v in labels && Covered(labels[v], CutLabel(app, x, u, v))
    ensures Gate(app, x, v) ==> Covered(labels[v], MergeLabel(app, x, v))
  {
    hide LabelOK, Antichain, Covered, CutLabel, MergeLabel, Gate, Follows;
    assert Item(u, x) in generated;
    assert Expanded(app, chain, Item(u, x), generated);
    assert Item(v, CutLabel(app, x, u, v)) in generated;
  }

  lemma CoveredBelow(f: seq<CspLabel>, l: CspLabel, k: CspLabel)
    requires Covered(f, l) && Dominates(l, k)
    ensures Covered(f, k)
  {
    var x :| x in f && Dominates(x, l);
    assert Dominates(x, k);
  }

  lemma StartIsCovered(app: Application, chain: seq<Id>, labels: Frontiers, generated: set<Item>)
    requires chain != [] && LoopState(app, chain, labels, [], generated)
    requires Item(chain[0], StartLabel(app, chain[0])) in generated
    ensures chain[0] in labels && Covered(labels[chain[0]], StartLabel(app, chain[0]))
  {
    hide LabelOK, Antichain, Covered, StartLabel, Pending, Sound;
  }

  /** The latency of a path prefix with every function alone. */
  ghost function UnfusedAt(app: Application, i: nat): int
    requires i <= |CriticalPath(app)|
  {
    GroupRuntimeMs(app.nodes, CriticalPath(app)[..i])
      + PathCuts(Singles(app.functions), CriticalPath(app)[..i]) * app.networkHopMS
  }

  lemma UnfusedGrows(app: Application, i: nat, j: nat)
    requires i <= j <= |CriticalPath(app)| && (app.networkHopMS >= 0 || i == j)
    ensures UnfusedAt(app, i) <= UnfusedAt(app, j)
  {
    hide PathCuts, GroupRuntimeMs, CriticalPath;
    var path, none := CriticalPath(app), Singles(app.functions);
    PrefixGrows(app.nodes, none, path, i, j);
    if i < j { HopsMonotone(PathCuts(none, path[..i]), PathCuts(none, path[..j]), app.networkHopMS); }
  }

  lemma UnfusedStep(app: Application, p: nat)
    requires p + 1 < |CriticalPath(app)| && CriticalPath(app)[p] != CriticalPath(app)[p + 1]
    ensures UnfusedAt(app, p + 2)
            == UnfusedAt(app, p + 1) + At(app.nodes, CriticalPath(app)[p + 1]).runtimeMs + app.networkHopMS
  {
    hide PathCuts, GroupRuntimeMs, IsCut, Known;
    var path, v := CriticalPath(app), CriticalPath(app)[p + 1];
    assert path[..p + 2] == path[..p + 1] + [v];
    assert path[p] in path && v in path;
    AloneIsCut(app.functions, path[p], v);
    RuntimeSnoc(app.nodes, path[..p + 1], v);
    PathSnoc(app.nodes, Singles(app.functions), path[..p + 1], v);
    HopsStep(PathCuts(Singles(app.functions), path[..p + 1]) + 1, app.networkHopMS);
  }

  lemma LastOfNext(chain: seq<Id>, p: nat)
    requires p + 1 < |chain| && LastIndex(chain, chain[p]) == p
    ensures chain[p] != chain[p + 1] && Follows(chain, chain[p], chain[p + 1])
    ensures p + 1 <= LastIndex(chain, chain[p + 1]) < |chain|
    ensures Distinct(chain) ==> LastIndex(chain, chain[p + 1]) == p + 1
  {
    LastIndexLater(chain, p + 1);
    if Distinct(chain) { IndexIsUnique(chain, p + 1); }
  }

  /** From a kept label no slower than the unfused prefix, some kept end label is no slower than the
      unfused path. */
  lemma {:induction false} ReachEnd(app: Application, labels: Frontiers, generated: set<Item>, p: nat, x: CspLabel)
    returns (y: CspLabel)
    requires var chain := CriticalPath(app);
      && LoopState(app, chain, labels, [], generated) && p < |chain| && LastIndex(chain, chain[p]) == p
      && chain[p] in labels && x in labels[chain[p]] && x.latency <= UnfusedAt(app, p + 1)
      && (app.networkHopMS >= 0 || Distinct(chain))
    ensures var chain := CriticalPath(app); var end := chain[|chain| - 1];
      end in labels && y in labels[end] && y.latency <= UnfusedAt(app, |chain|)
    decreases |CriticalPath(app)| - p
  {
    hide LoopState, LastIndex, UnfusedAt, CriticalPath, LabelOK;
    var chain := CriticalPath(app);
    if p == |chain| - 1 {
      y := x;
    } else {
      var u, v := chain[p], chain[p + 1];
      LastOfNext(chain, p);
      KeptIsExpanded(app, chain, labels, generated, u, v, x);
      var z :| z in labels[v] && Dominates(z, CutLabel(app, x, u, v));
      var q := LastIndex(chain, v);
      IndexOfMember(chain, v);
      UnfusedStep(app, p);
      UnfusedGrows(app, p + 2, q + 1);
      y := ReachEnd(app, labels, generated, q, z);
    }
  }

  /** The search answers whenever the unfused critical path already meets the latency cap, also when
      the path repeats functions. */
  lemma SucceedsWhenUnfusedFits(app: Application, labels: Frontiers, generated: set<Item>, best: Option<CspLabel>)
    requires var chain := CriticalPath(app);
      && chain != [] && (app.networkHopMS >= 0 || Distinct(chain))
      && LoopState(app, chain, labels, [], generated) && Item(chain[0], StartLabel(app, chain[0])) in generated
      && Outcome(app, labels, best)
    requires Latency(app, Singles(app.functions)) <= app.maxLatencyMS
    ensures best.Some?
  {
    hide LoopState, LastIndex, StartLabel, CriticalPath;
    var chain := CriticalPath(app);
    StartIsCovered(app, chain, labels, generated);
    var x :| x in labels[chain[0]] && Dominates(x, StartLabel(app, chain[0]));
    StartsUnfused(app);
    LastIndexLater(chain, 0);
    IndexOfMember(chain, chain[0]);
    if Distinct(chain) { IndexIsUnique(chain, 0); }
    UnfusedGrows(app, 1, LastIndex(chain, chain[0]) + 1);
    var y := ReachEnd(app, labels, generated, LastIndex(chain, chain[0]), x);
    assert chain[..|chain|] == chain;
  }

  lemma StartsUnfused(app: Application)
    requires CriticalPath(app) != []
    ensures StartLabel(app, CriticalPath(app)[0]).latency == UnfusedAt(app, 1)
  {
    RuntimeSnoc(app.nodes, [], CriticalPath(app)[0]);
    assert CriticalPath(app)[..1] == [] + [CriticalPath(app)[0]];
  }

  lemma UnfusedLatency(app: Application)
    requires CriticalPath(app) != [] && Distinct(CriticalPath(app))
    ensures Latency(app, Singles(app.functions))
            == GroupRuntimeMs(app.nodes, CriticalPath(app)) + (|CriticalPath(app)| - 1) * app.networkHopMS
  {
    hide GroupRuntimeMs, PathCuts;
    UnfusedCuts(app.functions, CriticalPath(app));
    RepetitionsMeaning(CriticalPath(app));
  }

  // ---- the regime in which the search is exact ----

  /** Each next function passes the gate against the whole path before it. */
  ghost predicate PrefixesPay(app: Application, chain: seq<Id>) {
    forall i :: 1 <= i < |chain| ==>
      && MergeProfitUSD(app.nodes, chain[..i], [chain[i]]) > 0.0
      && Max(GroupMemory(app.nodes, chain[..i]), At(app.nodes, chain[i]).memoryMB) <= app.maxMemoryMB
  }

  ghost function AllMerged(app: Application, chain: seq<Id>, i: nat): CspLabel
    requires i < |chain|
  {
    CspLabel(0.0, GroupRuntimeMs(app.nodes, chain[..i + 1]), GroupMemory(app.nodes, chain[..i + 1]), [chain[..i + 1]])
  }

  /** With a positive hop, a label as fast as a single group is a single group. */
  lemma FastestIsOneGroup(app: Application, chain: seq<Id>, i: nat, l: CspLabel)
    requires Distinct(chain) && i < |chain| && app.networkHopMS > 0
    requires LabelOK(app, chain, chain[i], l) && l.latency <= GroupRuntimeMs(app.nodes, chain[..i + 1])
    ensures l.partitioning == [chain[..i + 1]] && l.latency == GroupRuntimeMs(app.nodes, chain[..i + 1])
    ensures l.groupMemory == GroupMemory(app.nodes, chain[..i + 1])
  {
    hide IsTrail, Grown, CutTransfer, GroupMemory, GroupRuntimeMs;
    LabelCoversPrefix(app, chain, i, l);
    var ps := l.partitioning;
    PositiveHops(|ps| - 1, app.networkHopMS);
    assert |ps| == 1;
    assert [] + [ps[0]] == ps;
    FlatSnoc([], ps[0]);
    assert Flat(ps) == Flat([]) + ps[0];
    assert Flat([]) + ps[0] == ps[0];
  }

  lemma PositiveHops(n: nat, hop: int)
    requires hop > 0
    ensures n * hop >= 0 && (n * hop == 0 ==> n == 0)
  { }

  lemma StartIsMerged(app: Application, chain: seq<Id>)
    requires chain != []
    ensures Dominates(StartLabel(app, chain[0]), AllMerged(app, chain, 0))
  {
    RuntimeSnoc(app.nodes, [], chain[0]);
    assert chain[..1] == [] + [chain[0]];
  }

  lemma MergedGate(app: Application, chain: seq<Id>, i: nat, x: CspLabel)
    requires 0 < i < |chain| && PrefixesPay(app, chain)
    requires x.partitioning == [chain[..i]] && x.groupMemory == GroupMemory(app.nodes, chain[..i])
    ensures Gate(app, x, chain[i])
  {
    hide GroupMemory, MergeProfitUSD, Max;
    assert x.partitioning[|x.partitioning| - 1] == chain[..i];
  }

  lemma MergedStep(app: Application, chain: seq<Id>, i: nat, x: CspLabel)
    requires 0 < i < |chain| && x.partitioning != [] && Dominates(x, AllMerged(app, chain, i - 1))
    ensures Dominates(MergeLabel(app, x, chain[i]), AllMerged(app, chain, i))
  {
    hide GroupRuntimeMs, GroupMemory, Max;
    assert chain[..i + 1] == chain[..i] + [chain[i]];
    RuntimeSnoc(app.nodes, chain[..i], chain[i]);
  }

  lemma {:induction false} SomeLabelIsMerged(app: Application, chain: seq<Id>, labels: Frontiers, generated: set<Item>,
      i: nat)
    requires Distinct(chain) && i < |chain| && app.networkHopMS > 0 && PrefixesPay(app, chain)
    requires LoopState(app, chain, labels, [], generated) && Item(chain[0], StartLabel(app, chain[0])) in generated
    ensures chain[i] in labels && Covered(labels[chain[i]], AllMerged(app, chain, i))
  {
    hide LoopState, LabelOK, Gate, PrefixesPay, LastIndex, StartLabel, GroupRuntimeMs, MergeLabel, CutLabel;
    if i == 0 {
      StartIsCovered(app, chain, labels, generated);
      StartIsMerged(app, chain);
      CoveredBelow(labels[chain[0]], StartLabel(app, chain[0]), AllMerged(app, chain, 0));
    } else {
      SomeLabelIsMerged(app, chain, labels, generated, i - 1);
      var u, v := chain[i - 1], chain[i];
      var x :| x in labels[u] && Dominates(x, AllMerged(app, chain, i - 1));
      IndexIsUnique(chain, i - 1);
      KeptIsExpanded(app, chain, labels, generated, u, v, x);
      FastestIsOneGroup(app, chain, i - 1, x);
      MergedGate(app, chain, i, x);
      MergedStep(app, chain, i, x);
      CoveredBelow(labels[v], MergeLabel(app, x, v), AllMerged(app, chain, i));
    }
  }

  lemma {:induction false} CutTransferNonNegative(app: Application, ps: seq<Group>)
    requires WellFormed(app) && forall g, f :: g in ps && f in g ==> f in app.functions
    ensures CutTransfer(app.nodes, ps) >= 0.0
  {
    if |ps| >= 2 {
      CutTransferNonNegative(app, ps[..|ps| - 1]);
      var u, v := ps[|ps| - 2], ps[|ps| - 1];
      if u != [] && v != [] {
        assert u in ps && u[|u| - 1] in u;
        TransferNonNegative(app, u[|u| - 1], v[0]);
      }
    }
  }

  lemma KeptLabelOK(app: Application, chain: seq<Id>, labels: Frontiers, generated: set<Item>, u: Id, x: CspLabel)
    requires LoopState(app, chain, labels, [], generated) && u in labels && x in labels[u]
    ensures LabelOK(app, chain, u, x)
  {
    hide LabelOK, Pending;
    assert Item(u, x) in generated;
  }

  lemma AntichainOne(frontier: seq<CspLabel>, x: CspLabel, b: CspLabel)
    requires Antichain(frontier) && x in frontier && b in frontier && Dominates(x, b)
    ensures x == b
  {
    var i :| 0 <= i < |frontier| && frontier[i] == x;
    var j :| 0 <= j < |frontier| && frontier[j] == b;
  }

  lemma FrontierAntichain(app: Application, chain: seq<Id>, labels: Frontiers, generated: set<Item>, u: Id)
    requires LoopState(app, chain, labels, [], generated) && u in labels
    ensures Antichain(labels[u])
  { }

  /** Where every prefix pays and a hop takes time, the search answers exactly when the bare runtimes
      meet the cap, with the whole path in one group: no label has less transfer or less latency. What
      that costs is another matter. */
  lemma ExactWhenPrefixesPay(app: Application, labels: Frontiers, generated: set<Item>, best: Option<CspLabel>)
    requires var chain := CriticalPath(app);
      && WellFormed(app) && chain != [] && Distinct(chain) && app.networkHopMS > 0 && PrefixesPay(app, chain)
      && LoopState(app, chain, labels, [], generated) && Item(chain[0], StartLabel(app, chain[0])) in generated
      && Outcome(app, labels, best)
    ensures best.Some? <==> GroupRuntimeMs(app.nodes, CriticalPath(app)) <= app.maxLatencyMS
    ensures best.Some? ==> best.value.partitioning == [CriticalPath(app)]
  {
    hide GroupRuntimeMs, GroupMemory, LoopState, LabelOK, WellFormed, PrefixesPay, Antichain, StartLabel, Known,
      CriticalPath;
    var chain, n := CriticalPath(app), |CriticalPath(app)| - 1;
    var end := chain[n];
    SomeLabelIsMerged(app, chain, labels, generated, n);
    assert chain[..n + 1] == chain;
    var x :| x in labels[end] && Dominates(x, AllMerged(app, chain, n));
    KeptLabelOK(app, chain, labels, generated, end, x);
    FastestIsOneGroup(app, chain, n, x);
    FrontierAntichain(app, chain, labels, generated, end);
    if best.Some? {
      KeptLabelOK(app, chain, labels, generated, end, best.value);
      LabelAtLeast(app, chain, n, best.value);
      AntichainOne(labels[end], x, best.value);
    }
  }

  lemma LabelAtLeast(app: Application, chain: seq<Id>, i: nat, l: CspLabel)
    requires WellFormed(app) && Distinct(chain) && i < |chain| && (forall f :: f in chain ==> f in app.functions)
    requires LabelOK(app, chain, chain[i], l)
    ensures l.latency >= GroupRuntimeMs(app.nodes, chain[..i + 1]) && l.cost >= 0.0
  {
    hide IsTrail, Grown, CutTransfer, GroupMemory, GroupRuntimeMs;
    LabelCoversPrefix(app, chain, i, l);
    NonNegativeHops(|l.partitioning| - 1, app.networkHopMS);
    forall g, f | g in l.partitioning && f in g ensures f in app.functions {
      FlatContains(l.partitioning, g, f);
    }
    CutTransferNonNegative(app, l.partitioning);
  }

  lemma NonNegativeHops(n: nat, hop: int)
    requires hop >= 0
    ensures n * hop >= 0
  { }

  // ---- the regime in which the search finds nothing to fuse ----

  /** No two neighbours of the path pay for fusing on their own. */
  ghost predicate PairsDontPay(app: Application, chain: seq<Id>) {
    forall i :: 1 <= i < |chain| ==> MergeProfitUSD(app.nodes, [chain[i - 1]], [chain[i]]) <= 0.0
  }

  lemma {:induction false} EverySegmentIsOne(app: Application, chain: seq<Id>, ps: seq<Group>)
    requires PairsDontPay(app, chain) && |Flat(ps)| <= |chain| && Flat(ps) == chain[..|Flat(ps)|]
    requires forall g :: g in ps ==> Grown(app.nodes, g)
    ensures |ps| == |Flat(ps)|
    decreases |ps|
  {
    hide MergeProfitUSD;
    if ps != [] {
      var init, g := ps[..|ps| - 1], ps[|ps| - 1];
      var m := |Flat(init)|;
      assert Flat(ps) == Flat(init) + g && Flat(init) == chain[..m];
      EverySegmentIsOne(app, chain, init);
      assert g == Flat(ps)[m..] == chain[m..m + |g|];
      SegmentIsOne(app, chain, g, m);
    }
  }

  lemma SegmentIsOne(app: Application, chain: seq<Id>, g: Group, m: nat)
    requires PairsDontPay(app, chain) && Grown(app.nodes, g)
    requires m + |g| <= |chain| && g == chain[m..m + |g|]
    ensures |g| == 1
  {
    hide MergeProfitUSD, PairsDontPay;
    SecondPaid(app.nodes, g);
    PairDoesNotPay(app, chain, m + 1);
    GrownNonEmpty(app.nodes, g);
  }

  lemma SecondPaid(s: Store, g: Group)
    ensures Grown(s, g) && |g| >= 2 ==> MergeProfitUSD(s, [g[0]], [g[1]]) > 0.0
  {
    hide MergeProfitUSD;
    assert |g| >= 2 ==> g[..1] == [g[0]];
  }

  lemma PairDoesNotPay(app: Application, chain: seq<Id>, i: nat)
    requires PairsDontPay(app, chain)
    ensures 1 <= i < |chain| ==> MergeProfitUSD(app.nodes, [chain[i - 1]], [chain[i]]) <= 0.0
  { }

  /** Where no neighbours pay, a path that is too slow unfused gets no answer, even if fusing it
      would meet the cap. */
  lemma AnswersOnlyUnfused(app: Application, labels: Frontiers, generated: set<Item>, best: Option<CspLabel>)
    requires var chain := CriticalPath(app);
      && chain != [] && Distinct(chain) && Distinct(app.functions) && PairsDontPay(app, chain)
      && LoopState(app, chain, labels, [], generated) && Item(chain[0], StartLabel(app, chain[0])) in generated
      && Outcome(app, labels, best)
    ensures best.Some? <==> Latency(app, Singles(app.functions)) <= app.maxLatencyMS
  {
    hide LoopState, GroupRuntimeMs, Latency, StartLabel, CriticalPath, Known, Grown, IsTrail, CutTransfer, GroupMemory,
      PairsDontPay;
    var chain, n := CriticalPath(app), |CriticalPath(app)| - 1;
    UnfusedLatency(app);
    if Latency(app, Singles(app.functions)) <= app.maxLatencyMS {
      SucceedsWhenUnfusedFits(app, labels, generated, best);
    }
    if best.Some? {
      EndIsNode(app, labels, best.value);
      KeptLabelOK(app, chain, labels, generated, chain[n], best.value);
      LabelCoversPrefix(app, chain, n, best.value);
      assert chain[..n + 1] == chain;
      EverySegmentIsOne(app, chain, best.value.partitioning);
    }
  }

  lemma EndIsNode(app: Application, labels: Frontiers, l: CspLabel)
    requires Outcome(app, labels, Some(l))
    ensures var end := CriticalPath(app)[|CriticalPath(app)| - 1];
      end in labels && l in labels[end] && l.latency <= app.maxLatencyMS
  { }

  // ---- when the cap leaves no room for a hop ----

  lemma OneSegmentPays(app: Application, chain: seq<Id>, l: CspLabel)
    requires Distinct(chain) && chain != [] && app.networkHopMS > 0
    requires LabelOK(app, chain, chain[|chain| - 1], l)
    requires l.latency < GroupRuntimeMs(app.nodes, chain) + app.networkHopMS
    ensures l.partitioning == [chain]
    ensures forall i :: 1 <= i < |chain| ==> MergeProfitUSD(app.nodes, chain[..i], [chain[i]]) > 0.0
  {
    hide MergeProfitUSD, IsTrail, CutTransfer, GroupMemory, GroupRuntimeMs, Grown, Flat;
    var n, ps := |chain| - 1, l.partitioning;
    assert chain[..n + 1] == chain;
    LabelCoversPrefix(app, chain, n, l);
    AtMostBase(|ps| - 1, app.networkHopMS);
    FastestIsOneGroup(app, chain, n, l);
    assert chain in ps && Grown(app.nodes, chain);
    GrownPays(app.nodes, chain);
  }

  lemma GrownPays(s: Store, g: Group)
    requires Grown(s, g)
    ensures forall i :: 1 <= i < |g| ==> MergeProfitUSD(s, g[..i], [g[i]]) > 0.0
  { }

  lemma AtMostBase(n: nat, hop: int)
    requires hop > 0 && n * hop < hop
    ensures n == 0
  { }

  lemma PathFitsPrefixes(app: Application, chain: seq<Id>)
    requires forall f :: f in chain ==> At(app.nodes, f).memoryMB <= app.maxMemoryMB
    requires forall i :: 1 <= i < |chain| ==> MergeProfitUSD(app.nodes, chain[..i], [chain[i]]) > 0.0
    ensures PrefixesPay(app, chain)
  {
    hide MergeProfitUSD;
    forall i | 1 <= i < |chain|
      ensures Max(GroupMemory(app.nodes, chain[..i]), At(app.nodes, chain[i]).memoryMB) <= app.maxMemoryMB
    {
      forall f | f in chain[..i] ensures At(app.nodes, f).memoryMB <= app.maxMemoryMB { assert f in chain; }
      assert chain[i] in chain && At(app.nodes, chain[0]).memoryMB >= 0 && chain[0] in chain;
    }
  }

  /** For a path of any length that meets the cap bare but not with one hop: the search answers
      exactly when every prefix of the path pays for its next function, although fusing the path
      always meets the cap. */
  lemma AnswersExactlyWhenPrefixesPay(app: Application, labels: Frontiers, generated: set<Item>, best: Option<CspLabel>)
    requires var chain := CriticalPath(app);
      && WellFormed(app) && chain != [] && Distinct(chain) && app.networkHopMS > 0
      && (forall f :: f in chain ==> At(app.nodes, f).memoryMB <= app.maxMemoryMB)
      && GroupRuntimeMs(app.nodes, chain) <= app.maxLatencyMS < GroupRuntimeMs(app.nodes, chain) + app.networkHopMS
      && LoopState(app, chain, labels, [], generated) && Item(chain[0], StartLabel(app, chain[0])) in generated
      && Outcome(app, labels, best)
    ensures best.Some? <==>
      forall i :: 1 <= i < |CriticalPath(app)|
        ==> MergeProfitUSD(app.nodes, CriticalPath(app)[..i], [CriticalPath(app)[i]]) > 0.0
  {
    hide LoopState, GroupRuntimeMs, StartLabel, CriticalPath, Known, LabelOK, GroupMemory, MergeProfitUSD, WellFormed,
      PrefixesPay, Max;
    var chain := CriticalPath(app);
    if forall i :: 1 <= i < |chain| ==> MergeProfitUSD(app.nodes, chain[..i], [chain[i]]) > 0.0 {
      PathFitsPrefixes(app, chain);
      ExactWhenPrefixesPay(app, labels, generated, best);
    }
    if best.Some? {
      EndIsNode(app, labels, best.value);
      KeptLabelOK(app, chain, labels, generated, chain[|chain| - 1], best.value);
      OneSegmentPays(app, chain, best.value);
    }
  }
}
