/** What the gate admits, and the paths on which it leaves only one way to fuse. */
module CspGate {
  import opened Sums
  import opened Domain
  import opened Billing
  import opened Families
  import opened Csp
  import opened CspSearch
  import opened CostlessCsp
  import opened CspMeaning
  import opened CspOptimal

  // ---- both continuations of every kept label ----

  /** In a finished search, from every kept label: some label kept at the next function is as good as
      cutting there; and whenever the last group and that function fit and pay together, some label kept
      there is as good as fusing them, whichever group of the label the last one is. */
  lemma ContinuesBothWays(app: Application, labels: Frontiers, generated: set<Item>, best: Option<CspLabel>, i: nat,
      x: CspLabel)
    requires Finished(app, labels, generated, best) && Distinct(CriticalPath(app)) && i + 1 < |CriticalPath(app)|
    requires CriticalPath(app)[i] in labels && x in labels[CriticalPath(app)[i]]
    ensures x.partitioning != []
    ensures var s, u, v := app.nodes, CriticalPath(app)[i], CriticalPath(app)[i + 1];
      var last := x.partitioning[|x.partitioning| - 1];
      && v in labels
      && (exists y ::
          && y in labels[v]
          && y.cost <= x.cost + DataTransferCostUSD(s, u, v)
          && y.latency <= x.latency + At(s, v).runtimeMs + app.networkHopMS)
      && (GroupMemory(s, last + [v]) <= app.maxMemoryMB && MergeProfitUSD(s, last, [v]) > 0.0 ==>
          exists y :: y in labels[v] && y.cost <= x.cost && y.latency <= x.latency + At(s, v).runtimeMs)
  {
    hide LoopState, Outcome, StartLabel, DataTransferCostUSD, MergeProfitUSD, GroupMemory, LabelOK, CriticalPath,
      LastIndex;
    var chain := CriticalPath(app);
    IndexIsUnique(chain, i);
    KeptIsExpanded(app, chain, labels, generated, chain[i], chain[i + 1], x);
    LastGroupMemory(app, chain, chain[i], x);
    MemorySnoc(app.nodes, x.partitioning[|x.partitioning| - 1], chain[i + 1]);
    CoveredMeans(labels[chain[i + 1]], CutLabel(app, x, chain[i], chain[i + 1]));
    if Gate(app, x, chain[i + 1]) { CoveredMeans(labels[chain[i + 1]], MergeLabel(app, x, chain[i + 1])); }
  }

  lemma LastGroupMemory(app: Application, chain: seq<Id>, u: Id, l: CspLabel)
    requires LabelOK(app, chain, u, l)
    ensures l.partitioning != []
    ensures l.groupMemory == GroupMemory(app.nodes, l.partitioning[|l.partitioning| - 1])
  { }

  lemma CoveredMeans(frontier: seq<CspLabel>, l: CspLabel)
    requires Covered(frontier, l)
    ensures exists y :: y in frontier && y.cost <= l.cost && y.latency <= l.latency
  { }

  /** And nothing else is ever fused: in an answer every group of two or more fits the memory cap and was
      joined by profitable single additions. */
  lemma FusedOnlyWhatFitsAndPays(app: Application, labels: Frontiers, generated: set<Item>, l: CspLabel, g: Group)
    requires Finished(app, labels, generated, Some(l)) && g in l.partitioning && |g| >= 2
    ensures GroupMemory(app.nodes, g) <= app.maxMemoryMB
    ensures forall j :: 1 <= j < |g| ==> MergeProfitUSD(app.nodes, g[..j], [g[j]]) > 0.0
  {
    hide LoopState, StartLabel, CriticalPath, MergeProfitUSD, GroupMemory, CutTransfer, IsTrail, GroupRuntimeMs;
    var chain := CriticalPath(app);
    EndIsNode(app, labels, l);
    KeptLabelOK(app, chain, labels, generated, chain[|chain| - 1], l);
    assert Grown(app.nodes, g) && FusedFits(app, g);
  }

  // ---- paths on which the gate decides ----

  ghost predicate Fusable(app: Application, g: Group) {
    Grown(app.nodes, g) && FusedFits(app, g)
  }

  ghost predicate Admits(app: Application, g: Group, v: Id) {
    GroupMemory(app.nodes, g + [v]) <= app.maxMemoryMB && MergeProfitUSD(app.nodes, g, [v]) > 0.0
  }

  /** No stretch of the path that could have been fused up to `i` takes the `i`-th function in. */
  ghost predicate Closed(app: Application, chain: seq<Id>, i: nat)
    requires i < |chain|
  {
    forall j: nat :: j < i && Fusable(app, chain[j..i]) ==> !Admits(app, chain[j..i], chain[i])
  }

  /** The path up to `i`, cut exactly where nothing can be fused. */
  ghost function Segments(app: Application, chain: seq<Id>, i: nat): (ps: seq<Group>)
    requires i < |chain|
    ensures ps != []
  {
    if i == 0 then [[chain[0]]] else
    var before := Segments(app, chain, i - 1);
    var k := |before| - 1;
    if Closed(app, chain, i) then before + [[chain[i]]] else before[k := before[k] + [chain[i]]]
  }

  /** Wherever something can be fused, the stretch since the last cut can. */
  ghost predicate Decided(app: Application, chain: seq<Id>) {
    forall i :: 1 <= i < |chain| && !Closed(app, chain, i) ==>
      var before := Segments(app, chain, i - 1);
      Admits(app, before[|before| - 1], chain[i])
  }

  lemma SegmentsStep(app: Application, chain: seq<Id>, i: nat)
    requires 0 < i < |chain|
    ensures var before := Segments(app, chain, i - 1);
      Segments(app, chain, i) ==
        if Closed(app, chain, i) then before + [[chain[i]]]
        else before[|before| - 1 := before[|before| - 1] + [chain[i]]]
  { }

  lemma SegmentsStart(app: Application, chain: seq<Id>)
    requires chain != []
    ensures Segments(app, chain, 0) == [[chain[0]]]
  { }

  lemma {:induction false} SegmentsShape(app: Application, chain: seq<Id>, i: nat)
    requires i < |chain|
    ensures Flat(Segments(app, chain, i)) == chain[..i + 1] && [] !in Segments(app, chain, i)
  {
    hide Closed, Segments, Flat;
    if i == 0 {
      SegmentsStart(app, chain);
      FlatOne([chain[0]]);
    } else {
      SegmentsShape(app, chain, i - 1);
      SegmentsStep(app, chain, i);
      FlatSnoc(Segments(app, chain, i - 1), [chain[i]]);
      FlatExtend(Segments(app, chain, i - 1), chain[i]);
      assert chain[..i + 1] == chain[..i] + [chain[i]];
    }
  }

  /** What fused a group's last member in is a stretch that could have been fused without it. */
  lemma LastMemberAdmitted(app: Application, g: Group)
    requires Fusable(app, g) && |g| >= 2
    ensures Fusable(app, g[..|g| - 1]) && Admits(app, g[..|g| - 1], g[|g| - 1])
  {
    hide MergeProfitUSD, GroupMemory;
    var init := g[..|g| - 1];
    assert g == init + [g[|g| - 1]];
    forall j | 1 <= j < |init| ensures MergeProfitUSD(app.nodes, init[..j], [init[j]]) > 0.0 {
      assert init[..j] == g[..j];
    }
    MemorySnoc(app.nodes, init, g[|g| - 1]);
  }

  /** A path cut into groups that could be fused, seen from its last group. */
  lemma LastGroup(app: Application, chain: seq<Id>, i: nat, ps: seq<Group>)
    requires i < |chain| && Flat(ps) == chain[..i + 1] && forall g :: g in ps ==> Fusable(app, g)
    ensures ps != [] && ps[|ps| - 1] != []
    ensures var init, g := ps[..|ps| - 1], ps[|ps| - 1];
      && |g| <= i + 1 && g == chain[i + 1 - |g|..i + 1] && Flat(init) == chain[..i + 1 - |g|]
      && (init == [] <==> |g| == i + 1)
  {
    hide Grown, FusedFits;
    NothingFlat();
    assert ps != [];
    var init, g := ps[..|ps| - 1], ps[|ps| - 1];
    forall q | q in ps ensures q != [] { NotEmpty(app, q); }
    assert Flat(ps) == Flat(init) + g;
    assert g in ps;
    assert forall q :: q in init ==> q in ps;
    LoneSegments(init);
    assert |Flat(init)| == i + 1 - |g|;
    assert Flat(init) == Flat(ps)[..|Flat(init)|] && g == Flat(ps)[|Flat(init)|..];
  }

  lemma NotEmpty(app: Application, g: Group)
    requires Fusable(app, g)
    ensures g != []
  { }

  /** Closed positions are cut in every such segmentation; cutting there alone is the only way to have as
      few groups, and none has less transfer. */
  lemma {:induction false} CutsWhereClosed(app: Application, chain: seq<Id>, i: nat, ps: seq<Group>)
    requires WellFormed(app) && i < |chain| && forall f :: f in chain ==> f in app.functions
    requires Flat(ps) == chain[..i + 1] && forall g :: g in ps ==> Fusable(app, g)
    ensures |ps| >= |Segments(app, chain, i)|
    ensures |ps| == |Segments(app, chain, i)| ==> ps == Segments(app, chain, i)
    ensures CutTransfer(app.nodes, ps) >= CutTransfer(app.nodes, Segments(app, chain, i))
    decreases i, 1
  {
    hide WellFormed, Closed, Segments, Flat, CutTransfer, Fusable;
    LastGroup(app, chain, i, ps);
    var init, g := ps[..|ps| - 1], ps[|ps| - 1];
    assert ps == init + [g];
    if i == 0 {
      SegmentsStart(app, chain);
      assert g == [chain[0]];
    } else {
      SegmentsStep(app, chain, i);
      if |g| == 1 {
        assert g == [chain[i]];
        CutAt(app, chain, i, init);
      } else {
        FusedAt(app, chain, i, init, g);
      }
    }
  }

  lemma {:induction false} CutAt(app: Application, chain: seq<Id>, i: nat, init: seq<Group>)
    requires WellFormed(app) && 0 < i < |chain| && forall f :: f in chain ==> f in app.functions
    requires Flat(init) == chain[..i] && forall g :: g in init ==> Fusable(app, g)
    ensures var ps := init + [[chain[i]]];
      && |ps| >= |Segments(app, chain, i)|
      && (|ps| == |Segments(app, chain, i)| ==> ps == Segments(app, chain, i))
      && CutTransfer(app.nodes, ps) >= CutTransfer(app.nodes, Segments(app, chain, i))
    decreases i, 0
  {
    hide WellFormed, Closed, Segments, Flat, CutTransfer, Fusable, DataTransferCostUSD;
    var before := Segments(app, chain, i - 1);
    CutsWhereClosed(app, chain, i - 1, init);
    SegmentsStep(app, chain, i);
    SegmentsShape(app, chain, i - 1);
    LastGroup(app, chain, i - 1, init);
    CutTransferSnoc(app.nodes, init, chain[i]);
    CutTransferSnoc(app.nodes, before, chain[i]);
    CutTransferExtend(app.nodes, before, chain[i]);
    EndsAt(chain, i - 1, before);
    EndsAt(chain, i - 1, init);
    TransferNonNegative(app, chain[i - 1], chain[i]);
  }

  /** A segmentation ends with the last function it covers. */
  lemma EndsAt(chain: seq<Id>, i: nat, ps: seq<Group>)
    requires i < |chain| && Flat(ps) == chain[..i + 1] && ps != [] && ps[|ps| - 1] != []
    ensures ps[|ps| - 1][|ps[|ps| - 1]| - 1] == chain[i]
  {
    FlatLast(ps);
  }

  lemma {:induction false} FusedAt(app: Application, chain: seq<Id>, i: nat, init: seq<Group>, g: Group)
    requires WellFormed(app) && 0 < i < |chain| && forall f :: f in chain ==> f in app.functions
    requires 2 <= |g| <= i + 1 && g == chain[i + 1 - |g|..i + 1] && Flat(init) == chain[..i + 1 - |g|]
    requires Fusable(app, g) && forall q :: q in init ==> Fusable(app, q)
    ensures var ps := init + [g];
      && |ps| >= |Segments(app, chain, i)|
      && (|ps| == |Segments(app, chain, i)| ==> ps == Segments(app, chain, i))
      && CutTransfer(app.nodes, ps) >= CutTransfer(app.nodes, Segments(app, chain, i))
    decreases i, 0
  {
    hide WellFormed, Segments, Flat, CutTransfer, Admits, Grown, FusedFits;
    var start, h := i + 1 - |g|, g[..|g| - 1];
    LastMemberAdmitted(app, g);
    assert h == chain[start..i] && g == h + [chain[i]];
    assert !Closed(app, chain, i);
    hide Closed, Fusable;
    var shorter, before := init + [h], Segments(app, chain, i - 1);
    FlatSnoc(init, h);
    assert chain[..start] + chain[start..i] == chain[..i];
    CutsWhereClosed(app, chain, i - 1, shorter);
    SegmentsStep(app, chain, i);
    SegmentsShape(app, chain, i - 1);
    CutTransferExtend(app.nodes, before, chain[i]);
    CutTransferExtend(app.nodes, shorter, chain[i]);
    assert shorter[|shorter| - 1 := h + [chain[i]]] == init + [g];
  }

  // ---- the search on such a path ----

  /** Bare runtimes so far, and a hop for each cut. */
  ghost function DecidedLatency(app: Application, chain: seq<Id>, i: nat): int
    requires i < |chain|
  {
    GroupRuntimeMs(app.nodes, chain[..i + 1]) + (|Segments(app, chain, i)| - 1) * app.networkHopMS
  }

  /** With a positive hop, a label as fast as the decided segmentation is that segmentation. */
  lemma FastestIsDecided(app: Application, i: nat, l: CspLabel)
    requires WellFormed(app) && Distinct(CriticalPath(app)) && app.networkHopMS > 0 && i < |CriticalPath(app)|
    requires LabelOK(app, CriticalPath(app), CriticalPath(app)[i], l)
    ensures l.latency >= DecidedLatency(app, CriticalPath(app), i)
    ensures l.latency <= DecidedLatency(app, CriticalPath(app), i) ==>
      l.partitioning == Segments(app, CriticalPath(app), i)
    ensures l.cost >= CutTransfer(app.nodes, Segments(app, CriticalPath(app), i))
  {
    hide IsTrail, CutTransfer, GroupRuntimeMs, Grown, FusedFits, Segments, WellFormed, CriticalPath, Flat, GroupMemory;
    var chain, ps := CriticalPath(app), l.partitioning;
    PathInside(app);
    assert forall f :: f in chain ==> f in Elems(chain);
    LabelCoversPrefix(app, chain, i, l);
    CutsWhereClosed(app, chain, i, ps);
    MoreHops(|Segments(app, chain, i)| - 1, |ps| - 1, app.networkHopMS);
  }

  lemma MoreHops(m: nat, n: nat, hop: int)
    requires m <= n && hop > 0
    ensures m * hop <= n * hop && (n * hop <= m * hop ==> m == n)
  {
    if m < n { assert (m + 1) * hop <= n * hop; }
  }

  lemma {:induction false} SomeLabelIsDecided(app: Application, labels: Frontiers, generated: set<Item>,
      best: Option<CspLabel>, i: nat) returns (x: CspLabel)
    requires WellFormed(app) && Finished(app, labels, generated, best) && Distinct(CriticalPath(app))
    requires app.networkHopMS > 0 && i < |CriticalPath(app)| && Decided(app, CriticalPath(app))
    ensures CriticalPath(app)[i] in labels && x in labels[CriticalPath(app)[i]]
    ensures x.partitioning == Segments(app, CriticalPath(app), i)
    ensures x.latency <= DecidedLatency(app, CriticalPath(app), i)
  {
    hide Finished, LabelOK, Segments, WellFormed, CriticalPath, Decided, DecidedLatency;
    if i == 0 {
      x := FirstLabel(app, labels, generated, best);
    } else {
      var w := SomeLabelIsDecided(app, labels, generated, best, i - 1);
      x := NextIsAsFast(app, labels, generated, best, i, w);
      FinishedKept(app, labels, generated, best, i, x);
      FastestIsDecided(app, i, x);
    }
  }

  /** From the decided label before it, the next function keeps one as fast as the decided latency. */
  lemma NextIsAsFast(app: Application, labels: Frontiers, generated: set<Item>, best: Option<CspLabel>, i: nat,
      w: CspLabel) returns (x: CspLabel)
    requires Finished(app, labels, generated, best) && Distinct(CriticalPath(app))
    requires 0 < i < |CriticalPath(app)| && Decided(app, CriticalPath(app))
    requires CriticalPath(app)[i - 1] in labels && w in labels[CriticalPath(app)[i - 1]]
    requires w.partitioning == Segments(app, CriticalPath(app), i - 1)
    requires w.latency <= DecidedLatency(app, CriticalPath(app), i - 1)
    ensures CriticalPath(app)[i] in labels && x in labels[CriticalPath(app)[i]]
    ensures x.latency <= DecidedLatency(app, CriticalPath(app), i)
  {
    hide Finished, Closed, Segments, CriticalPath, Decided, GroupRuntimeMs, MergeProfitUSD, GroupMemory,
      DataTransferCostUSD;
    var chain := CriticalPath(app);
    ContinuesBothWays(app, labels, generated, best, i - 1, w);
    DecidedLatencyStep(app, chain, i);
    if Closed(app, chain, i) {
      x :| x in labels[chain[i]] && x.latency <= w.latency + At(app.nodes, chain[i]).runtimeMs + app.networkHopMS;
    } else {
      DecidedAdmits(app, chain, i);
      x :| x in labels[chain[i]] && x.latency <= w.latency + At(app.nodes, chain[i]).runtimeMs;
    }
  }

  lemma DecidedLatencyStep(app: Application, chain: seq<Id>, i: nat)
    requires 0 < i < |chain|
    ensures DecidedLatency(app, chain, i) == DecidedLatency(app, chain, i - 1) + At(app.nodes, chain[i]).runtimeMs
      + if Closed(app, chain, i) then app.networkHopMS else 0
  {
    hide Closed, Segments, GroupRuntimeMs;
    RuntimeSnoc(app.nodes, chain[..i], chain[i]);
    assert chain[..i + 1] == chain[..i] + [chain[i]];
    SegmentsStep(app, chain, i);
    HopsStep(|Segments(app, chain, i - 1)|, app.networkHopMS);
  }

  lemma DecidedAdmits(app: Application, chain: seq<Id>, i: nat)
    requires 0 < i < |chain| && Decided(app, chain) && !Closed(app, chain, i)
    ensures var before := Segments(app, chain, i - 1);
      GroupMemory(app.nodes, before[|before| - 1] + [chain[i]]) <= app.maxMemoryMB
      && MergeProfitUSD(app.nodes, before[|before| - 1], [chain[i]]) > 0.0
  {
    hide Segments, Closed, MergeProfitUSD, GroupMemory;
  }

  lemma FinishedKept(app: Application, labels: Frontiers, generated: set<Item>, best: Option<CspLabel>, i: nat,
      x: CspLabel)
    requires Finished(app, labels, generated, best) && i < |CriticalPath(app)|
    requires CriticalPath(app)[i] in labels && x in labels[CriticalPath(app)[i]]
    ensures LabelOK(app, CriticalPath(app), CriticalPath(app)[i], x)
  {
    hide LoopState, Outcome, LabelOK, CriticalPath, StartLabel;
    KeptLabelOK(app, CriticalPath(app), labels, generated, CriticalPath(app)[i], x);
  }

  lemma FirstLabel(app: Application, labels: Frontiers, generated: set<Item>, best: Option<CspLabel>)
    returns (x: CspLabel)
    requires WellFormed(app) && Finished(app, labels, generated, best) && Distinct(CriticalPath(app))
    requires app.networkHopMS > 0
    ensures CriticalPath(app)[0] in labels && x in labels[CriticalPath(app)[0]]
    ensures x.partitioning == Segments(app, CriticalPath(app), 0)
    ensures x.latency <= DecidedLatency(app, CriticalPath(app), 0)
  {
    hide LoopState, Outcome, LabelOK, WellFormed, CriticalPath, Segments;
    var chain := CriticalPath(app);
    StartIsCovered(app, chain, labels, generated);
    CoveredMeans(labels[chain[0]], StartLabel(app, chain[0]));
    x :| x in labels[chain[0]] && x.latency <= StartLabel(app, chain[0]).latency;
    SegmentsStart(app, chain);
    RuntimeSnoc(app.nodes, [], chain[0]);
    assert chain[..1] == [] + [chain[0]];
    FinishedKept(app, labels, generated, best, 0, x);
    FastestIsDecided(app, 0, x);
  }

  /** On a path where, at every function, either nothing before it can be fused with it or the stretch
      since the last cut can: the search answers exactly when that segmentation meets the latency cap, and
      answers with it. Segments after a cut are fused like the first. */
  lemma AnswersAsDecided(app: Application, labels: Frontiers, generated: set<Item>, best: Option<CspLabel>)
    requires WellFormed(app) && Finished(app, labels, generated, best) && Distinct(CriticalPath(app))
    requires app.networkHopMS > 0 && Decided(app, CriticalPath(app))
    ensures var chain := CriticalPath(app);
      var ps := Segments(app, chain, |chain| - 1);
      && (best.Some? <==> GroupRuntimeMs(app.nodes, chain) + (|ps| - 1) * app.networkHopMS <= app.maxLatencyMS)
      && (best.Some? ==> best.value.partitioning == ps)
  {
    hide LoopState, LabelOK, Segments, GroupRuntimeMs, WellFormed, CriticalPath, Decided, Antichain, StartLabel,
      CutTransfer;
    var chain, n := CriticalPath(app), |CriticalPath(app)| - 1;
    assert chain[..n + 1] == chain;
    var x := SomeLabelIsDecided(app, labels, generated, best, n);
    FinishedKept(app, labels, generated, best, n, x);
    FastestIsDecided(app, n, x);
    FrontierAntichain(app, chain, labels, generated, chain[n]);
    if best.Some? {
      EndIsNode(app, labels, best.value);
      FinishedKept(app, labels, generated, best, n, best.value);
      FastestIsDecided(app, n, best.value);
      SameCost(app, n, x);
      AntichainOne(labels[chain[n]], x, best.value);
    }
  }

  lemma SameCost(app: Application, i: nat, x: CspLabel)
    requires i < |CriticalPath(app)| && LabelOK(app, CriticalPath(app), CriticalPath(app)[i], x)
    ensures x.cost == CutTransfer(app.nodes, x.partitioning)
  { }
}
